/**
  Blocks over HTTP (pkg/client/transport_http.go): every plain transaction of a block is wrapped
  into a TransactionExtention, and a bare array of blocks into a BlockListExtention.
 */
module TronBlocks {
  import opened Wrappers
  import opened Hex
  import opened TronJson
  import opened TronJsonMeaning
  import Base64

  // ----- What the three functions may return -----

  predicate HasTextId(m: map<string, Json>) {
    "txID" in m && m["txID"].Str?
  }

  function IdImage(s: string): Json {
    Str(if IsHexString(s) then HexToBase64(s) else s)
  }

  ghost predicate ExtentionImage(tx: Json, r: Json) {
    if !tx.Obj? then Transforms(tx, "", r)
    else
      && r.Obj?
      && r.fields.Keys == {"transaction"} + (if HasTextId(tx.fields) then {"txid"} else {})
      && Transforms(Obj(tx.fields - {"txID"}), "", r.fields["transaction"])
      && (HasTextId(tx.fields) ==> r.fields["txid"] == IdImage(tx.fields["txID"].s))
  }

  ghost predicate ExtentionsImage(txs: seq<Json>, r: Json) {
    r.Arr? && |r.items| == |txs| && ExtentionsSoFar(txs, r.items)
  }

  ghost predicate ExtentionsSoFar(txs: seq<Json>, images: seq<Json>) {
    |images| <= |txs| && forall i :: 0 <= i < |images| ==> ExtentionImage(txs[i], images[i])
  }

  predicate IsTransactionList(k: string, x: Json) {
    k == "transactions" && x.Arr?
  }

  ghost predicate BlockFieldImage(k: string, x: Json, r: Json) {
    if IsTransactionList(k, x) then
      ExtentionsImage(x.items, r)
    else Transforms(x, "", r)
  }

  ghost predicate BlockFieldsImage(m: map<string, Json>, r: map<string, Json>) {
    r.Keys == FieldNames(m) && forall n :: n in r ==> BlockNameImage(m, n, r[n])
  }

  /** `image` comes from a field of `m` that is called `n` in protobuf. */
  ghost predicate BlockNameImage(m: map<string, Json>, n: string, image: Json) {
    exists k :: k in m && NormalizeFieldName(k) == n && BlockFieldImage(k, m[k], image)
  }

  ghost predicate BlockImage(block: Json, r: Json) {
    if !block.Obj? then Transforms(block, "", r)
    else r.Obj? && BlockFieldsImage(block.fields, r.fields)
  }

  ghost predicate BlocksImage(blocks: seq<Json>, r: Json) {
    r.Arr? && |r.items| == |blocks| && BlocksSoFar(blocks, r.items)
  }

  ghost predicate BlocksSoFar(blocks: seq<Json>, images: seq<Json>) {
    |images| <= |blocks| && forall i :: 0 <= i < |images| ==> BlockImage(blocks[i], images[i])
  }

  predicate IsBlockList(k: string, x: Json) {
    k == "block" && x.Arr?
  }

  ghost predicate BlockListFieldImage(k: string, x: Json, r: Json) {
    if IsBlockList(k, x) then BlocksImage(x.items, r) else Transforms(x, "", r)
  }

  ghost predicate BlockListFieldsImage(m: map<string, Json>, r: map<string, Json>) {
    r.Keys == FieldNames(m) && forall n :: n in r ==> BlockListNameImage(m, n, r[n])
  }

  /** `image` comes from a field of `m` that is called `n` in protobuf. */
  ghost predicate BlockListNameImage(m: map<string, Json>, n: string, image: Json) {
    exists k :: k in m && NormalizeFieldName(k) == n && BlockListFieldImage(k, m[k], image)
  }

  predicate HoldsBlockList(j: Json) {
    j.Obj? && "block" in j.fields && j.fields["block"].Arr?
  }

  ghost predicate BlockListImage(j: Json, r: Json) {
    if j.Arr? then
      r.Obj? && r.fields.Keys == {"block"} && BlocksImage(j.items, r.fields["block"])
    else if HoldsBlockList(j) then
      r.Obj? && BlockListFieldsImage(j.fields, r.fields)
    else Transforms(j, "", r)
  }

  // ----- The functions -----

  method WrapTransactionExtention(tx: Json) returns (r: Json)
    ensures ExtentionImage(tx, r)
  {
    if !tx.Obj? {
      r := TransformTronJSON(tx, "");
      return;
    }
    var transaction := TransformTronJSON(Obj(tx.fields - {"txID"}), "");
    var result := map["transaction" := transaction];
    if HasTextId(tx.fields) {
      var txID := tx.fields["txID"].s;
      result := result["txid" := if IsHexString(txID) then Str(HexToBase64(txID)) else Str(txID)];
    }
    r := Obj(result);
  }

  method TransformBlockJSON(data: Json) returns (r: Json)
    ensures BlockImage(data, r)
  {
    if data.Obj? {
      var result := TransformBlockFields(data.fields);
      r := Obj(result);
    } else {
      r := TransformTronJSON(data, "");
    }
  }

  method TransformBlockFields(m: map<string, Json>) returns (result: map<string, Json>)
    ensures BlockFieldsImage(m, result)
  {
    result := map[];
    var rest := m.Keys;
    while rest != {}
      invariant rest <= m.Keys
      invariant result.Keys == set k | k in m.Keys - rest :: NormalizeFieldName(k)
      invariant forall n :: n in result ==>
                  exists k :: k in m.Keys - rest && NormalizeFieldName(k) == n && BlockFieldImage(k, m[k], result[n])
      decreases rest
    {
      ghost var w := Pick(rest);
      var k :| k in rest;
      var image := TransformBlockField(k, m[k]);
      result := result[NormalizeFieldName(k) := image];
      rest := rest - {k};
    }
  }

  method TransformBlockField(k: string, v: Json) returns (image: Json)
    ensures BlockFieldImage(k, v, image)
  {
    if NormalizeFieldName(k) == "transactions" && v.Arr? {
      image := WrapTransactions(v.items);
    } else {
      image := TransformTronJSON(v, "");
    }
  }

  method WrapTransactions(txs: seq<Json>) returns (r: Json)
    ensures ExtentionsImage(txs, r)
  {
    hide ExtentionsSoFar, ExtentionImage;
    var images: seq<Json> := [];
    NoExtention(txs);
    for i := 0 to |txs|
      invariant |images| == i && ExtentionsSoFar(txs, images)
    {
      var image := WrapTransactionExtention(txs[i]);
      OneMoreExtention(txs, images, image);
      images := images + [image];
    }
    r := Arr(images);
  }

  lemma NoExtention(txs: seq<Json>)
    ensures ExtentionsSoFar(txs, [])
  {
  }

  lemma OneMoreExtention(txs: seq<Json>, images: seq<Json>, image: Json)
    requires |images| < |txs| && ExtentionsSoFar(txs, images) && ExtentionImage(txs[|images|], image)
    ensures ExtentionsSoFar(txs, images + [image])
  {
    hide ExtentionImage;
  }

  method TransformBlocks(blocks: seq<Json>) returns (r: Json)
    ensures BlocksImage(blocks, r)
  {
    hide BlocksSoFar, BlockImage;
    var images: seq<Json> := [];
    NoBlock(blocks);
    for i := 0 to |blocks|
      invariant |images| == i && BlocksSoFar(blocks, images)
    {
      var image := TransformBlockJSON(blocks[i]);
      OneMoreBlock(blocks, images, image);
      images := images + [image];
    }
    r := Arr(images);
  }

  lemma NoBlock(blocks: seq<Json>)
    ensures BlocksSoFar(blocks, [])
  {
  }

  lemma OneMoreBlock(blocks: seq<Json>, images: seq<Json>, image: Json)
    requires |images| < |blocks| && BlocksSoFar(blocks, images) && BlockImage(blocks[|images|], image)
    ensures BlocksSoFar(blocks, images + [image])
  {
    hide BlockImage;
  }

  method TransformBlockListJSON(data: Json) returns (r: Json)
    ensures BlockListImage(data, r)
  {
    if data.Arr? {
      var blocks := TransformBlocks(data.items);
      r := Obj(map["block" := blocks]);
    } else if HoldsBlockList(data) {
      var m := data.fields;
      var blocks := TransformBlocks(m["block"].items);
      var result := map[];
      var rest := m.Keys;
      while rest != {}
        invariant rest <= m.Keys
        invariant result.Keys == set k | k in m.Keys - rest :: NormalizeFieldName(k)
        invariant forall n :: n in result ==>
                    exists k :: k in m.Keys - rest && NormalizeFieldName(k) == n && BlockListFieldImage(k, m[k], result[n])
        decreases rest
      {
        ghost var w := Pick(rest);
        var k :| k in rest;
        var image := blocks;
        if k != "block" {
          image := TransformTronJSON(m[k], "");
        }
        assert BlockListFieldImage(k, m[k], image);
        result := result[NormalizeFieldName(k) := image];
        rest := rest - {k};
      }
      r := Obj(result);
    } else {
      r := TransformTronJSON(data, "");
    }
  }

  // ----- What Tron's blocks mean -----

  /** A transaction with its id beside it. */
  function ReadExtention(schema: set<string>, tx: Json): Value {
    if !tx.Obj? then ReadTron(schema, tx, "transactions")
    else
      var body := map["transaction" := ReadTron(schema, Obj(tx.fields - {"txID"}), "transaction")];
      VMessage(if "txID" in tx.fields then body["txid" := ReadTron(schema, tx.fields["txID"], "txid")] else body)
  }

  function ReadExtentions(schema: set<string>, txs: seq<Json>): Value {
    VList(seq(|txs|, i requires 0 <= i < |txs| => ReadExtention(schema, txs[i])))
  }

  function ReadBlockField(schema: set<string>, k: string, x: Json): Value {
    if IsTransactionList(k, x) then ReadExtentions(schema, x.items)
    else ReadTron(schema, x, NormalizeFieldName(k))
  }

  function ReadBlock(schema: set<string>, block: Json): Value {
    if !block.Obj? then ReadTron(schema, block, "block")
    else MessageOf(block.fields, BlockValues(schema, block.fields))
  }

  function BlockValues(schema: set<string>, m: map<string, Json>): (values: map<string, Value>)
    ensures values.Keys == m.Keys
  {
    map k | k in m :: ReadBlockField(schema, k, m[k])
  }

  function ReadBlocks(schema: set<string>, blocks: seq<Json>): Value {
    VList(seq(|blocks|, i requires 0 <= i < |blocks| => ReadBlock(schema, blocks[i])))
  }

  function ReadBlockListField(schema: set<string>, k: string, x: Json): Value {
    if IsBlockList(k, x) then ReadBlocks(schema, x.items) else ReadTron(schema, x, NormalizeFieldName(k))
  }

  function ReadBlockList(schema: set<string>, j: Json): Value {
    if j.Arr? then VMessage(map["block" := ReadBlocks(schema, j.items)])
    else if HoldsBlockList(j)
    then MessageOf(j.fields, BlockListValues(schema, j.fields))
    else ReadTron(schema, j, "")
  }

  function BlockListValues(schema: set<string>, m: map<string, Json>): (values: map<string, Value>)
    ensures values.Keys == m.Keys
  {
    map k | k in m :: ReadBlockListField(schema, k, m[k])
  }

  // ----- When it is kept -----

  /** An id that is no text is dropped. */
  predicate FaithfulExtention(schema: set<string>, tx: Json) {
    if !tx.Obj? then Faithful(schema, tx, "", "transactions")
    else
      && Faithful(schema, Obj(tx.fields - {"txID"}), "", "transaction")
      && ("txID" in tx.fields ==>
            tx.fields["txID"].Str? && FaithfulText(schema, tx.fields["txID"].s, "txID", "txid"))
  }

  predicate FaithfulExtentions(schema: set<string>, txs: seq<Json>) {
    forall i :: 0 <= i < |txs| ==> FaithfulExtention(schema, txs[i])
  }

  /** Text directly in a block is looked up under no name, so it is never converted. */
  predicate FaithfulBlockField(schema: set<string>, k: string, x: Json) {
    if IsTransactionList(k, x) then FaithfulExtentions(schema, x.items)
    else Faithful(schema, x, "", NormalizeFieldName(k))
  }

  predicate FaithfulBlock(schema: set<string>, block: Json) {
    if !block.Obj? then Faithful(schema, block, "", "block")
    else
      && !IsProtoAny(block.fields) && SpellingsSayTheSame(block.fields, BlockValues(schema, block.fields))
      && FaithfulBlockFields(schema, block.fields)
  }

  predicate FaithfulBlockFields(schema: set<string>, m: map<string, Json>) {
    forall k :: k in m ==> FaithfulBlockField(schema, k, m[k])
  }

  predicate FaithfulBlocks(schema: set<string>, blocks: seq<Json>) {
    forall i :: 0 <= i < |blocks| ==> FaithfulBlock(schema, blocks[i])
  }

  predicate FaithfulBlockListField(schema: set<string>, k: string, x: Json) {
    if IsBlockList(k, x) then FaithfulBlocks(schema, x.items)
    else Faithful(schema, x, "", NormalizeFieldName(k))
  }

  predicate FaithfulBlockListFields(schema: set<string>, m: map<string, Json>) {
    forall k :: k in m ==> FaithfulBlockListField(schema, k, m[k])
  }

  predicate FaithfulBlockList(schema: set<string>, j: Json) {
    if j.Arr? then FaithfulBlocks(schema, j.items)
    else if HoldsBlockList(j) then
      && !IsProtoAny(j.fields) && SpellingsSayTheSame(j.fields, BlockListValues(schema, j.fields))
      && FaithfulBlockListFields(schema, j.fields)
    else Faithful(schema, j, "", "")
  }

  // ----- One of the results -----

  function ExtentionResult(tx: Json): Json {
    if !tx.Obj? then Image(tx, "")
    else
      var body := map["transaction" := Image(Obj(tx.fields - {"txID"}), "")];
      Obj(if HasTextId(tx.fields) then body["txid" := IdImage(tx.fields["txID"].s)] else body)
  }

  lemma ExtentionResultIsImage(tx: Json)
    ensures ExtentionImage(tx, ExtentionResult(tx))
  {
    hide Transforms, Image;
    if tx.Obj? {
      ImageIsResult(Obj(tx.fields - {"txID"}), "");
    } else {
      ImageIsResult(tx, "");
    }
  }

  function ExtentionResults(txs: seq<Json>): (r: Json)
    ensures r.Arr? && |r.items| == |txs|
  {
    Arr(seq(|txs|, i requires 0 <= i < |txs| => ExtentionResult(txs[i])))
  }

  lemma ExtentionResultsAreImage(txs: seq<Json>)
    ensures ExtentionsImage(txs, ExtentionResults(txs))
  {
    hide ExtentionImage, ExtentionResult;
    forall i | 0 <= i < |txs| ensures ExtentionImage(txs[i], ExtentionResult(txs[i])) {
      ExtentionResultIsImage(txs[i]);
    }
  }

  function BlockFieldResult(k: string, x: Json): Json {
    if IsTransactionList(k, x) then ExtentionResults(x.items) else Image(x, "")
  }

  lemma BlockFieldResultIsImage(k: string, x: Json)
    ensures BlockFieldImage(k, x, BlockFieldResult(k, x))
  {
    hide ExtentionsImage, Transforms, Image;
    if IsTransactionList(k, x) {
      ExtentionResultsAreImage(x.items);
    } else {
      ImageIsResult(x, "");
    }
  }

  function BlockFieldResults(m: map<string, Json>): (r: map<string, Json>)
    ensures r.Keys == FieldNames(m)
  {
    map n | n in FieldNames(m) :: BlockFieldResult(Spelling(m, n), m[Spelling(m, n)])
  }

  function BlockResult(block: Json): Json {
    if block.Obj? then Obj(BlockFieldResults(block.fields)) else Image(block, "")
  }

  lemma BlockResultIsImage(block: Json)
    ensures BlockImage(block, BlockResult(block))
  {
    hide BlockFieldsImage, BlockFieldResults, Transforms, Image;
    if block.Obj? {
      BlockResultsAreImage(block.fields);
    } else {
      ImageIsResult(block, "");
    }
  }

  function BlockResults(blocks: seq<Json>): (r: Json)
    ensures r.Arr? && |r.items| == |blocks|
  {
    Arr(seq(|blocks|, i requires 0 <= i < |blocks| => BlockResult(blocks[i])))
  }

  lemma BlockListItemsAreImage(blocks: seq<Json>)
    ensures BlocksImage(blocks, BlockResults(blocks))
  {
    hide BlockImage, BlockResult;
    forall i | 0 <= i < |blocks| ensures BlockImage(blocks[i], BlockResult(blocks[i])) {
      BlockResultIsImage(blocks[i]);
    }
  }

  function BlockListFieldResult(k: string, x: Json): Json {
    if IsBlockList(k, x) then BlockResults(x.items) else Image(x, "")
  }

  lemma BlockListFieldResultIsImage(k: string, x: Json)
    ensures BlockListFieldImage(k, x, BlockListFieldResult(k, x))
  {
    hide BlocksImage, Transforms, Image;
    if IsBlockList(k, x) {
      BlockListItemsAreImage(x.items);
    } else {
      ImageIsResult(x, "");
    }
  }

  function BlockListFieldResults(m: map<string, Json>): (r: map<string, Json>)
    ensures r.Keys == FieldNames(m)
  {
    map n | n in FieldNames(m) :: BlockListFieldResult(Spelling(m, n), m[Spelling(m, n)])
  }

  // ----- Transactions -----

  /** Whether a wrapped transaction is read right, from its two parts. */
  lemma ExtentionFields(schema: set<string>, tx: Json, r: map<string, Json>)
    requires tx.Obj?
    requires r.Keys == {"transaction"} + (if HasTextId(tx.fields) then {"txid"} else {})
    ensures ReadProto(schema, Obj(r), "transactions") == ReadExtention(schema, tx)
       <==> && ReadRight(schema, Obj(tx.fields - {"txID"}), "transaction", r["transaction"])
            && ("txID" in tx.fields ==>
                  HasTextId(tx.fields) && ReadRight(schema, tx.fields["txID"], "txid", r["txid"]))
  {
    hide ReadTron, HasTextId;
    var read, meant := ProtoValues(schema, Obj(r)), ReadExtention(schema, tx).fields;
    TextIdIsId(tx.fields);
    assert read["transaction"] == ReadProto(schema, r["transaction"], "transaction");
    assert "txid" in r ==> read["txid"] == ReadProto(schema, r["txid"], "txid");
    MapsAgreeIff(read, meant);
  }

  lemma TextIdIsId(m: map<string, Json>)
    ensures HasTextId(m) ==> "txID" in m
  {
  }

  lemma MapsAgreeIff(x: map<string, Value>, y: map<string, Value>)
    ensures x == y <==> x.Keys == y.Keys && forall k :: k in x && k in y ==> x[k] == y[k]
  {
  }

  lemma IdPreservedIff(schema: set<string>, m: map<string, Json>, image: Json)
    requires HasTextId(m) && image == IdImage(m["txID"].s)
    ensures ReadRight(schema, m["txID"], "txid", image) <==> FaithfulText(schema, m["txID"].s, "txID", "txid")
  {
    hide FaithfulText, ReadProtoText, ReadTronText;
    TextPreservedIff(schema, m["txID"].s, "txID", "txid");
    TransactionIdIsBytes();
  }

  lemma TransactionIdIsBytes()
    ensures IsBytesField("txID")
  {
  }

  lemma FaithfulExtentionReads(schema: set<string>, tx: Json, r: Json)
    requires FaithfulExtention(schema, tx) && ExtentionImage(tx, r)
    ensures ReadProto(schema, r, "transactions") == ReadExtention(schema, tx)
  {
    hide Faithful, Transforms, ReadExtention, ReadProto, FaithfulText, IdImage;
    if tx.Obj? {
      FaithfulIsReadRight(schema, Obj(tx.fields - {"txID"}), "", "transaction", r.fields["transaction"]);
      if "txID" in tx.fields {
        IdPreservedIff(schema, tx.fields, r.fields["txid"]);
      }
      ExtentionFields(schema, tx, r.fields);
    } else {
      FaithfulIsReadRight(schema, tx, "", "transactions", r);
      NoObjectIsNoExtention(schema, tx);
    }
  }

  lemma NoObjectIsNoExtention(schema: set<string>, tx: Json)
    requires !tx.Obj?
    ensures ReadExtention(schema, tx) == ReadTron(schema, tx, "transactions")
  {
  }

  lemma MisreadExtention(schema: set<string>, tx: Json) returns (r: Json)
    requires !FaithfulExtention(schema, tx)
    ensures ExtentionImage(tx, r) && ReadProto(schema, r, "transactions") != ReadExtention(schema, tx)
  {
    if !tx.Obj? {
      hide Faithful, Transforms, ReadExtention, ReadProto, FaithfulText;
      r := MisreadResult(schema, tx, "", "transactions");
      NoObjectIsNoExtention(schema, tx);
    } else if !Faithful(schema, Obj(tx.fields - {"txID"}), "", "transaction") {
      r := MisreadBody(schema, tx);
    } else {
      r := ExtentionResult(tx);
      MisreadId(schema, tx, r);
    }
  }

  lemma MisreadBody(schema: set<string>, tx: Json) returns (r: Json)
    requires tx.Obj? && !Faithful(schema, Obj(tx.fields - {"txID"}), "", "transaction")
    ensures ExtentionImage(tx, r) && ReadProto(schema, r, "transactions") != ReadExtention(schema, tx)
  {
    hide Faithful, Transforms, Image, ReadExtention, ReadProto, FaithfulText, ReadRight;
    var image := MisreadResult(schema, Obj(tx.fields - {"txID"}), "", "transaction");
    r := Obj(ExtentionResult(tx).fields["transaction" := image]);
    ExtentionFields(schema, tx, r.fields);
  }

  lemma MisreadId(schema: set<string>, tx: Json, r: Json)
    requires tx.Obj? && r == ExtentionResult(tx)
    requires "txID" in tx.fields
    requires HasTextId(tx.fields) ==> !FaithfulText(schema, tx.fields["txID"].s, "txID", "txid")
    ensures ExtentionImage(tx, r) && ReadProto(schema, r, "transactions") != ReadExtention(schema, tx)
  {
    hide Transforms, Image, ReadExtention, ReadProto, FaithfulText, ReadRight;
    ExtentionResultIsImage(tx);
    if HasTextId(tx.fields) {
      IdPreservedIff(schema, tx.fields, r.fields["txid"]);
    }
    ExtentionFields(schema, tx, r.fields);
  }

  ghost predicate ExtentionAlwaysRight(schema: set<string>, tx: Json) {
    forall r :: ExtentionImage(tx, r) ==> ReadProto(schema, r, "transactions") == ReadExtention(schema, tx)
  }

  /** The wrapped transaction reads as the plain one with its id beside it iff the transaction is faithful. */
  lemma ExtentionPreservedIff(schema: set<string>, tx: Json)
    ensures ExtentionAlwaysRight(schema, tx) <==> FaithfulExtention(schema, tx)
  {
    hide ExtentionImage, ReadProto, ReadExtention, FaithfulExtention;
    if FaithfulExtention(schema, tx) {
      forall r | ExtentionImage(tx, r) ensures ReadProto(schema, r, "transactions") == ReadExtention(schema, tx) {
        FaithfulExtentionReads(schema, tx, r);
      }
    } else {
      var r := MisreadExtention(schema, tx);
    }
  }

  // ----- Lists -----

  lemma ItemsAreRead(schema: set<string>, images: seq<Json>, meant: seq<Value>, field: string)
    requires |images| == |meant|
    requires forall i :: 0 <= i < |images| ==> ReadProto(schema, images[i], field) == meant[i]
    ensures ReadProto(schema, Arr(images), field) == VList(meant)
  {
    assert ReadProto(schema, Arr(images), field).items == meant;
  }

  lemma ItemsAreMisread(schema: set<string>, images: seq<Json>, meant: seq<Value>, i: nat, field: string)
    requires i < |images| == |meant| && ReadProto(schema, images[i], field) != meant[i]
    ensures ReadProto(schema, Arr(images), field) != VList(meant)
  {
    assert ReadProto(schema, Arr(images), field).items[i] != meant[i];
  }

  lemma FaithfulExtentionsRead(schema: set<string>, txs: seq<Json>, r: Json)
    requires FaithfulExtentions(schema, txs) && ExtentionsImage(txs, r)
    ensures ReadProto(schema, r, "transactions") == ReadExtentions(schema, txs)
  {
    hide FaithfulExtention, ExtentionImage, ReadExtention, ReadProto;
    var meant := ReadExtentions(schema, txs).items;
    forall i | 0 <= i < |txs| ensures ReadProto(schema, r.items[i], "transactions") == meant[i] {
      FaithfulExtentionReads(schema, txs[i], r.items[i]);
    }
    ItemsAreRead(schema, r.items, meant, "transactions");
  }

  lemma MisreadExtentions(schema: set<string>, txs: seq<Json>) returns (r: Json)
    requires !FaithfulExtentions(schema, txs)
    ensures ExtentionsImage(txs, r) && ReadProto(schema, r, "transactions") != ReadExtentions(schema, txs)
  {
    hide FaithfulExtention, ExtentionImage, ReadExtention, ReadProto;
    var i :| 0 <= i < |txs| && !FaithfulExtention(schema, txs[i]);
    var image := MisreadExtention(schema, txs[i]);
    ExtentionResultsAreImage(txs);
    r := Arr(ExtentionResults(txs).items[i := image]);
    ItemsAreMisread(schema, r.items, ReadExtentions(schema, txs).items, i, "transactions");
  }

  // ----- Blocks -----

  lemma FaithfulBlockFieldReads(schema: set<string>, k: string, x: Json, image: Json)
    requires FaithfulBlockField(schema, k, x) && BlockFieldImage(k, x, image)
    ensures ReadProto(schema, image, NormalizeFieldName(k)) == ReadBlockField(schema, k, x)
  {
    hide Faithful, Transforms, ReadProto, ReadExtentions, ExtentionsImage, FaithfulExtentions;
    if IsTransactionList(k, x) {
      FaithfulExtentionsRead(schema, x.items, image);
    } else {
      FaithfulIsReadRight(schema, x, "", NormalizeFieldName(k), image);
    }
  }

  lemma MisreadBlockField(schema: set<string>, k: string, x: Json) returns (image: Json)
    requires !FaithfulBlockField(schema, k, x)
    ensures BlockFieldImage(k, x, image)
    ensures ReadProto(schema, image, NormalizeFieldName(k)) != ReadBlockField(schema, k, x)
  {
    hide Faithful, Transforms, ReadProto, ReadExtentions, ExtentionsImage, FaithfulExtentions;
    if IsTransactionList(k, x) {
      image := MisreadExtentions(schema, x.items);
    } else {
      image := MisreadResult(schema, x, "", NormalizeFieldName(k));
    }
  }

  lemma BlockKeyOf(m: map<string, Json>, n: string, image: Json) returns (k: string)
    requires BlockNameImage(m, n, image)
    ensures k in m && NormalizeFieldName(k) == n && BlockFieldImage(k, m[k], image)
  {
    k :| k in m && NormalizeFieldName(k) == n && BlockFieldImage(k, m[k], image);
  }

  lemma BlockNameHasImage(m: map<string, Json>, n: string)
    requires n in FieldNames(m)
    ensures BlockNameImage(m, n, BlockFieldResult(Spelling(m, n), m[Spelling(m, n)]))
  {
    hide BlockFieldImage;
    BlockFieldResultIsImage(Spelling(m, n), m[Spelling(m, n)]);
  }

  /** A result in which the field of key `k` has the given image. */
  lemma BlockWith(m: map<string, Json>, k: string, image: Json) returns (r: map<string, Json>)
    requires k in m && BlockFieldImage(k, m[k], image)
    ensures BlockFieldsImage(m, r) && NormalizeFieldName(k) in r && r[NormalizeFieldName(k)] == image
  {
    NormalizedIsName(m, k);
    assert BlockNameImage(m, NormalizeFieldName(k), image);
    hide BlockNameImage;
    r := BlockFieldResults(m)[NormalizeFieldName(k) := image];
    forall n | n in BlockFieldResults(m) ensures BlockNameImage(m, n, BlockFieldResults(m)[n]) {
      BlockNameHasImage(m, n);
    }
    assert r.Keys == FieldNames(m);
  }

  lemma BlockResultsAreImage(m: map<string, Json>)
    ensures BlockFieldsImage(m, BlockFieldResults(m))
  {
    hide BlockNameImage;
    forall n | n in BlockFieldResults(m) ensures BlockNameImage(m, n, BlockFieldResults(m)[n]) {
      BlockNameHasImage(m, n);
    }
  }

  lemma BlockTypeKeyStays(m: map<string, Json>, r: map<string, Json>)
    requires BlockFieldsImage(m, r)
    ensures IsProtoAny(r) <==> IsProtoAny(m)
  {
    hide BlockNameImage;
    if "@type" in m {
      NormalizedIsName(m, "@type");
    }
    if "@type" in r {
      var k := BlockKeyOf(m, "@type", r["@type"]);
      assert k == "@type";
    }
  }

  lemma FaithfulBlockNameReads(schema: set<string>, m: map<string, Json>, n: string, image: Json)
    requires FaithfulBlockFields(schema, m) && BlockNameImage(m, n, image)
    ensures NameReads(schema, m, BlockValues(schema, m), n, image)
  {
    hide BlockFieldImage, FaithfulBlockField;
    var k := BlockKeyOf(m, n, image);
    FaithfulBlockFieldReads(schema, k, m[k], image);
  }

  lemma FaithfulBlockFieldsRead(schema: set<string>, m: map<string, Json>, r: map<string, Json>)
    requires BlockFieldsImage(m, r) && !IsProtoAny(m) && SpellingsSayTheSame(m, BlockValues(schema, m))
    requires FaithfulBlockFields(schema, m)
    ensures ReadProto(schema, Obj(r), "block") == MessageOf(m, BlockValues(schema, m))
  {
    hide BlockNameImage, NameReads, SpellingsSayTheSame, FaithfulBlockFields, MessageOf, IsProtoAny;
    forall n | n in r ensures NameReads(schema, m, BlockValues(schema, m), n, r[n]) {
      FaithfulBlockNameReads(schema, m, n, r[n]);
    }
    BlockTypeKeyStays(m, r);
    MessageIsRead(schema, m, BlockValues(schema, m), r, "block");
  }

  lemma MisreadBlockFields(schema: set<string>, m: map<string, Json>) returns (r: map<string, Json>)
    requires !(!IsProtoAny(m) && SpellingsSayTheSame(m, BlockValues(schema, m)) && FaithfulBlockFields(schema, m))
    ensures BlockFieldsImage(m, r)
    ensures ReadProto(schema, Obj(r), "block") != MessageOf(m, BlockValues(schema, m))
  {
    hide BlockFieldsImage, SpellingsSayTheSame, MessageOf, IsProtoAny, FaithfulBlockField, BlockFieldImage;
    if IsProtoAny(m) || !SpellingsSayTheSame(m, BlockValues(schema, m)) {
      r := BlockFieldResults(m);
      BlockResultsAreImage(m);
      BlockTypeKeyStays(m, r);
      NoMessage(schema, m, BlockValues(schema, m), r, "block");
    } else {
      var k :| k in m && !FaithfulBlockField(schema, k, m[k]);
      var image := MisreadBlockField(schema, k, m[k]);
      r := BlockWith(m, k, image);
      BlockNames(m, r);
      MessageIsMisread(schema, m, BlockValues(schema, m), r, k, "block");
    }
  }

  lemma BlockNames(m: map<string, Json>, r: map<string, Json>)
    requires BlockFieldsImage(m, r)
    ensures r.Keys == FieldNames(m)
  {
  }

  lemma FaithfulBlockReads(schema: set<string>, block: Json, r: Json)
    requires FaithfulBlock(schema, block) && BlockImage(block, r)
    ensures ReadProto(schema, r, "block") == ReadBlock(schema, block)
  {
    hide Faithful, Transforms, ReadProto, BlockFieldsImage, SpellingsSayTheSame, FaithfulBlockFields, MessageOf;
    if block.Obj? {
      FaithfulBlockFieldsRead(schema, block.fields, r.fields);
    } else {
      FaithfulIsReadRight(schema, block, "", "block", r);
    }
  }

  lemma MisreadBlock(schema: set<string>, block: Json) returns (r: Json)
    requires !FaithfulBlock(schema, block)
    ensures BlockImage(block, r) && ReadProto(schema, r, "block") != ReadBlock(schema, block)
  {
    hide Faithful, Transforms, ReadProto, BlockFieldsImage, SpellingsSayTheSame, FaithfulBlockFields, MessageOf;
    if block.Obj? {
      var fields := MisreadBlockFields(schema, block.fields);
      r := Obj(fields);
    } else {
      r := MisreadResult(schema, block, "", "block");
    }
  }

  ghost predicate BlockAlwaysRight(schema: set<string>, block: Json) {
    forall r :: BlockImage(block, r) ==> ReadProto(schema, r, "block") == ReadBlock(schema, block)
  }

  /** A block is read as it was meant, with its transactions wrapped, exactly when it is faithful. */
  lemma BlockPreservedIff(schema: set<string>, block: Json)
    ensures BlockAlwaysRight(schema, block) <==> FaithfulBlock(schema, block)
  {
    hide BlockImage, ReadProto, ReadBlock, FaithfulBlock;
    if FaithfulBlock(schema, block) {
      forall r | BlockImage(block, r) ensures ReadProto(schema, r, "block") == ReadBlock(schema, block) {
        FaithfulBlockReads(schema, block, r);
      }
    } else {
      var r := MisreadBlock(schema, block);
    }
  }

  // ----- Lists of blocks -----

  lemma FaithfulBlocksRead(schema: set<string>, blocks: seq<Json>, r: Json)
    requires FaithfulBlocks(schema, blocks) && BlocksImage(blocks, r)
    ensures ReadProto(schema, r, "block") == ReadBlocks(schema, blocks)
  {
    hide FaithfulBlock, BlockImage, ReadBlock, ReadProto;
    var meant := ReadBlocks(schema, blocks).items;
    forall i | 0 <= i < |blocks| ensures ReadProto(schema, r.items[i], "block") == meant[i] {
      FaithfulBlockReads(schema, blocks[i], r.items[i]);
    }
    ItemsAreRead(schema, r.items, meant, "block");
  }

  lemma MisreadBlocks(schema: set<string>, blocks: seq<Json>) returns (r: Json)
    requires !FaithfulBlocks(schema, blocks)
    ensures BlocksImage(blocks, r) && ReadProto(schema, r, "block") != ReadBlocks(schema, blocks)
  {
    hide FaithfulBlock, BlockImage, ReadBlock, ReadProto;
    var i :| 0 <= i < |blocks| && !FaithfulBlock(schema, blocks[i]);
    var image := MisreadBlock(schema, blocks[i]);
    BlockListItemsAreImage(blocks);
    r := Arr(BlockResults(blocks).items[i := image]);
    ItemsAreMisread(schema, r.items, ReadBlocks(schema, blocks).items, i, "block");
  }

  lemma FaithfulBlockListFieldReads(schema: set<string>, k: string, x: Json, image: Json)
    requires FaithfulBlockListField(schema, k, x) && BlockListFieldImage(k, x, image)
    ensures ReadProto(schema, image, NormalizeFieldName(k)) == ReadBlockListField(schema, k, x)
  {
    hide Faithful, Transforms, ReadProto, ReadBlocks, BlocksImage, FaithfulBlocks;
    if IsBlockList(k, x) {
      FaithfulBlocksRead(schema, x.items, image);
    } else {
      FaithfulIsReadRight(schema, x, "", NormalizeFieldName(k), image);
    }
  }

  lemma MisreadBlockListField(schema: set<string>, k: string, x: Json) returns (image: Json)
    requires !FaithfulBlockListField(schema, k, x)
    ensures BlockListFieldImage(k, x, image)
    ensures ReadProto(schema, image, NormalizeFieldName(k)) != ReadBlockListField(schema, k, x)
  {
    hide Faithful, Transforms, ReadProto, ReadBlocks, BlocksImage, FaithfulBlocks;
    if IsBlockList(k, x) {
      image := MisreadBlocks(schema, x.items);
    } else {
      image := MisreadResult(schema, x, "", NormalizeFieldName(k));
    }
  }

  lemma BlockListKeyOf(m: map<string, Json>, n: string, image: Json) returns (k: string)
    requires BlockListNameImage(m, n, image)
    ensures k in m && NormalizeFieldName(k) == n && BlockListFieldImage(k, m[k], image)
  {
    k :| k in m && NormalizeFieldName(k) == n && BlockListFieldImage(k, m[k], image);
  }

  lemma BlockListNameHasImage(m: map<string, Json>, n: string)
    requires n in FieldNames(m)
    ensures BlockListNameImage(m, n, BlockListFieldResult(Spelling(m, n), m[Spelling(m, n)]))
  {
    hide BlockListFieldImage;
    BlockListFieldResultIsImage(Spelling(m, n), m[Spelling(m, n)]);
  }

  /** A result in which the field of key `k` has the given image. */
  lemma BlockListWith(m: map<string, Json>, k: string, image: Json) returns (r: map<string, Json>)
    requires k in m && BlockListFieldImage(k, m[k], image)
    ensures BlockListFieldsImage(m, r) && NormalizeFieldName(k) in r && r[NormalizeFieldName(k)] == image
  {
    NormalizedIsName(m, k);
    assert BlockListNameImage(m, NormalizeFieldName(k), image);
    hide BlockListNameImage;
    r := BlockListFieldResults(m)[NormalizeFieldName(k) := image];
    forall n | n in BlockListFieldResults(m) ensures BlockListNameImage(m, n, BlockListFieldResults(m)[n]) {
      BlockListNameHasImage(m, n);
    }
    assert r.Keys == FieldNames(m);
  }

  lemma BlockListResultsAreImage(m: map<string, Json>)
    ensures BlockListFieldsImage(m, BlockListFieldResults(m))
  {
    hide BlockListNameImage;
    forall n | n in BlockListFieldResults(m) ensures BlockListNameImage(m, n, BlockListFieldResults(m)[n]) {
      BlockListNameHasImage(m, n);
    }
  }

  lemma BlockListTypeKeyStays(m: map<string, Json>, r: map<string, Json>)
    requires BlockListFieldsImage(m, r)
    ensures IsProtoAny(r) <==> IsProtoAny(m)
  {
    hide BlockListNameImage;
    if "@type" in m {
      NormalizedIsName(m, "@type");
    }
    if "@type" in r {
      var k := BlockListKeyOf(m, "@type", r["@type"]);
      assert k == "@type";
    }
  }

  lemma FaithfulBlockListNameReads(schema: set<string>, m: map<string, Json>, n: string, image: Json)
    requires FaithfulBlockListFields(schema, m) && BlockListNameImage(m, n, image)
    ensures NameReads(schema, m, BlockListValues(schema, m), n, image)
  {
    hide BlockListFieldImage, FaithfulBlockListField;
    var k := BlockListKeyOf(m, n, image);
    FaithfulBlockListFieldReads(schema, k, m[k], image);
  }

  lemma FaithfulBlockListFieldsRead(schema: set<string>, m: map<string, Json>, r: map<string, Json>)
    requires BlockListFieldsImage(m, r) && !IsProtoAny(m) && SpellingsSayTheSame(m, BlockListValues(schema, m))
    requires FaithfulBlockListFields(schema, m)
    ensures ReadProto(schema, Obj(r), "") == MessageOf(m, BlockListValues(schema, m))
  {
    hide BlockListNameImage, NameReads, SpellingsSayTheSame, FaithfulBlockListFields, MessageOf, IsProtoAny;
    forall n | n in r ensures NameReads(schema, m, BlockListValues(schema, m), n, r[n]) {
      FaithfulBlockListNameReads(schema, m, n, r[n]);
    }
    BlockListTypeKeyStays(m, r);
    MessageIsRead(schema, m, BlockListValues(schema, m), r, "");
  }

  lemma MisreadBlockListFields(schema: set<string>, m: map<string, Json>) returns (r: map<string, Json>)
    requires !(!IsProtoAny(m) && SpellingsSayTheSame(m, BlockListValues(schema, m)) && FaithfulBlockListFields(schema, m))
    ensures BlockListFieldsImage(m, r)
    ensures ReadProto(schema, Obj(r), "") != MessageOf(m, BlockListValues(schema, m))
  {
    hide BlockListFieldsImage, SpellingsSayTheSame, MessageOf, IsProtoAny, FaithfulBlockListField, BlockListFieldImage;
    if IsProtoAny(m) || !SpellingsSayTheSame(m, BlockListValues(schema, m)) {
      r := BlockListFieldResults(m);
      BlockListResultsAreImage(m);
      BlockListTypeKeyStays(m, r);
      NoMessage(schema, m, BlockListValues(schema, m), r, "");
    } else {
      var k :| k in m && !FaithfulBlockListField(schema, k, m[k]);
      var image := MisreadBlockListField(schema, k, m[k]);
      r := BlockListWith(m, k, image);
      BlockListNames(m, r);
      MessageIsMisread(schema, m, BlockListValues(schema, m), r, k, "");
    }
  }

  lemma BlockListNames(m: map<string, Json>, r: map<string, Json>)
    requires BlockListFieldsImage(m, r)
    ensures r.Keys == FieldNames(m)
  {
  }

  /** An object with the one field block. */
  lemma OneField(schema: set<string>, image: Json, meant: Value)
    ensures ReadProto(schema, Obj(map["block" := image]), "") == VMessage(map["block" := meant])
       <==> ReadProto(schema, image, "block") == meant
  {
    var read := ProtoValues(schema, Obj(map["block" := image]));
    assert read["block"] == ReadProto(schema, image, "block");
    MapsAgreeIff(read, map["block" := meant]);
  }

  lemma OneFieldImage(blocks: seq<Json>, r: Json)
    requires BlockListImage(Arr(blocks), r)
    ensures r.Obj? && r.fields == map["block" := r.fields["block"]] && BlocksImage(blocks, r.fields["block"])
  {
  }

  lemma FaithfulBlockListReads(schema: set<string>, j: Json, r: Json)
    requires FaithfulBlockList(schema, j) && BlockListImage(j, r)
    ensures ReadProto(schema, r, "") == ReadBlockList(schema, j)
  {
    hide Faithful, Transforms, ReadProto, BlockListFieldsImage, SpellingsSayTheSame, FaithfulBlockListFields, MessageOf,
         BlocksImage, FaithfulBlocks, ReadBlocks;
    if j.Arr? {
      OneFieldImage(j.items, r);
      FaithfulBlocksRead(schema, j.items, r.fields["block"]);
      OneField(schema, r.fields["block"], ReadBlocks(schema, j.items));
    } else if HoldsBlockList(j) {
      FaithfulBlockListFieldsRead(schema, j.fields, r.fields);
    } else {
      FaithfulIsReadRight(schema, j, "", "", r);
    }
  }

  lemma MisreadBlockList(schema: set<string>, j: Json) returns (r: Json)
    requires !FaithfulBlockList(schema, j)
    ensures BlockListImage(j, r) && ReadProto(schema, r, "") != ReadBlockList(schema, j)
  {
    hide Faithful, Transforms, ReadProto, BlockListFieldsImage, SpellingsSayTheSame, FaithfulBlockListFields, MessageOf,
         BlocksImage, FaithfulBlocks, ReadBlocks;
    if j.Arr? {
      var image := MisreadBlocks(schema, j.items);
      r := Obj(map["block" := image]);
      OneField(schema, image, ReadBlocks(schema, j.items));
    } else if HoldsBlockList(j) {
      var fields := MisreadBlockListFields(schema, j.fields);
      r := Obj(fields);
    } else {
      r := MisreadResult(schema, j, "", "");
    }
  }

  ghost predicate BlockListAlwaysRight(schema: set<string>, j: Json) {
    forall r :: BlockListImage(j, r) ==> ReadProto(schema, r, "") == ReadBlockList(schema, j)
  }

  /** The whole list is read as it was meant exactly when every block, and every other field, is faithful. */
  lemma BlockListPreservedIff(schema: set<string>, j: Json)
    ensures BlockListAlwaysRight(schema, j) <==> FaithfulBlockList(schema, j)
  {
    hide BlockListImage, ReadProto, ReadBlockList, FaithfulBlockList;
    if FaithfulBlockList(schema, j) {
      forall r | BlockListImage(j, r) ensures ReadProto(schema, r, "") == ReadBlockList(schema, j) {
        FaithfulBlockListReads(schema, j, r);
      }
    } else {
      var r := MisreadBlockList(schema, j);
    }
  }

  // ----- The id of a block is misread -----

  /** Hex text whose length is a multiple of four is also Base64 text. */
  lemma {:induction false} HexIsBase64Text(s: string)
    requires IsHex(s) && |s| % 4 == 0
    ensures Base64.Decode(false, true, s).Some?
  {
    if s != "" {
      assert HexValue(s[0]).Some? && HexValue(s[1]).Some? && HexValue(s[2]).Some? && HexValue(s[3]).Some?;
      HexDigitIsPlain(s[0]);
      HexDigitIsPlain(s[1]);
      HexDigitIsPlain(s[2]);
      HexDigitIsPlain(s[3]);
      assert IsHex(s[4..]);
      HexIsBase64Text(s[4..]);
    }
  }

  /** 64 hex digits are 32 bytes; read as Base64 they are 48 others. */
  lemma IdReadTwice(schema: set<string>, id: string)
    requires "blockid" in schema && IsHex(id) && |id| == 64
    ensures ReadTron(schema, Str(id), "blockid").VBytes? && |ReadTron(schema, Str(id), "blockid").data| == 32
    ensures ReadProto(schema, Str(id), "blockid").VBytes? && |ReadProto(schema, Str(id), "blockid").data| == 48
  {
    hide IsHex, Base64.Decode;
    HexIsPlain(id);
    Base64.PlainIsStandard(id);
    HexIsBase64Text(id);
    HexDecodedLength(id, true);
  }

  /** Text directly in a block is passed on as it is. */
  lemma TextIsCopied(k: string, s: string, image: Json)
    requires BlockFieldImage(k, Str(s), image)
    ensures image == Str(s)
  {
    NoNameIsNoBytesField();
  }

  /** Only nonempty hex text stands for nonempty bytes. */
  lemma BytesAreHexText(schema: set<string>, x: Json, field: string)
    requires ReadTron(schema, x, field).VBytes? && ReadTron(schema, x, field).data != []
    ensures x.Str? && IsHexString(x.s) && field in schema
  {
  }

  lemma HexIsBytes(schema: set<string>, s: string, field: string)
    requires field in schema && IsHexString(s)
    ensures ReadTron(schema, Str(s), field).VBytes? && ReadTron(schema, Str(s), field).data != []
  {
  }

  /** Whatever key the id came from, the image of that key is not read as the bytes it says. */
  lemma IdKeyIsMisread(schema: set<string>, k: string, x: Json, image: Json)
    requires BlockFieldImage(k, x, image)
    requires ReadTron(schema, x, "blockid").VBytes? && ReadTron(schema, x, "blockid").data != []
    ensures ReadProto(schema, image, "blockid") != ReadTron(schema, x, "blockid")
  {
    hide BlockFieldImage, IsHex;
    BytesAreHexText(schema, x, "blockid");
    TextIsCopied(k, x.s, image);
    HexIsMisread(x.s);
  }

  lemma IdValue(schema: set<string>, m: map<string, Json>, k: string)
    requires k in m && NormalizeFieldName(k) == "blockid"
    ensures BlockValues(schema, m)[k] == ReadTron(schema, m[k], "blockid")
  {
    hide ReadTron;
  }

  lemma SameName(m: map<string, Json>, values: map<string, Value>, k: string, k': string)
    requires values.Keys == m.Keys && SpellingsSayTheSame(m, values)
    requires k in m && k' in m && NormalizeFieldName(k) == NormalizeFieldName(k')
    ensures values[k] == values[k']
  {
    hide NormalizeFieldName;
    assert KeySaysTheSame(m, values, k) && KeySaysTheSame(m, values, k');
  }

  /** No result for a block with an id is read as it was meant. */
  lemma BlockIdIsMisread(schema: set<string>, block: Json, id: string, r: Json)
    requires "blockid" in schema && IsHexString(id)
    requires block.Obj? && "blockID" in block.fields && block.fields["blockID"] == Str(id)
    requires BlockImage(block, r)
    ensures ReadProto(schema, r, "block") != ReadBlock(schema, block)
  {
    hide BlockNameImage, BlockFieldImage, ReadProto, ReadTron, MessageOf, SpellingsSayTheSame, IsHexString, BlockValues;
    var m, values := block.fields, BlockValues(schema, block.fields);
    if SpellingsSayTheSame(m, values) {
      NormalizedIsName(m, "blockID");
      var k := BlockKeyOf(m, "blockid", r.fields["blockid"]);
      SameName(m, values, k, "blockID");
      IdValue(schema, m, k);
      IdValue(schema, m, "blockID");
      HexIsBytes(schema, id, "blockid");
      IdKeyIsMisread(schema, k, m[k], r.fields["blockid"]);
      MessageIsMisread(schema, m, values, r.fields, "blockID", "block");
    } else {
      NoMessage(schema, m, values, r.fields, "block");
    }
  }
}
