/**
  From Tron's JSON dialect to standard protobuf JSON (pkg/client/transport_http.go): the tree
  transform, the results it may have, and when it has only one.
 */
module TronJson {
  import opened Wrappers
  import opened Hex
  import Base64

  /** A decoded tree. `Number` is what the decoder left: a float64, so integers above 2^53 are already rounded. */
  datatype Json =
    | Null
    | Bool(b: bool)
    | Number(text: string)
    | Str(s: string)
    | Arr(items: seq<Json>)
    | Obj(fields: map<string, Json>)

  const IDENTIFIER_FIELDS: set<string> := {"txid", "txID", "blockid", "blockID", "id", "parentHash", "txTrieRoot"}

  const PARTY_FIELDS: set<string> := {
    "owner_address", "ownerAddress", "to_address", "toAddress", "contract_address", "contractAddress",
    "receiver_address", "receiverAddress", "resource_receiver_address", "resourceReceiverAddress"
  }

  const ACCOUNT_FIELDS: set<string> := {
    "origin_address", "originAddress", "caller_address", "callerAddress",
    "transferTo_address", "transferToAddress", "account_address", "accountAddress",
    "witness_address", "witnessAddress", "frozen_address", "frozenAddress"
  }

  const DATA_FIELDS: set<string> := {
    "witness_signature", "witnessSignature", "signature", "data", "bytecode", "code_hash", "codeHash",
    "asset_name", "assetName", "url", "description"
  }

  const EVENT_FIELDS: set<string> := {
    "address", "topics",
    "hash", "note", "token_info", "callValueInfo", "extra", "contractResult", "resMessage", "contract_result"
  }

  /** The table bytesFields. */
  const BYTES_FIELDS: set<string> := IDENTIFIER_FIELDS + PARTY_FIELDS + ACCOUNT_FIELDS + DATA_FIELDS + EVENT_FIELDS

  predicate IsBytesField(name: string) {
    name in BYTES_FIELDS
  }

  lemma NoNameNamesNoParty()
    ensures "" !in PARTY_FIELDS && "" !in ACCOUNT_FIELDS
  {
  }

  lemma NoNameIsNoBytesField()
    ensures !IsBytesField("")
  {
    NoNameNamesNoParty();
    assert "" !in IDENTIFIER_FIELDS && "" !in DATA_FIELDS && "" !in EVENT_FIELDS;
  }

  /** Tron's spelling of two field names, and protobuf's. */
  function NormalizeFieldName(name: string): string {
    if name == "blockID" then "blockid"
    else if name == "txID" then "txid"
    else name
  }

  predicate IsHexString(s: string) {
    s != "" && |s| % 2 == 0 && IsHex(s)
  }

  function HexToBase64(s: string): string {
    var data := FromHex(s);
    if data.None? then s else Base64.Encode(data.value)
  }

  /** Tron's form of google.protobuf.Any: exactly a type_url string and a value object. */
  predicate IsTronAny(m: map<string, Json>) {
    && "type_url" in m && m["type_url"].Str?
    && "value" in m && m["value"].Obj?
    && m.Keys == {"type_url", "value"}
  }

  // ----- What the transform may return -----

  function FieldNames(m: map<string, Json>): set<string> {
    set k | k in m :: NormalizeFieldName(k)
  }

  /** `r` holds, under its normalized name, the transform of every field of the object `j`. */
  ghost predicate FieldsTransform(j: Json, r: map<string, Json>)
    requires j.Obj?
    decreases j, 1
  {
    r.Keys == FieldNames(j.fields) && forall n :: n in r ==> ImageUnder(j, n, r[n])
  }

  /** `image` is the transform of a field of `j` that is called `n` in protobuf. */
  ghost predicate ImageUnder(j: Json, n: string, image: Json)
    requires j.Obj?
    decreases j, 0
  {
    exists k :: k in j.fields && NormalizeFieldName(k) == n && Transforms(j.fields[k], k, image)
  }

  /** `r` is a result of transforming `j` found under `fieldName`. Which one, depends on the map order only if keys collide. */
  ghost predicate Transforms(j: Json, fieldName: string, r: Json)
    decreases j, 2
  {
    match j
    case Obj(m) =>
      r.Obj? && if IsTronAny(m) then AnyTransforms(m["value"], m["type_url"], r.fields) else FieldsTransform(j, r.fields)
    case Arr(items) =>
      r.Arr? && |r.items| == |items| && forall i :: 0 <= i < |items| ==> Transforms(items[i], fieldName, r.items[i])
    case Str(s) => r == Str(if IsBytesField(fieldName) && IsHexString(s) then HexToBase64(s) else s)
    case _ => r == j
  }

  /** `r` holds the type and, under unchanged names, the transform of every field of the value. */
  ghost predicate AnyTransforms(value: Json, typeURL: Json, r: map<string, Json>)
    requires value.Obj?
    decreases value, 1
  {
    && r.Keys == value.fields.Keys + {"@type"}
    && ("@type" !in value.fields ==> r["@type"] == typeURL)
    && forall k :: k in value.fields ==> Transforms(value.fields[k], k, r[k])
  }

  method TransformTronJSON(data: Json, fieldName: string) returns (r: Json)
    ensures Transforms(data, fieldName, r)
    decreases data, 1
  {
    match data {
      case Obj(m) =>
        if IsTronAny(m) {
          var result := TransformAny(m["value"], m["type_url"]);
          r := Obj(result);
        } else {
          var result := TransformFields(data);
          r := Obj(result);
        }
      case Arr(items) =>
        var result := TransformItems(data, fieldName);
        r := Arr(result);
      case Str(s) =>
        r := if IsBytesField(fieldName) && IsHexString(s) then Str(HexToBase64(s)) else data;
      case _ =>
        r := data;
    }
  }

  method TransformItems(list: Json, fieldName: string) returns (result: seq<Json>)
    requires list.Arr?
    ensures |result| == |list.items| && ItemsTransform(list.items, fieldName, result)
    decreases list, 0
  {
    hide ItemsTransform, Transforms;
    result := [];
    NoItems(list.items, fieldName);
    for i := 0 to |list.items|
      invariant |result| == i && ItemsTransform(list.items, fieldName, result)
    {
      var val := TransformTronJSON(list.items[i], fieldName);
      OneMoreItem(list.items, fieldName, result, val);
      result := result + [val];
    }
  }

  /** `r` holds the transforms of the first |r| items. */
  ghost predicate ItemsTransform(items: seq<Json>, fieldName: string, r: seq<Json>) {
    |r| <= |items| && forall i :: 0 <= i < |r| ==> Transforms(items[i], fieldName, r[i])
  }

  lemma NoItems(items: seq<Json>, fieldName: string)
    ensures ItemsTransform(items, fieldName, [])
  {
  }

  lemma OneMoreItem(items: seq<Json>, fieldName: string, r: seq<Json>, image: Json)
    requires |r| < |items| && ItemsTransform(items, fieldName, r) && Transforms(items[|r|], fieldName, image)
    ensures ItemsTransform(items, fieldName, r + [image])
  {
    hide Transforms;
  }

  /** The fields of the value merged beside the type, under the names they have. */
  method TransformAny(value: Json, typeURL: Json) returns (result: map<string, Json>)
    requires value.Obj?
    ensures AnyTransforms(value, typeURL, result)
    decreases value, 0
  {
    var valueObj := value.fields;
    result := map["@type" := typeURL];
    var rest := valueObj.Keys;
    while rest != {}
      invariant rest <= valueObj.Keys
      invariant result.Keys == (valueObj.Keys - rest) + {"@type"}
      invariant "@type" !in valueObj.Keys - rest ==> result["@type"] == typeURL
      invariant forall k :: k in valueObj.Keys - rest ==> Transforms(valueObj[k], k, result[k])
      decreases rest
    {
      ghost var w := Pick(rest);
      var k :| k in rest;
      var val := TransformTronJSON(valueObj[k], k);
      result := result[k := val];
      rest := rest - {k};
    }
  }

  method TransformFields(j: Json) returns (result: map<string, Json>)
    requires j.Obj?
    ensures FieldsTransform(j, result)
    decreases j, 0
  {
    var m := j.fields;
    result := map[];
    var rest := m.Keys;
    while rest != {}
      invariant rest <= m.Keys
      invariant result.Keys == set k | k in m.Keys - rest :: NormalizeFieldName(k)
      invariant forall n :: n in result ==>
                  exists k :: k in m.Keys - rest && NormalizeFieldName(k) == n && Transforms(m[k], k, result[n])
      decreases rest
    {
      ghost var w := Pick(rest);
      var k :| k in rest;
      var val := TransformTronJSON(m[k], k);
      result := result[NormalizeFieldName(k) := val];
      rest := rest - {k};
    }
  }

  // ----- One of the results -----

  /** The key of `m` that gives the protobuf field `n`; Tron's spelling if there are two. */
  function Spelling(m: map<string, Json>, n: string): (k: string)
    requires n in FieldNames(m)
    ensures k in m && NormalizeFieldName(k) == n
  {
    if n == "blockid" && "blockID" in m then "blockID"
    else if n == "txid" && "txID" in m then "txID"
    else n
  }

  /** The result when Tron's spelling comes last in the order of iteration. */
  function Image(j: Json, fieldName: string): Json
    decreases j, 2
  {
    match j
    case Obj(m) =>
      if IsTronAny(m) then Obj(AnyImage(m["value"], m["type_url"])) else Obj(FieldImages(j))
    case Arr(items) => Arr(seq(|items|, i requires 0 <= i < |items| => Image(items[i], fieldName)))
    case Str(s) => Str(if IsBytesField(fieldName) && IsHexString(s) then HexToBase64(s) else s)
    case _ => j
  }

  function AnyImage(value: Json, typeURL: Json): (r: map<string, Json>)
    requires value.Obj?
    ensures r.Keys == value.fields.Keys + {"@type"}
    ensures "@type" !in value.fields ==> r["@type"] == typeURL
    decreases value, 1
  {
    var images := map k | k in value.fields :: Image(value.fields[k], k);
    if "@type" in images then images else images["@type" := typeURL]
  }

  function FieldImages(j: Json): (r: map<string, Json>)
    requires j.Obj?
    ensures r.Keys == FieldNames(j.fields)
    decreases j, 1
  {
    map n | n in FieldNames(j.fields) :: FieldImage(j, n)
  }

  function FieldImage(j: Json, n: string): Json
    requires j.Obj? && n in FieldNames(j.fields)
    decreases j, 0
  {
    Image(j.fields[Spelling(j.fields, n)], Spelling(j.fields, n))
  }

  lemma {:induction false} ImageIsResult(j: Json, fieldName: string)
    ensures Transforms(j, fieldName, Image(j, fieldName))
    decreases j, 1
  {
    match j {
      case Obj(m) =>
        if IsTronAny(m) {
          AnyImageIsResult(j, fieldName);
        } else {
          FieldImagesAreResult(j);
        }
      case Arr(items) =>
        forall i | 0 <= i < |items| ensures Transforms(items[i], fieldName, Image(items[i], fieldName)) {
          ImageIsResult(items[i], fieldName);
        }
      case _ =>
    }
  }

  lemma {:induction false} AnyImageIsResult(j: Json, fieldName: string)
    requires j.Obj? && IsTronAny(j.fields)
    ensures Transforms(j, fieldName, Obj(AnyImage(j.fields["value"], j.fields["type_url"])))
    decreases j, 0
  {
    var v := j.fields["value"].fields;
    forall k | k in v ensures Transforms(v[k], k, Image(v[k], k)) {
      ImageIsResult(v[k], k);
    }
  }

  lemma {:induction false} FieldImagesAreResult(j: Json)
    requires j.Obj?
    ensures FieldsTransform(j, FieldImages(j))
    decreases j, 0
  {
    forall n | n in FieldNames(j.fields) ensures ImageUnder(j, n, FieldImage(j, n)) {
      var k := Spelling(j.fields, n);
      ImageIsResult(j.fields[k], k);
    }
  }

  // ----- When the map order cannot be seen -----

  /** Two spellings of one field. */
  predicate Clash(m: map<string, Json>) {
    ("blockID" in m && "blockid" in m) || ("txID" in m && "txid" in m)
  }

  /** Whatever spelling a field has, it leaves the same image. */
  predicate OrderFree(j: Json)
    decreases j, 1
  {
    match j
    case Obj(m) => if IsTronAny(m) then KeysOrderFree(m["value"]) else KeysOrderFree(j) && SpellingsAgree(j)
    case Arr(items) => forall i :: 0 <= i < |items| ==> OrderFree(items[i])
    case _ => true
  }

  predicate KeysOrderFree(j: Json)
    requires j.Obj?
    decreases j, 0
  {
    forall k :: k in j.fields ==> OrderFree(j.fields[k])
  }

  predicate SpellingsAgree(j: Json)
    requires j.Obj?
  {
    forall k :: k in j.fields ==> KeyAgrees(j, k)
  }

  predicate KeyAgrees(j: Json, k: string)
    requires j.Obj? && k in j.fields
  {
    NormalizedIsName(j.fields, k);
    Image(j.fields[k], k) == FieldImage(j, NormalizeFieldName(k))
  }

  lemma NormalizedIsName(m: map<string, Json>, k: string)
    requires k in m
    ensures NormalizeFieldName(k) in FieldNames(m)
  {
  }

  lemma SameSpelling(m: map<string, Json>, k: string, k': string)
    requires k in m && k' in m && !Clash(m) && NormalizeFieldName(k) == NormalizeFieldName(k')
    ensures k == k'
  {
  }

  /** An order-free tree has one result. */
  lemma {:induction false} OnlyResult(j: Json, fieldName: string, r: Json)
    requires OrderFree(j) && Transforms(j, fieldName, r)
    ensures r == Image(j, fieldName)
    decreases j, 3
  {
    match j {
      case Obj(m) =>
        if IsTronAny(m) {
          OnlyAnyResult(m["value"], m["type_url"], r.fields);
        } else {
          OnlyFieldResults(j, r.fields);
        }
      case Arr(items) =>
        forall i | 0 <= i < |items| ensures r.items[i] == Image(items[i], fieldName) {
          OnlyResult(items[i], fieldName, r.items[i]);
        }
        assert r.items == Image(j, fieldName).items;
      case _ =>
    }
  }

  lemma {:induction false} OnlyAnyResult(value: Json, typeURL: Json, r: map<string, Json>)
    requires value.Obj? && KeysOrderFree(value)
    requires AnyTransforms(value, typeURL, r)
    ensures r == AnyImage(value, typeURL)
    decreases value, 2
  {
    forall k | k in value.fields ensures r[k] == Image(value.fields[k], k) {
      OnlyResult(value.fields[k], k, r[k]);
    }
  }

  lemma {:induction false} OnlyFieldResults(j: Json, r: map<string, Json>)
    requires j.Obj? && KeysOrderFree(j) && SpellingsAgree(j) && FieldsTransform(j, r)
    ensures r == FieldImages(j)
    decreases j, 2
  {
    hide ImageUnder;
    forall n | n in r ensures r[n] == FieldImage(j, n) {
      OnlyFieldResult(j, n, r[n]);
    }
  }

  lemma {:induction false} OnlyFieldResult(j: Json, n: string, image: Json)
    requires j.Obj? && KeysOrderFree(j) && SpellingsAgree(j) && n in FieldNames(j.fields) && ImageUnder(j, n, image)
    ensures image == FieldImage(j, n)
    decreases j, 1
  {
    var k := KeyOf(j, n, image);
    assert OrderFree(j.fields[k]) && KeyAgrees(j, k);
    OnlyResult(j.fields[k], k, image);
  }

  /** The key whose value ended up under `n`. */
  lemma KeyOf(j: Json, n: string, image: Json) returns (k: string)
    requires j.Obj? && ImageUnder(j, n, image)
    ensures k in j.fields && NormalizeFieldName(k) == n && Transforms(j.fields[k], k, image)
  {
    k :| k in j.fields && NormalizeFieldName(k) == n && Transforms(j.fields[k], k, image);
  }

  /** Any other tree has another result. */
  lemma {:induction false} OtherResult(j: Json, fieldName: string) returns (r: Json)
    requires !OrderFree(j)
    ensures Transforms(j, fieldName, r) && r != Image(j, fieldName)
    decreases j, 3
  {
    match j {
      case Obj(m) =>
        if IsTronAny(m) {
          var other := OtherAnyResult(m["value"], m["type_url"]);
          r := Obj(other);
        } else {
          var other := OtherFieldResults(j);
          r := Obj(other);
        }
      case Arr(items) =>
        var i :| 0 <= i < |items| && !OrderFree(items[i]);
        var image := OtherResult(items[i], fieldName);
        r := OtherItem(items, fieldName, i, image);
    }
  }

  lemma OtherItem(items: seq<Json>, fieldName: string, i: nat, image: Json) returns (r: Json)
    requires i < |items| && Transforms(items[i], fieldName, image) && image != Image(items[i], fieldName)
    ensures Transforms(Arr(items), fieldName, r) && r != Image(Arr(items), fieldName)
  {
    ImageIsResult(Arr(items), fieldName);
    var images := Image(Arr(items), fieldName).items;
    r := Arr(images[i := image]);
    assert r.items[i] != images[i];
  }

  lemma {:induction false} OtherAnyResult(value: Json, typeURL: Json) returns (r: map<string, Json>)
    requires value.Obj? && !KeysOrderFree(value)
    ensures AnyTransforms(value, typeURL, r) && r != AnyImage(value, typeURL)
    decreases value, 2
  {
    var k :| k in value.fields && !OrderFree(value.fields[k]);
    var image := OtherResult(value.fields[k], k);
    r := OtherKey(value, typeURL, k, image);
  }

  lemma OtherKey(value: Json, typeURL: Json, k: string, image: Json) returns (r: map<string, Json>)
    requires value.Obj? && k in value.fields && Transforms(value.fields[k], k, image)
    requires image != Image(value.fields[k], k)
    ensures AnyTransforms(value, typeURL, r) && r != AnyImage(value, typeURL)
  {
    forall k' | k' in value.fields ensures Transforms(value.fields[k'], k', Image(value.fields[k'], k')) {
      ImageIsResult(value.fields[k'], k');
    }
    r := AnyImage(value, typeURL)[k := image];
    assert r[k] != AnyImage(value, typeURL)[k];
  }

  lemma {:induction false} OtherFieldResults(j: Json) returns (r: map<string, Json>)
    requires j.Obj? && !(KeysOrderFree(j) && SpellingsAgree(j))
    ensures FieldsTransform(j, r) && r != FieldImages(j)
    decreases j, 2
  {
    if SpellingsAgree(j) {
      var k :| k in j.fields && !OrderFree(j.fields[k]);
      assert KeyAgrees(j, k);
      var image := OtherResult(j.fields[k], k);
      r := WithField(j, k, image);
    } else {
      var k :| k in j.fields && !KeyAgrees(j, k);
      ImageIsResult(j.fields[k], k);
      r := WithField(j, k, Image(j.fields[k], k));
    }
  }

  /** The result in which the field of key `k` has the given image. */
  lemma WithField(j: Json, k: string, image: Json) returns (r: map<string, Json>)
    requires j.Obj? && k in j.fields && Transforms(j.fields[k], k, image)
    ensures FieldsTransform(j, r)
    ensures NormalizeFieldName(k) in r && r[NormalizeFieldName(k)] == image
    ensures NormalizeFieldName(k) in FieldNames(j.fields)
    ensures image != FieldImage(j, NormalizeFieldName(k)) ==> r != FieldImages(j)
  {
    var n := NormalizeFieldName(k);
    NormalizedIsName(j.fields, k);
    FieldImagesAreResult(j);
    assert ImageUnder(j, n, image);
    hide ImageUnder;
    r := FieldImages(j)[n := image];
    assert r.Keys == FieldNames(j.fields);
  }

  /** All orders of iteration write the same tree. */
  ghost predicate OneResult(j: Json, fieldName: string) {
    forall r, r' :: Transforms(j, fieldName, r) && Transforms(j, fieldName, r') ==> r == r'
  }

  lemma TwoResults(j: Json, fieldName: string, r: Json, r': Json)
    requires Transforms(j, fieldName, r) && Transforms(j, fieldName, r') && r != r'
    ensures !OneResult(j, fieldName)
  {
  }

  lemma OneImage(j: Json, fieldName: string)
    requires forall r :: Transforms(j, fieldName, r) ==> r == Image(j, fieldName)
    ensures OneResult(j, fieldName)
  {
  }

  /** The order of iteration is invisible exactly when the tree is order-free. */
  lemma OrderIsInvisibleIff(j: Json, fieldName: string)
    ensures OneResult(j, fieldName) <==> OrderFree(j)
  {
    hide OneResult, OrderFree, Transforms, Image;
    if OrderFree(j) {
      forall r | Transforms(j, fieldName, r) ensures r == Image(j, fieldName) {
        OnlyResult(j, fieldName, r);
      }
      OneImage(j, fieldName);
    } else {
      var other := OtherResult(j, fieldName);
      ImageIsResult(j, fieldName);
      TwoResults(j, fieldName, other, Image(j, fieldName));
    }
  }

  /** A tree in which no object has two spellings of a field is order-free. */
  predicate HasNoClash(j: Json) {
    match j
    case Obj(m) =>
      if IsTronAny(m) then forall k :: k in m["value"].fields ==> HasNoClash(m["value"].fields[k])
      else !Clash(m) && forall k :: k in m ==> HasNoClash(m[k])
    case Arr(items) => forall i :: 0 <= i < |items| ==> HasNoClash(items[i])
    case _ => true
  }

  lemma {:induction false} NoClashIsOrderFree(j: Json)
    requires HasNoClash(j)
    ensures OrderFree(j)
  {
    match j {
      case Obj(m) =>
        if IsTronAny(m) {
          forall k | k in m["value"].fields ensures OrderFree(m["value"].fields[k]) {
            NoClashIsOrderFree(m["value"].fields[k]);
          }
        } else {
          forall k | k in m ensures OrderFree(m[k]) && KeyAgrees(j, k) {
            NoClashIsOrderFree(m[k]);
            NormalizedIsName(m, k);
            SameSpelling(m, k, Spelling(m, NormalizeFieldName(k)));
          }
        }
      case Arr(items) =>
        forall i | 0 <= i < |items| ensures OrderFree(items[i]) {
          NoClashIsOrderFree(items[i]);
        }
      case _ =>
    }
  }

  /** Two spellings of the transaction id: the order is invisible exactly when they say the same. */
  lemma ClashIsVisibleIff(j: Json, x: string, y: string)
    requires j.Obj? && j.fields.Keys == {"txID", "txid"}
    requires j.fields["txID"] == Number(x) && j.fields["txid"] == Number(y)
    ensures OrderFree(j) <==> x == y
  {
    assert !IsTronAny(j.fields);
    ChosenId(j);
    assert KeysOrderFree(j);
    assert KeyAgrees(j, "txID") && (KeyAgrees(j, "txid") <==> x == y);
  }

  lemma ChosenId(j: Json)
    requires j.Obj? && "txID" in j.fields && "txid" in j.fields
    ensures "txid" in FieldNames(j.fields) && Spelling(j.fields, "txid") == "txID"
    ensures FieldImage(j, "txid") == Image(j.fields["txID"], "txID")
  {
    NormalizedIsName(j.fields, "txID");
  }
}
