/**
  What a JSON tree says, in Tron's dialect and in standard protobuf JSON, and exactly when
  the transform of pkg/client/transport_http.go keeps it.

  `schema` is the set of the protobuf fields of type bytes. The code has a table of names
  instead (TronJson.BYTES_FIELDS), which need not agree with it.
 */
module TronJsonMeaning {
  import opened Wrappers
  import opened Numerals
  import opened Hex
  import opened TronJson
  import Base64

  datatype Value =
    | VNull
    | VBool(b: bool)
    | VNumber(text: string)
    | VText(s: string)
    | VBytes(data: seq<Byte>)
    | VMalformed(s: string)               // text that is no bytes value
    | VList(items: seq<Value>)
    | VMessage(fields: map<string, Value>)
    | VAny(url: string, fields: map<string, Value>)
    | VAmbiguous                          // one field given twice, with different values

  // ----- Standard protobuf JSON: bytes in Base64, Any as an object with @type -----

  function ReadProtoText(schema: set<string>, s: string, field: string): Value {
    if field !in schema then VText(s)
    else if Base64.FromProtoJson(s).None? then VMalformed(s)
    else VBytes(Base64.FromProtoJson(s).value)
  }

  predicate IsProtoAny(m: map<string, Json>) {
    "@type" in m && m["@type"].Str?
  }

  function ReadProto(schema: set<string>, j: Json, field: string): Value
    decreases j, 1
  {
    match j
    case Null => VNull
    case Bool(b) => VBool(b)
    case Number(t) => VNumber(t)
    case Str(s) => ReadProtoText(schema, s, field)
    case Arr(items) => VList(seq(|items|, i requires 0 <= i < |items| => ReadProto(schema, items[i], field)))
    case Obj(m) =>
      if IsProtoAny(m) then VAny(m["@type"].s, ProtoValues(schema, j) - {"@type"})
      else VMessage(ProtoValues(schema, j))
  }

  function ProtoValues(schema: set<string>, j: Json): (values: map<string, Value>)
    requires j.Obj?
    ensures values.Keys == j.fields.Keys
    decreases j, 0
  {
    map k | k in j.fields :: ReadProto(schema, j.fields[k], k)
  }

  // ----- Tron's dialect: bytes in hex, Any with type_url and value, blockID and txID -----

  function ReadTronText(schema: set<string>, s: string, field: string): Value {
    if field !in schema then VText(s)
    else if FromHex(s).None? then VMalformed(s)
    else VBytes(FromHex(s).value)
  }

  /** The fields of a message, from the values under its keys. */
  function MessageFields(m: map<string, Json>, values: map<string, Value>): map<string, Value>
    requires values.Keys == m.Keys
  {
    map n | n in FieldNames(m) :: values[Spelling(m, n)]
  }

  /** Two spellings of one field have the same value. */
  predicate SpellingsSayTheSame(m: map<string, Json>, values: map<string, Value>)
    requires values.Keys == m.Keys
  {
    forall k :: k in m ==> KeySaysTheSame(m, values, k)
  }

  predicate KeySaysTheSame(m: map<string, Json>, values: map<string, Value>, k: string)
    requires values.Keys == m.Keys && k in m
  {
    NormalizedIsName(m, k);
    values[k] == values[Spelling(m, NormalizeFieldName(k))]
  }

  function MessageOf(m: map<string, Json>, values: map<string, Value>): Value
    requires values.Keys == m.Keys
  {
    if SpellingsSayTheSame(m, values) then VMessage(MessageFields(m, values)) else VAmbiguous
  }

  function AnyOf(url: string, m: map<string, Json>, values: map<string, Value>): Value
    requires values.Keys == m.Keys
  {
    if SpellingsSayTheSame(m, values) then VAny(url, MessageFields(m, values)) else VAmbiguous
  }

  function ReadTron(schema: set<string>, j: Json, field: string): Value
    decreases j, 1
  {
    match j
    case Null => VNull
    case Bool(b) => VBool(b)
    case Number(t) => VNumber(t)
    case Str(s) => ReadTronText(schema, s, field)
    case Arr(items) => VList(seq(|items|, i requires 0 <= i < |items| => ReadTron(schema, items[i], field)))
    case Obj(m) =>
      if IsTronAny(m) then AnyOf(m["type_url"].s, m["value"].fields, TronValues(schema, m["value"]))
      else MessageOf(m, TronValues(schema, j))
  }

  /** What stands under each key of an object. */
  function TronValues(schema: set<string>, j: Json): (values: map<string, Value>)
    requires j.Obj?
    ensures values.Keys == j.fields.Keys
    decreases j, 0
  {
    map k | k in j.fields :: ReadTron(schema, j.fields[k], NormalizeFieldName(k))
  }

  // ----- When the meaning is kept -----

  /** `tag` is the name the code looks up in its table, `field` the protobuf field the text ends up in. */
  predicate FaithfulText(schema: set<string>, s: string, tag: string, field: string) {
    if field !in schema then IsBytesField(tag) ==> !IsHexString(s)
    else
      || s == ""
      || (IsBytesField(tag) && IsHexString(s))
      || (!IsHexString(s) && Base64.FromProtoJson(s).None?)
  }

  /**
    Text is kept; no object pretends to be an Any or gives a field twice with different values; and inside
    an Any no field is called @type or has a Tron spelling, which the code leaves alone there.
   */
  predicate Faithful(schema: set<string>, j: Json, tag: string, field: string)
    decreases j, 1
  {
    match j
    case Str(s) => FaithfulText(schema, s, tag, field)
    case Arr(items) => forall i :: 0 <= i < |items| ==> Faithful(schema, items[i], tag, field)
    case Obj(m) =>
      if IsTronAny(m) then
        var v := m["value"].fields;
        "@type" !in v && PlainNames(v) && FaithfulFields(schema, m["value"])
      else
        !IsProtoAny(m) && SpellingsSayTheSame(m, TronValues(schema, j)) && FaithfulFields(schema, j)
    case _ => true
  }

  predicate FaithfulFields(schema: set<string>, j: Json)
    requires j.Obj?
    decreases j, 0
  {
    forall k :: k in j.fields ==> Faithful(schema, j.fields[k], k, NormalizeFieldName(k))
  }

  predicate PlainNames(v: map<string, Json>) {
    forall k :: k in v ==> NormalizeFieldName(k) == k
  }

  // ----- Texts -----

  /** Base64 of a nonempty hex text is another text. */
  lemma ConversionChangesText(s: string)
    requires IsHexString(s)
    ensures HexToBase64(s) != s
  {
    var b := FromHex(s).value;
    Base64.EncodedLength(b);
    if |b| % 3 != 0 {
      Base64.EncodedEnd(b);
      assert HexValue(s[|s| - 1]).Some?;
    }
  }

  lemma HexDigitIsPlain(c: char)
    requires HexValue(c).Some?
    ensures Base64.IsPlain(c) && c != '=' && Base64.Sextet(false, c).Some?
  {
  }

  lemma HexIsPlain(s: string)
    requires IsHex(s)
    ensures Base64.AllPlain(s)
  {
    forall i | 0 <= i < |s| ensures Base64.IsPlain(s[i]) {
      HexDigitIsPlain(s[i]);
    }
  }

  /** Hex digits are Base64 letters too, but a group of four stands for three bytes instead of two. */
  lemma {:induction false} HexDecodedLength(s: string, padded: bool)
    requires IsHex(s) && |s| % 2 == 0 && Base64.Decode(false, padded, s).Some?
    ensures |Base64.Decode(false, padded, s).value| == |s| * 3 / 4
  {
    if |s| >= 4 {
      assert HexValue(s[3]).Some?;
      HexDigitIsPlain(s[3]);
      assert IsHex(s[4..]);
      HexDecodedLength(s[4..], padded);
      ThreeQuarters(|s| - 4);
    }
  }

  lemma ThreeQuarters(n: nat)
    ensures (n + 4) * 3 / 4 == n * 3 / 4 + 3
  {
  }

  lemma TwoDigitsDiffer(hi: char, lo: char)
    requires HexValue(hi).Some? && HexValue(lo).Some?
    ensures Base64.One(false, hi, lo) != Some([ByteOf(HexValue(hi).value, HexValue(lo).value)])
  {
  }

  lemma TwoDigitsReadTwice(s: string)
    requires |s| == 2 && IsHex(s)
    ensures Base64.Decode(false, false, s) != FromHex(s)
  {
    NothingFromHex();
    AppendPair("", s);
    assert "" + s == s;
    var b := ByteOf(HexValue(s[0]).value, HexValue(s[1]).value);
    assert [] + [b] == [b];
    TwoDigitsDiffer(s[0], s[1]);
  }

  /** Read as protobuf JSON, unconverted hex never gives the bytes it stands for. */
  lemma HexIsMisread(s: string)
    requires IsHexString(s)
    ensures Base64.FromProtoJson(s) != FromHex(s)
  {
    HexIsPlain(s);
    Base64.PlainIsStandard(s);
    if |s| == 2 {
      TwoDigitsReadTwice(s);
    } else if Base64.FromProtoJson(s).Some? {
      HexDecodedLength(s, |s| % 4 == 0);
      assert |s| * 3 / 4 > |s| / 2;
    }
  }

  /** What the code makes of a text. */
  function TextImage(s: string, tag: string): string {
    if IsBytesField(tag) && IsHexString(s) then HexToBase64(s) else s
  }

  lemma TextPreservedIff(schema: set<string>, s: string, tag: string, field: string)
    ensures ReadProtoText(schema, TextImage(s, tag), field) == ReadTronText(schema, s, field)
       <==> FaithfulText(schema, s, tag, field)
  {
    hide IsBytesField, IsHex, FromHex, Base64.FromProtoJson;
    if IsHexString(s) {
      HexIsMisread(s);
      ConversionChangesText(s);
      Base64.Base64RoundTrip(FromHex(s).value);
    } else if s == "" {
      NothingIsRead();
    }
  }

  lemma NothingIsRead()
    ensures Base64.FromProtoJson("") == Some([]) && FromHex("") == Some([])
  {
  }

  // ----- Objects -----

  /** The values of `r` under its names are those of `m`, whichever key each came from. */
  ghost predicate NamesRead(schema: set<string>, m: map<string, Json>, values: map<string, Value>, r: map<string, Json>)
    requires values.Keys == m.Keys
  {
    r.Keys == FieldNames(m) && forall n :: n in r ==> NameReads(schema, m, values, n, r[n])
  }

  ghost predicate NameReads(schema: set<string>, m: map<string, Json>, values: map<string, Value>, n: string, image: Json)
    requires values.Keys == m.Keys
  {
    exists k :: k in m && NormalizeFieldName(k) == n && ReadProto(schema, image, n) == values[k]
  }

  lemma NameReadsField(schema: set<string>, m: map<string, Json>, values: map<string, Value>, n: string, image: Json)
    requires values.Keys == m.Keys && SpellingsSayTheSame(m, values)
    requires n in FieldNames(m) && NameReads(schema, m, values, n, image)
    ensures ReadProto(schema, image, n) == MessageFields(m, values)[n]
  {
    hide ReadProto;
    var k :| k in m && NormalizeFieldName(k) == n && ReadProto(schema, image, n) == values[k];
    assert KeySaysTheSame(m, values, k);
  }

  /** A message whose fields are read right is read right. */
  lemma MessageIsRead(schema: set<string>, m: map<string, Json>, values: map<string, Value>, r: map<string, Json>, field: string)
    requires values.Keys == m.Keys && SpellingsSayTheSame(m, values)
    requires NamesRead(schema, m, values, r) && !IsProtoAny(r)
    ensures ReadProto(schema, Obj(r), field) == MessageOf(m, values)
  {
    hide NameReads;
    forall n | n in r ensures ReadProto(schema, r[n], n) == MessageFields(m, values)[n] {
      NameReadsField(schema, m, values, n, r[n]);
    }
    assert ProtoValues(schema, Obj(r)) == MessageFields(m, values);
  }

  /** A message with a field that is read wrong is read wrong. */
  lemma MessageIsMisread(schema: set<string>, m: map<string, Json>, values: map<string, Value>, r: map<string, Json>,
                         k: string, field: string)
    requires values.Keys == m.Keys && r.Keys == FieldNames(m) && k in m
    requires NormalizeFieldName(k) in r ==> ReadProto(schema, r[NormalizeFieldName(k)], NormalizeFieldName(k)) != values[k]
    ensures ReadProto(schema, Obj(r), field) != MessageOf(m, values)
  {
    hide NormalizeFieldName;
    NormalizedIsName(m, k);
    if SpellingsSayTheSame(m, values) {
      FieldValue(m, values, k);
      assert ReadProto(schema, Obj(r), field).VMessage? ==>
          ReadProto(schema, Obj(r), field).fields[NormalizeFieldName(k)] != values[k];
    }
  }

  lemma FieldValue(m: map<string, Json>, values: map<string, Value>, k: string)
    requires values.Keys == m.Keys && SpellingsSayTheSame(m, values) && k in m
    ensures NormalizeFieldName(k) in FieldNames(m)
    ensures MessageFields(m, values)[NormalizeFieldName(k)] == values[k]
  {
    hide NormalizeFieldName;
    NormalizedIsName(m, k);
    assert KeySaysTheSame(m, values, k);
  }

  /** What pretends to be an Any, or is ambiguous, is never read as the message. */
  lemma NoMessage(schema: set<string>, m: map<string, Json>, values: map<string, Value>, r: map<string, Json>, field: string)
    requires values.Keys == m.Keys
    requires IsProtoAny(r) || !SpellingsSayTheSame(m, values)
    ensures ReadProto(schema, Obj(r), field) != MessageOf(m, values)
  {
  }

  // ----- Faithful trees are read right -----

  ghost predicate ReadRight(schema: set<string>, j: Json, field: string, r: Json) {
    ReadProto(schema, r, field) == ReadTron(schema, j, field)
  }

  lemma {:induction false} FaithfulIsReadRight(schema: set<string>, j: Json, tag: string, field: string, r: Json)
    requires Faithful(schema, j, tag, field) && Transforms(j, tag, r)
    ensures ReadRight(schema, j, field, r)
    decreases j, 3
  {
    match j {
      case Str(s) =>
        TextPreservedIff(schema, s, tag, field);
      case Arr(items) =>
        forall i | 0 <= i < |items| ensures ReadRight(schema, items[i], field, r.items[i]) {
          FaithfulIsReadRight(schema, items[i], tag, field, r.items[i]);
        }
        ListIsRead(schema, items, r.items, field);
      case Obj(m) =>
        if IsTronAny(m) {
          FaithfulAnyIsReadRight(schema, j, field, r.fields);
        } else {
          FaithfulMessageIsReadRight(schema, j, field, r.fields);
        }
      case _ =>
    }
  }

  lemma ListIsRead(schema: set<string>, items: seq<Json>, images: seq<Json>, field: string)
    requires |items| == |images|
    requires forall i :: 0 <= i < |items| ==> ReadRight(schema, items[i], field, images[i])
    ensures ReadRight(schema, Arr(items), field, Arr(images))
  {
    var x, y := ReadProto(schema, Arr(images), field).items, ReadTron(schema, Arr(items), field).items;
    forall i | 0 <= i < |items| ensures x[i] == y[i] {
      assert ReadRight(schema, items[i], field, images[i]);
    }
    assert x == y;
  }

  lemma {:induction false} FaithfulFieldIsReadRight(schema: set<string>, j: Json, k: string, image: Json)
    requires j.Obj? && FaithfulFields(schema, j) && k in j.fields && Transforms(j.fields[k], k, image)
    ensures ReadProto(schema, image, NormalizeFieldName(k)) == TronValues(schema, j)[k]
    decreases j, 0
  {
    assert Faithful(schema, j.fields[k], k, NormalizeFieldName(k));
    FaithfulIsReadRight(schema, j.fields[k], k, NormalizeFieldName(k), image);
  }

  lemma {:induction false} FaithfulAnyIsReadRight(schema: set<string>, j: Json, field: string, r: map<string, Json>)
    requires j.Obj? && IsTronAny(j.fields) && AnyTransforms(j.fields["value"], j.fields["type_url"], r)
    requires "@type" !in j.fields["value"].fields && PlainNames(j.fields["value"].fields)
    requires FaithfulFields(schema, j.fields["value"])
    ensures ReadRight(schema, j, field, Obj(r))
    decreases j, 2
  {
    var value := j.fields["value"];
    forall k | k in value.fields ensures ReadProto(schema, r[k], k) == TronValues(schema, value)[k] {
      PlainFieldIsReadRight(schema, value, k, r[k]);
    }
    AnyIsRead(schema, j, field, r);
  }

  lemma {:induction false} PlainFieldIsReadRight(schema: set<string>, value: Json, k: string, image: Json)
    requires value.Obj? && PlainNames(value.fields) && FaithfulFields(schema, value)
    requires k in value.fields && Transforms(value.fields[k], k, image)
    ensures ReadProto(schema, image, k) == TronValues(schema, value)[k]
    decreases value, 1
  {
    PlainName(value.fields, k);
    FaithfulFieldIsReadRight(schema, value, k, image);
  }

  /** An Any whose fields are read right is read right. */
  lemma AnyIsRead(schema: set<string>, j: Json, field: string, r: map<string, Json>)
    requires j.Obj? && IsTronAny(j.fields)
    requires "@type" !in j.fields["value"].fields && PlainNames(j.fields["value"].fields)
    requires r.Keys == j.fields["value"].fields.Keys + {"@type"} && r["@type"] == j.fields["type_url"]
    requires forall k :: k in j.fields["value"].fields ==>
               ReadProto(schema, r[k], k) == TronValues(schema, j.fields["value"])[k]
    ensures ReadRight(schema, j, field, Obj(r))
  {
    var value := j.fields["value"];
    PlainFields(value.fields, TronValues(schema, value));
    assert ProtoValues(schema, Obj(r)) - {"@type"} == TronValues(schema, value);
  }

  lemma PlainName(v: map<string, Json>, k: string)
    requires PlainNames(v) && k in v
    ensures NormalizeFieldName(k) == k
  {
  }

  lemma PlainFields(v: map<string, Json>, values: map<string, Value>)
    requires PlainNames(v) && values.Keys == v.Keys
    ensures SpellingsSayTheSame(v, values) && MessageFields(v, values) == values
  {
    forall k | k in v ensures k in FieldNames(v) && Spelling(v, k) == k {
      assert NormalizeFieldName(k) == k;
    }
    assert FieldNames(v) == v.Keys;
  }

  lemma {:induction false} FaithfulMessageIsReadRight(schema: set<string>, j: Json, field: string, r: map<string, Json>)
    requires j.Obj? && !IsTronAny(j.fields) && !IsProtoAny(j.fields) && FieldsTransform(j, r)
    requires SpellingsSayTheSame(j.fields, TronValues(schema, j)) && FaithfulFields(schema, j)
    ensures ReadRight(schema, j, field, Obj(r))
    decreases j, 2
  {
    hide ImageUnder, NameReads, SpellingsSayTheSame, FaithfulFields, MessageOf, NormalizeFieldName;
    forall n | n in r ensures NameReads(schema, j.fields, TronValues(schema, j), n, r[n]) {
      FaithfulNameIsReadRight(schema, j, n, r[n]);
    }
    TypeKeyStays(j, r);
    MessageIsRead(schema, j.fields, TronValues(schema, j), r, field);
  }

  lemma {:induction false} FaithfulNameIsReadRight(schema: set<string>, j: Json, n: string, image: Json)
    requires j.Obj? && FaithfulFields(schema, j) && ImageUnder(j, n, image)
    ensures NameReads(schema, j.fields, TronValues(schema, j), n, image)
    decreases j, 1
  {
    var k := KeyOf(j, n, image);
    FaithfulFieldIsReadRight(schema, j, k, image);
  }

  lemma TypeKeyStays(j: Json, r: map<string, Json>)
    requires j.Obj? && FieldsTransform(j, r)
    ensures IsProtoAny(r) <==> IsProtoAny(j.fields)
  {
    if "@type" in j.fields {
      NormalizedIsName(j.fields, "@type");
    }
    if "@type" in r {
      var k := KeyOf(j, "@type", r["@type"]);
      assert k == "@type";
    }
  }

  // ----- Every other tree has a result that is read wrong -----

  lemma {:induction false} MisreadResult(schema: set<string>, j: Json, tag: string, field: string) returns (r: Json)
    requires !Faithful(schema, j, tag, field)
    ensures Transforms(j, tag, r) && !ReadRight(schema, j, field, r)
    decreases j, 3
  {
    match j {
      case Str(s) =>
        TextPreservedIff(schema, s, tag, field);
        r := Str(TextImage(s, tag));
      case Arr(items) =>
        var i :| 0 <= i < |items| && !Faithful(schema, items[i], tag, field);
        var image := MisreadResult(schema, items[i], tag, field);
        r := ListWith(items, tag, i, image);
        ListIsMisread(schema, items, r.items, i, field);
      case Obj(m) =>
        if IsTronAny(m) {
          var other := MisreadAny(schema, j, field);
          r := Obj(other);
        } else {
          var other := MisreadMessage(schema, j, field);
          r := Obj(other);
        }
    }
  }

  lemma ListWith(items: seq<Json>, tag: string, i: nat, image: Json) returns (r: Json)
    requires i < |items| && Transforms(items[i], tag, image)
    ensures Transforms(Arr(items), tag, r) && r.Arr? && |r.items| == |items| && r.items[i] == image
  {
    ImageIsResult(Arr(items), tag);
    r := Arr(Image(Arr(items), tag).items[i := image]);
  }

  lemma ListIsMisread(schema: set<string>, items: seq<Json>, images: seq<Json>, i: nat, field: string)
    requires i < |items| == |images| && !ReadRight(schema, items[i], field, images[i])
    ensures !ReadRight(schema, Arr(items), field, Arr(images))
  {
    var x, y := ReadProto(schema, Arr(images), field).items, ReadTron(schema, Arr(items), field).items;
    assert x[i] != y[i];
  }

  lemma {:induction false} MisreadField(schema: set<string>, j: Json) returns (k: string, image: Json)
    requires j.Obj? && !FaithfulFields(schema, j)
    ensures k in j.fields && Transforms(j.fields[k], k, image)
    ensures ReadProto(schema, image, NormalizeFieldName(k)) != TronValues(schema, j)[k]
    decreases j, 0
  {
    k :| k in j.fields && !Faithful(schema, j.fields[k], k, NormalizeFieldName(k));
    image := MisreadResult(schema, j.fields[k], k, NormalizeFieldName(k));
  }

  lemma {:induction false} MisreadAny(schema: set<string>, j: Json, field: string) returns (r: map<string, Json>)
    requires j.Obj? && IsTronAny(j.fields) && !Faithful(schema, j, "", field)
    ensures AnyTransforms(j.fields["value"], j.fields["type_url"], r) && !ReadRight(schema, j, field, Obj(r))
    decreases j, 2
  {
    var value := j.fields["value"];
    if "@type" in value.fields || !PlainNames(value.fields) {
      r := AnyImage(value, j.fields["type_url"]);
      AnyImageIsResult(j, "");
      LostName(schema, j, field, r);
    } else {
      var k, image := MisreadField(schema, value);
      r := AnyWith(value, j.fields["type_url"], k, image);
      PlainFields(value.fields, TronValues(schema, value));
      assert ProtoValues(schema, Obj(r))[k] != TronValues(schema, value)[k];
    }
  }

  /** Inside an Any, a field called @type is lost, and a Tron spelling stays where protobuf does not look for it. */
  lemma LostName(schema: set<string>, j: Json, field: string, r: map<string, Json>)
    requires j.Obj? && IsTronAny(j.fields) && AnyTransforms(j.fields["value"], j.fields["type_url"], r)
    requires "@type" in j.fields["value"].fields || !PlainNames(j.fields["value"].fields)
    ensures !ReadRight(schema, j, field, Obj(r))
  {
    hide NormalizeFieldName, Transforms, SpellingsSayTheSame;
    var v, values := j.fields["value"].fields, TronValues(schema, j.fields["value"]);
    var read := ProtoValues(schema, Obj(r)) - {"@type"};
    if "@type" in v {
      TypeIsName(v);
      assert "@type" in MessageFields(v, values) && "@type" !in read;
    } else {
      var k :| k in v && NormalizeFieldName(k) != k;
      NoNameIsTrons(v, k);
      assert k in read && k !in MessageFields(v, values);
    }
  }

  lemma TypeIsName(m: map<string, Json>)
    requires "@type" in m
    ensures "@type" in FieldNames(m)
  {
    NormalizedIsName(m, "@type");
  }

  /** Two such values: a field called @type, and a transaction id in Tron's spelling. */
  lemma LostNames(schema: set<string>, url: string, x: string) returns (typed: Json, spelled: Json)
    ensures typed.Obj? && IsTronAny(typed.fields) && typed.fields["value"] == Obj(map["@type" := Number(x)])
    ensures spelled.Obj? && IsTronAny(spelled.fields) && spelled.fields["value"] == Obj(map["txID" := Number(x)])
    ensures forall r :: Transforms(typed, "", r) ==> !ReadRight(schema, typed, "", r)
    ensures forall r :: Transforms(spelled, "", r) ==> !ReadRight(schema, spelled, "", r)
  {
    hide Transforms, ReadRight;
    typed := AnyWithField(url, "@type", Number(x));
    spelled := AnyWithField(url, "txID", Number(x));
    assert !PlainNames(spelled.fields["value"].fields) by {
      assert "txID" in spelled.fields["value"].fields && NormalizeFieldName("txID") != "txID";
    }
    EveryResultLosesName(schema, typed);
    EveryResultLosesName(schema, spelled);
  }

  lemma AnyWithField(url: string, k: string, x: Json) returns (j: Json)
    ensures j.Obj? && IsTronAny(j.fields) && j.fields["value"] == Obj(map[k := x])
  {
    j := Obj(map["type_url" := Str(url), "value" := Obj(map[k := x])]);
  }

  lemma EveryResultLosesName(schema: set<string>, j: Json)
    requires j.Obj? && IsTronAny(j.fields)
    requires "@type" in j.fields["value"].fields || !PlainNames(j.fields["value"].fields)
    ensures forall r :: Transforms(j, "", r) ==> !ReadRight(schema, j, "", r)
  {
    hide ReadRight;
    forall r | Transforms(j, "", r) ensures !ReadRight(schema, j, "", r) {
      LostName(schema, j, "", r.fields);
    }
  }

  lemma NoNameIsTrons(m: map<string, Json>, k: string)
    requires NormalizeFieldName(k) != k
    ensures k !in FieldNames(m) && k != "@type"
  {
  }

  lemma AnyWith(value: Json, typeURL: Json, k: string, image: Json) returns (r: map<string, Json>)
    requires value.Obj? && k in value.fields && Transforms(value.fields[k], k, image)
    ensures AnyTransforms(value, typeURL, r) && r[k] == image
  {
    forall k' | k' in value.fields ensures Transforms(value.fields[k'], k', Image(value.fields[k'], k')) {
      ImageIsResult(value.fields[k'], k');
    }
    r := AnyImage(value, typeURL)[k := image];
  }

  lemma {:induction false} MisreadMessage(schema: set<string>, j: Json, field: string) returns (r: map<string, Json>)
    requires j.Obj? && !IsTronAny(j.fields) && !Faithful(schema, j, "", field)
    ensures FieldsTransform(j, r) && !ReadRight(schema, j, field, Obj(r))
    decreases j, 2
  {
    if IsProtoAny(j.fields) || !SpellingsSayTheSame(j.fields, TronValues(schema, j)) {
      r := FieldImages(j);
      FieldImagesAreResult(j);
      TypeKeyStays(j, r);
      NoMessage(schema, j.fields, TronValues(schema, j), r, field);
    } else {
      var k, image := MisreadField(schema, j);
      r := WithField(j, k, image);
      MessageIsMisread(schema, j.fields, TronValues(schema, j), r, k, field);
    }
  }

  // ----- Trees -----

  ghost predicate AlwaysReadRight(schema: set<string>, j: Json, tag: string, field: string) {
    forall r :: Transforms(j, tag, r) ==> ReadRight(schema, j, field, r)
  }

  /** In whatever order, the result reads in protobuf JSON as the input does in Tron's dialect iff the input is faithful. */
  lemma MeaningPreservedIff(schema: set<string>, j: Json, tag: string, field: string)
    ensures AlwaysReadRight(schema, j, tag, field) <==> Faithful(schema, j, tag, field)
  {
    hide Transforms, ReadRight, Faithful;
    if Faithful(schema, j, tag, field) {
      forall r | Transforms(j, tag, r) ensures ReadRight(schema, j, field, r) {
        FaithfulIsReadRight(schema, j, tag, field, r);
      }
    } else {
      var r := MisreadResult(schema, j, tag, field);
    }
  }
}
