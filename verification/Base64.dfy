/**
  Base64 as encoding/base64 writes it (RFC 4648, section 4), and as protobuf JSON reads a bytes
  field: the standard or the URL-safe alphabet, with or without padding, line breaks skipped.
 */
module Base64 {
  import opened Wrappers
  import opened Numerals

  function Letter(d: nat): char
    requires d < 64
  {
    if d < 26 then 'A' + d as char
    else if d < 52 then 'a' + (d - 26) as char
    else if d < 62 then '0' + (d - 52) as char
    else if d == 62 then '+' else '/'
  }

  function Sextet(url: bool, c: char): (r: Option<nat>)
    ensures r.Some? ==> r.value < 64
  {
    if 'A' <= c <= 'Z' then Some(c as int - 'A' as int)
    else if 'a' <= c <= 'z' then Some(c as int - 'a' as int + 26)
    else if '0' <= c <= '9' then Some(c as int - '0' as int + 52)
    else if c == (if url then '-' else '+') then Some(62)
    else if c == (if url then '_' else '/') then Some(63)
    else None
  }

  predicate IsPlain(c: char) {
    c != '-' && c != '_' && c != '\n' && c != '\r'
  }

  ghost predicate AllPlain(s: string) {
    forall i :: 0 <= i < |s| ==> IsPlain(s[i])
  }

  lemma SextetOfLetter(d: nat)
    requires d < 64
    ensures Sextet(false, Letter(d)) == Some(d) && Letter(d) != '=' && IsPlain(Letter(d))
  {
  }

  // ----- Writing -----

  function Encode(b: seq<Byte>): string {
    if |b| == 0 then ""
    else if |b| == 1 then [Letter(b[0] / 4), Letter(b[0] % 4 * 16), '=', '=']
    else if |b| == 2 then [Letter(b[0] / 4), Letter(b[0] % 4 * 16 + b[1] / 16), Letter(b[1] % 16 * 4), '=']
    else Group(b[0], b[1], b[2]) + Encode(b[3..])
  }

  function Group(x: Byte, y: Byte, z: Byte): (g: string)
    ensures |g| == 4
  {
    [Letter(x / 4), Letter(x % 4 * 16 + y / 16), Letter(y % 16 * 4 + z / 64), Letter(z % 64)]
  }

  // ----- Reading -----

  /** Text without line breaks. */
  function Decode(url: bool, padded: bool, s: string): Option<seq<Byte>> {
    if s == "" then Some([])
    else if |s| == 1 then None
    else if |s| == 2 then if padded then None else One(url, s[0], s[1])
    else if |s| == 3 then if padded then None else Two(url, s[0], s[1], s[2])
    else if padded && |s| == 4 && s[3] == '=' then
      if s[2] == '=' then One(url, s[0], s[1]) else Two(url, s[0], s[1], s[2])
    else
      var three, rest := Three(url, s[0], s[1], s[2], s[3]), Decode(url, padded, s[4..]);
      if three.None? || rest.None? then None else Some(three.value + rest.value)
  }

  function One(url: bool, a: char, b: char): (r: Option<seq<Byte>>)
    ensures r.Some? ==> |r.value| == 1
  {
    if Sextet(url, a).None? || Sextet(url, b).None? then None
    else Some([High(Sextet(url, a).value, Sextet(url, b).value)])
  }

  function Two(url: bool, a: char, b: char, c: char): (r: Option<seq<Byte>>)
    ensures r.Some? ==> |r.value| == 2
  {
    if Sextet(url, a).None? || Sextet(url, b).None? || Sextet(url, c).None? then None
    else
      Some([High(Sextet(url, a).value, Sextet(url, b).value), Middle(Sextet(url, b).value, Sextet(url, c).value)])
  }

  /** The bytes of four letters. */
  function Three(url: bool, a: char, b: char, c: char, d: char): (r: Option<seq<Byte>>)
    ensures r.Some? ==> |r.value| == 3
  {
    if Sextet(url, a).None? || Sextet(url, b).None? || Sextet(url, c).None? || Sextet(url, d).None? then None
    else
      Some([High(Sextet(url, a).value, Sextet(url, b).value), Middle(Sextet(url, b).value, Sextet(url, c).value),
            Low(Sextet(url, c).value, Sextet(url, d).value)])
  }

  function High(p: nat, q: nat): Byte
    requires p < 64 && q < 64
  {
    p * 4 + q / 16
  }

  function Middle(q: nat, r: nat): Byte
    requires q < 64 && r < 64
  {
    q % 16 * 16 + r / 4
  }

  function Low(r: nat, t: nat): Byte
    requires r < 64 && t < 64
  {
    r % 4 * 64 + t
  }

  function WithoutBreaks(s: string): string {
    if s == "" then ""
    else if s[0] == '\n' || s[0] == '\r' then WithoutBreaks(s[1..])
    else [s[0]] + WithoutBreaks(s[1..])
  }

  /** A bytes field of protobuf JSON: the letters tell the alphabet and the length whether padding is due. */
  function FromProtoJson(s: string): Option<seq<Byte>> {
    Decode('-' in s || '_' in s, |s| % 4 == 0, WithoutBreaks(s))
  }

  // ----- The round trip -----

  lemma HighBack(x: Byte, low: nat)
    requires low < 16
    ensures x / 4 < 64 && x % 4 * 16 + low < 64 && High(x / 4, x % 4 * 16 + low) == x
  {
  }

  lemma MiddleBack(high: nat, y: Byte, low: nat)
    requires high < 4 && low < 4
    ensures high * 16 + y / 16 < 64 && y % 16 * 4 + low < 64 && Middle(high * 16 + y / 16, y % 16 * 4 + low) == y
  {
    assert (high * 16 + y / 16) % 16 == y / 16;
    assert (y % 16 * 4 + low) / 4 == y % 16;
  }

  lemma LowBack(high: nat, z: Byte)
    requires high < 16
    ensures high * 4 + z / 64 < 64 && Low(high * 4 + z / 64, z % 64) == z
  {
    assert (high * 4 + z / 64) % 4 == z / 64;
  }

  lemma OneBack(x: Byte)
    ensures One(false, Letter(x / 4), Letter(x % 4 * 16)) == Some([x])
  {
    HighBack(x, 0);
    SextetOfLetter(x / 4);
    SextetOfLetter(x % 4 * 16);
  }

  lemma TwoBack(x: Byte, y: Byte)
    ensures Two(false, Letter(x / 4), Letter(x % 4 * 16 + y / 16), Letter(y % 16 * 4)) == Some([x, y])
    ensures Letter(y % 16 * 4) != '='
  {
    HighBack(x, y / 16);
    MiddleBack(x % 4, y, 0);
    SextetOfLetter(x / 4);
    SextetOfLetter(x % 4 * 16 + y / 16);
    SextetOfLetter(y % 16 * 4);
  }

  lemma ThreeBack(x: Byte, y: Byte, z: Byte)
    ensures var g := Group(x, y, z);
            Three(false, g[0], g[1], g[2], g[3]) == Some([x, y, z]) && g[3] != '='
    ensures AllPlain(Group(x, y, z))
  {
    HighBack(x, y / 16);
    MiddleBack(x % 4, y, z / 64);
    LowBack(y % 16, z);
    SextetOfLetter(x / 4);
    SextetOfLetter(x % 4 * 16 + y / 16);
    SextetOfLetter(y % 16 * 4 + z / 64);
    SextetOfLetter(z % 64);
  }

  lemma NothingBack()
    ensures Decode(false, true, "") == Some([])
  {
  }

  lemma OneByteBack(b: seq<Byte>)
    requires |b| == 1
    ensures Decode(false, true, Encode(b)) == Some(b)
  {
    OneBack(b[0]);
    assert b == [b[0]];
  }

  lemma TwoBytesBack(b: seq<Byte>)
    requires |b| == 2
    ensures Decode(false, true, Encode(b)) == Some(b)
  {
    TwoBack(b[0], b[1]);
    assert b == [b[0], b[1]];
  }

  lemma DecodeStep(g: string, rest: string)
    requires |g| == 4 && g[3] != '=' && Three(false, g[0], g[1], g[2], g[3]).Some?
    requires Decode(false, true, rest).Some?
    ensures Decode(false, true, g + rest)
         == Some(Three(false, g[0], g[1], g[2], g[3]).value + Decode(false, true, rest).value)
  {
    var s := g + rest;
    assert s[4..] == rest;
    assert s[0] == g[0] && s[1] == g[1] && s[2] == g[2] && s[3] == g[3];
  }

  lemma {:induction false} DecodeEncode(b: seq<Byte>)
    ensures Decode(false, true, Encode(b)) == Some(b)
  {
    hide Decode, Group, Three;
    if |b| == 1 {
      OneByteBack(b);
    } else if |b| == 2 {
      TwoBytesBack(b);
    } else if |b| == 0 {
      NothingBack();
    } else {
      DecodeEncode(b[3..]);
      ThreeBack(b[0], b[1], b[2]);
      DecodeStep(Group(b[0], b[1], b[2]), Encode(b[3..]));
      assert b == [b[0], b[1], b[2]] + b[3..];
    }
  }

  lemma PlainLetters(a: char, b: char, c: char, d: char)
    requires IsPlain(a) && IsPlain(b) && IsPlain(c) && IsPlain(d)
    ensures AllPlain([a, b, c, d])
  {
  }

  lemma PlainOne(x: Byte)
    ensures AllPlain([Letter(x / 4), Letter(x % 4 * 16), '=', '='])
  {
    SextetOfLetter(x / 4);
    SextetOfLetter(x % 4 * 16);
    PlainLetters(Letter(x / 4), Letter(x % 4 * 16), '=', '=');
  }

  lemma PlainTwo(x: Byte, y: Byte)
    ensures AllPlain([Letter(x / 4), Letter(x % 4 * 16 + y / 16), Letter(y % 16 * 4), '='])
  {
    SextetOfLetter(x / 4);
    SextetOfLetter(x % 4 * 16 + y / 16);
    SextetOfLetter(y % 16 * 4);
    PlainLetters(Letter(x / 4), Letter(x % 4 * 16 + y / 16), Letter(y % 16 * 4), '=');
  }

  lemma {:induction false} EncodedIsPlain(b: seq<Byte>)
    ensures AllPlain(Encode(b))
  {
    if |b| == 1 {
      PlainOne(b[0]);
    } else if |b| == 2 {
      PlainTwo(b[0], b[1]);
    } else if |b| >= 3 {
      EncodedIsPlain(b[3..]);
      ThreeBack(b[0], b[1], b[2]);
      PlainConcat(Group(b[0], b[1], b[2]), Encode(b[3..]));
    }
  }

  lemma {:induction false} EncodedLength(b: seq<Byte>)
    ensures |Encode(b)| == 4 * ((|b| + 2) / 3)
  {
    if |b| >= 3 {
      EncodedLength(b[3..]);
      ThreeMore(|b| - 3);
    }
  }

  lemma ThreeMore(n: nat)
    ensures 4 + 4 * ((n + 2) / 3) == 4 * ((n + 3 + 2) / 3)
  {
  }

  lemma LastOfConcat(g: string, rest: string)
    requires rest != ""
    ensures (g + rest)[|g + rest| - 1] == rest[|rest| - 1]
  {
  }

  lemma {:induction false} EncodedEnd(b: seq<Byte>)
    requires |b| % 3 != 0
    ensures Encode(b) != "" && Encode(b)[|Encode(b)| - 1] == '='
  {
    if |b| >= 3 {
      assert |b[3..]| % 3 == |b| % 3;
      EncodedEnd(b[3..]);
      LastOfConcat(Group(b[0], b[1], b[2]), Encode(b[3..]));
    }
  }

  lemma PlainConcat(s: string, t: string)
    requires AllPlain(s) && AllPlain(t)
    ensures AllPlain(s + t)
  {
  }

  lemma {:induction false} PlainHasNoBreaks(s: string)
    requires AllPlain(s)
    ensures WithoutBreaks(s) == s
  {
    if s != "" {
      assert IsPlain(s[0]);
      PlainHasNoBreaks(s[1..]);
      assert s == [s[0]] + s[1..];
    }
  }

  lemma PlainIsStandard(s: string)
    requires AllPlain(s)
    ensures FromProtoJson(s) == Decode(false, |s| % 4 == 0, s)
  {
    PlainHasNoBreaks(s);
    assert '-' !in s && '_' !in s;
  }

  /** What is written for some bytes is read as those bytes. */
  lemma Base64RoundTrip(b: seq<Byte>)
    ensures FromProtoJson(Encode(b)) == Some(b)
  {
    hide Encode, Decode, AllPlain, FromProtoJson;
    EncodedIsPlain(b);
    EncodedLength(b);
    PlainIsStandard(Encode(b));
    DecodeEncode(b);
  }
}
