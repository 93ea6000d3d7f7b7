/** Hexadecimal text: encoding/hex and the helpers of pkg/tronutils/hexutils.go. */
module Hex {
  import opened Wrappers
  import opened Numerals

  function HexDigit(d: nat): char
    requires d < 16
  {
    if d < 10 then '0' + d as char else 'a' + (d - 10) as char
  }

  /** Upper and lower case are both read. */
  function HexValue(c: char): (r: Option<nat>)
    ensures r.Some? ==> r.value < 16
  {
    if '0' <= c <= '9' then Some(c as int - '0' as int)
    else if 'a' <= c <= 'f' then Some(c as int - 'a' as int + 10)
    else if 'A' <= c <= 'F' then Some(c as int - 'A' as int + 10)
    else None
  }

  lemma HexDigitRoundTrip(d: nat)
    requires d < 16
    ensures HexValue(HexDigit(d)) == Some(d) && HexDigit(d) != 'x' && HexDigit(d) != 'X'
  {
  }

  predicate IsHex(s: string) {
    forall i :: 0 <= i < |s| ==> HexValue(s[i]).Some?
  }

  /** The two digits of a byte. */
  function HexPair(b: Byte): (s: string)
    ensures |s| == 2
  {
    [HexDigit(b / 16), HexDigit(b % 16)]
  }

  function ByteOf(hi: nat, lo: nat): Byte
    requires hi < 16 && lo < 16
  {
    16 * hi + lo
  }

  function ToHex(data: seq<Byte>): (s: string)
    ensures |s| == 2 * |data|
  {
    if data == [] then "" else ToHex(data[..|data| - 1]) + HexPair(data[|data| - 1])
  }

  /** hex.DecodeString: refuses odd lengths and other characters. */
  function FromHex(s: string): (r: Option<seq<Byte>>)
    ensures r.Some? ==> 2 * |r.value| == |s|
    ensures r.Some? <==> |s| % 2 == 0 && IsHex(s)
  {
    if s == "" then Some([])
    else if |s| == 1 then None
    else
      var n := |s|;
      var front := FromHex(s[..n - 2]);
      var hi, lo := HexValue(s[n - 2]), HexValue(s[n - 1]);
      assert IsHex(s) <==> IsHex(s[..n - 2]) && hi.Some? && lo.Some?;
      if front.None? || hi.None? || lo.None? then None
      else Some(front.value + [ByteOf(hi.value, lo.value)])
  }

  lemma PairBack(b: Byte)
    ensures HexValue(HexPair(b)[0]) == Some(b / 16) && HexValue(HexPair(b)[1]) == Some(b % 16)
    ensures ByteOf(b / 16, b % 16) == b
  {
    HexDigitRoundTrip(b / 16);
    HexDigitRoundTrip(b % 16);
  }

  lemma AppendPair(front: string, pair: string)
    requires |pair| == 2 && FromHex(front).Some? && HexValue(pair[0]).Some? && HexValue(pair[1]).Some?
    ensures FromHex(front + pair)
         == Some(FromHex(front).value + [ByteOf(HexValue(pair[0]).value, HexValue(pair[1]).value)])
  {
    hide HexValue, IsHex, ByteOf;
    var s := front + pair;
    assert s[..|s| - 2] == front;
    assert s[|s| - 2] == pair[0] && s[|s| - 1] == pair[1];
  }

  lemma {:induction false} HexRoundTrip(data: seq<Byte>)
    ensures FromHex(ToHex(data)) == Some(data)
  {
    hide FromHex, HexPair, ByteOf, HexValue, IsHex;
    if data == [] {
      NothingFromHex();
    } else {
      var front, b := data[..|data| - 1], data[|data| - 1];
      HexRoundTrip(front);
      PairBack(b);
      AppendPair(ToHex(front), HexPair(b));
      assert data == front + [b];
    }
  }

  lemma NothingFromHex()
    ensures FromHex("") == Some([])
  {
  }

  lemma {:induction false} ToHexConcat(a: seq<Byte>, b: seq<Byte>)
    ensures ToHex(a + b) == ToHex(a) + ToHex(b)
  {
    if b == [] {
      assert a + b == a;
    } else {
      ToHexConcat(a, b[..|b| - 1]);
      assert (a + b)[..|a + b| - 1] == a + b[..|b| - 1];
    }
  }

  /** The digits a text spells, for any base up to 16. */
  function DigitValues(s: string): (ds: seq<nat>)
    requires IsHex(s)
    ensures |ds| == |s|
  {
    seq(|s|, i requires 0 <= i < |s| => HexValue(s[i]).value)
  }

  lemma TwoMoreDigits(s: string, pair: string)
    requires IsHex(s) && |pair| == 2 && HexValue(pair[0]).Some? && HexValue(pair[1]).Some?
    ensures IsHex(s + pair)
    ensures DigitValues(s + pair) == DigitValues(s) + [HexValue(pair[0]).value] + [HexValue(pair[1]).value]
  {
    hide HexValue;
  }

  lemma TwoHexDigitsAreOneByte(ds: seq<nat>, n: nat, b: Byte)
    requires FromDigits(16, ds) == n
    ensures FromDigits(16, ds + [b / 16] + [b % 16]) == n * 256 + b
  {
    hide FromDigits;
    AppendDigit(16, ds, b / 16);
    AppendDigit(16, ds + [b / 16], b % 16);
  }

  /** The hex text of some bytes, read as one base-16 number, is their base-256 value. */
  lemma {:induction false} HexNumberOfBytes(data: seq<Byte>)
    ensures IsHex(ToHex(data)) && FromDigits(16, DigitValues(ToHex(data))) == FromDigits(256, data)
  {
    if data != [] {
      hide FromDigits, DigitValues, IsHex, HexPair, HexValue;
      var front, b := data[..|data| - 1], data[|data| - 1];
      HexNumberOfBytes(front);
      PairBack(b);
      TwoMoreDigits(ToHex(front), HexPair(b));
      TwoHexDigitsAreOneByte(DigitValues(ToHex(front)), FromDigits(256, front), b);
      AppendDigit(256, front, b);
      assert data == front + [b];
    }
  }

  predicate Has0xPrefix(s: string) {
    |s| >= 2 && s[0] == '0' && (s[1] == 'x' || s[1] == 'X')
  }

  function Strip0x(s: string): string {
    if Has0xPrefix(s) then s[2..] else s
  }

  /** tronutils.FromHex: an optional 0x and an implied leading zero. */
  function FromHexLoose(s: string): Option<seq<Byte>> {
    var digits := Strip0x(s);
    FromHex(if |digits| % 2 == 1 then "0" + digits else digits)
  }

  /** BytesToHexString. */
  function To0xHex(data: seq<Byte>): string {
    "0x" + ToHex(data)
  }

  lemma HexTextIsHex(data: seq<Byte>)
    ensures IsHex(ToHex(data))
  {
    HexRoundTrip(data);
  }

  lemma HexIsNot0x(data: seq<Byte>)
    ensures Strip0x(ToHex(data)) == ToHex(data) && Strip0x(To0xHex(data)) == ToHex(data)
  {
    hide ToHex;
    HexTextIsHex(data);
    assert ("0x" + ToHex(data))[2..] == ToHex(data);
  }
}
