/**
  Base58Check addresses: the printer and the parser of pkg/tronutils/base58.go, and the parser
  pkg/address/address.go has of its own. The hash is a parameter; Base58 itself is the
  conversion both files import, modelled from its definition.
 */
module Base58Check {
  import opened Wrappers
  import opened Numerals
  import opened Addresses

  type Digest = d: seq<Byte> | |d| == 32 witness seq(32, _ => 0)

  type Hash = seq<Byte> -> Digest

  const CHECKSUM_LENGTH := 4

  datatype Error = InvalidBase58 | CheckError | InvalidLength | InvalidPrefix | EmptyAddress

  // ----- The alphabet: digits and letters without 0, O, I and l -----

  function Letter(d: nat): char
    requires d < 58
  {
    if d < 9 then '1' + d as char
    else if d < 17 then 'A' + (d - 9) as char
    else if d < 22 then 'J' + (d - 17) as char
    else if d < 33 then 'P' + (d - 22) as char
    else if d < 44 then 'a' + (d - 33) as char
    else 'm' + (d - 44) as char
  }

  function Value(c: char): (r: Option<nat>)
    ensures r.Some? ==> r.value < 58
  {
    var x := c as int;
    if '1' <= c <= '9' then Some(x - '1' as int)
    else if 'A' <= c <= 'H' then Some(x - 'A' as int + 9)
    else if 'J' <= c <= 'N' then Some(x - 'J' as int + 17)
    else if 'P' <= c <= 'Z' then Some(x - 'P' as int + 22)
    else if 'a' <= c <= 'k' then Some(x - 'a' as int + 33)
    else if 'm' <= c <= 'z' then Some(x - 'm' as int + 44)
    else None
  }

  lemma AlphabetIsOneToOne(d: nat, c: char)
    ensures d < 58 ==> Value(Letter(d)) == Some(d)
    ensures Value(c).Some? ==> Letter(Value(c).value) == c
  {
  }

  function Spell(ds: seq<nat>): (s: string)
    requires AreDigits(58, ds)
    ensures |s| == |ds|
  {
    seq(|ds|, i requires 0 <= i < |ds| => Letter(ds[i]))
  }

  predicate IsBase58(s: string) {
    forall i :: 0 <= i < |s| ==> Value(s[i]).Some?
  }

  function Read(s: string): (ds: seq<nat>)
    requires IsBase58(s)
    ensures |ds| == |s| && AreDigits(58, ds)
  {
    seq(|s|, i requires 0 <= i < |s| => Value(s[i]).value)
  }

  lemma ReadSpell(ds: seq<nat>, s: string)
    ensures AreDigits(58, ds) ==> IsBase58(Spell(ds)) && Read(Spell(ds)) == ds
    ensures IsBase58(s) ==> Spell(Read(s)) == s
  {
    if AreDigits(58, ds) {
      forall i | 0 <= i < |ds|
        ensures Value(Spell(ds)[i]) == Some(ds[i])
      {
        AlphabetIsOneToOne(ds[i], 'a');
      }
    }
    if IsBase58(s) {
      forall i | 0 <= i < |s|
        ensures Letter(Value(s[i]).value) == s[i]
      {
        AlphabetIsOneToOne(0, s[i]);
      }
    }
  }

  function Encode(data: seq<Byte>): string {
    assert AreDigits(58, ChangeBase(256, 58, data)) by {
      ChangeBaseBack(256, 58, data);
    }
    Spell(ChangeBase(256, 58, data))
  }

  /** A string that is not Base58 decodes to nothing. */
  function Decode(s: string): seq<Byte> {
    if IsBase58(s) then
      assert AreDigits(256, ChangeBase(58, 256, Read(s))) by {
        ChangeBaseBack(58, 256, Read(s));
      }
      ChangeBase(58, 256, Read(s))
    else []
  }

  lemma Base58RoundTrip(data: seq<Byte>, s: string)
    ensures IsBase58(Encode(data)) && Decode(Encode(data)) == data
    ensures IsBase58(s) ==> Encode(Decode(s)) == s
  {
    ChangeBaseBack(256, 58, data);
    ReadSpell(ChangeBase(256, 58, data), s);
    if IsBase58(s) {
      ChangeBaseBack(58, 256, Read(s));
    }
  }

  // ----- The checked form -----

  function Checksum(sha256: Hash, data: seq<Byte>): (c: seq<Byte>)
    ensures |c| == CHECKSUM_LENGTH
  {
    sha256(sha256(data))[..CHECKSUM_LENGTH]
  }

  function Checked(sha256: Hash, data: seq<Byte>): string {
    Encode(data + Checksum(sha256, data))
  }

  /** The checksum goes into a fresh buffer; the caller's is only read. */
  method EncodeCheck(sha256: Hash, input: array<Byte>) returns (r: string)
    ensures r == Checked(sha256, input[..])
  {
    var h1 := sha256(sha256(input[..]));
    var n := input.Length;
    var inputCheck := new Byte[n + CHECKSUM_LENGTH](_ => 0);
    for i := 0 to n
      invariant inputCheck[..i] == input[..i]
    {
      inputCheck[i] := input[i];
    }
    for i := 0 to CHECKSUM_LENGTH
      invariant inputCheck[..n] == input[..]
      invariant inputCheck[n..n + i] == h1[..i]
    {
      inputCheck[n + i] := h1[i];
    }
    assert inputCheck[..] == input[..] + h1[..CHECKSUM_LENGTH];
    r := Encode(inputCheck[..]);
  }

  function DecodeCheck(sha256: Hash, input: string): Result<seq<Byte>, Error> {
    var decoded := Decode(input);
    if |input| != 0 && |decoded| == 0 then Err(InvalidBase58)
    else if |decoded| < CHECKSUM_LENGTH then Err(CheckError)
    else if |decoded| != ADDRESS_LENGTH + CHECKSUM_LENGTH then Err(InvalidLength)
    else if decoded[0] != TRON_PREFIX then Err(InvalidPrefix)
    else
      var n := |decoded| - CHECKSUM_LENGTH;
      var h1 := sha256(sha256(decoded[..n]));
      if h1[0] == decoded[n] && h1[1] == decoded[n + 1] && h1[2] == decoded[n + 2] && h1[3] == decoded[n + 3]
      then Ok(decoded[..n])
      else Err(CheckError)
  }

  /** Printing and parsing undo each other: the parser accepts exactly what the printer prints for Tron addresses. */
  lemma DecodeCheckInvertsEncodeCheck(sha256: Hash, input: string, data: seq<Byte>)
    ensures DecodeCheck(sha256, input) == Ok(data) <==> IsTronAddress(data) && input == Checked(sha256, data)
  {
    hide Encode, Decode, IsBase58, Checksum, DecodeCheck;
    DecodeCheckIs(sha256, input);
    var decoded := Decode(input);
    Base58RoundTrip(data + Checksum(sha256, data), input);
    if DecodeCheck(sha256, input) == Ok(data) {
      BareTextIsBase58(input);
    } else if IsTronAddress(data) && input == Checked(sha256, data) {
      CheckedParts(data, Checksum(sha256, data));
    }
  }

  lemma CheckedParts(data: seq<Byte>, checksum: seq<Byte>)
    requires |data| == ADDRESS_LENGTH && |checksum| == CHECKSUM_LENGTH
    ensures (data + checksum)[..ADDRESS_LENGTH] == data && (data + checksum)[ADDRESS_LENGTH..] == checksum
    ensures (data + checksum)[0] == data[0]
  {
  }

  lemma BareTextIsBase58(s: string)
    ensures Decode(s) != [] ==> IsBase58(s)
  {
  }

  /** The parser accepts exactly 25 bytes whose first is the prefix and whose last four are the checksum. */
  lemma DecodeCheckIs(sha256: Hash, input: string)
    ensures var decoded := Decode(input);
            && (DecodeCheck(sha256, input).Ok? <==> IsCheckedAddress(sha256, decoded))
            && (DecodeCheck(sha256, input).Ok? ==>
                  && DecodeCheck(sha256, input).value == decoded[..ADDRESS_LENGTH]
                  && decoded == decoded[..ADDRESS_LENGTH] + Checksum(sha256, decoded[..ADDRESS_LENGTH]))
  {
    hide Decode, IsBase58;
    var decoded := Decode(input);
    if |decoded| == ADDRESS_LENGTH + CHECKSUM_LENGTH {
      SameChecksumTest(sha256, decoded);
      assert decoded == decoded[..ADDRESS_LENGTH] + decoded[ADDRESS_LENGTH..];
    }
  }

  ghost predicate IsCheckedAddress(sha256: Hash, decoded: seq<Byte>) {
    && |decoded| == ADDRESS_LENGTH + CHECKSUM_LENGTH
    && decoded[0] == TRON_PREFIX
    && HasChecksum(sha256, decoded)
  }

  // ----- The second parser -----

  method AddressDecodeCheck(sha256: Hash, input: string) returns (r: Result<seq<Byte>, Error>)
    ensures r.Ok? <==> |Decode(input)| >= CHECKSUM_LENGTH && HasChecksum(sha256, Decode(input))
    ensures r.Ok? ==> r.value == Decode(input)[..|Decode(input)| - CHECKSUM_LENGTH]
  {
    var decoded := Decode(input);
    if |decoded| < CHECKSUM_LENGTH {
      return Err(InvalidBase58);
    }
    var data, checksum := decoded[..|decoded| - CHECKSUM_LENGTH], decoded[|decoded| - CHECKSUM_LENGTH..];
    var hash := sha256(sha256(data));
    for i := 0 to CHECKSUM_LENGTH
      invariant forall j :: 0 <= j < i ==> hash[j] == checksum[j]
    {
      if hash[i] != checksum[i] {
        return Err(CheckError);
      }
    }
    r := Ok(data);
  }

  ghost predicate HasChecksum(sha256: Hash, decoded: seq<Byte>)
    requires |decoded| >= CHECKSUM_LENGTH
  {
    var n := |decoded| - CHECKSUM_LENGTH;
    decoded[n..] == Checksum(sha256, decoded[..n])
  }

  /** `Validate` accepts exactly the strings `DecodeCheck` accepts. */
  method Validate(sha256: Hash, address: string) returns (r: Result<(), Error>)
    ensures r.Ok? <==> DecodeCheck(sha256, address).Ok?
  {
    if address == "" {
      assert ChangeBase(58, 256, Read("")) == [];
      return Err(EmptyAddress);
    }
    var decoded := AddressDecodeCheck(sha256, address);
    if |Decode(address)| >= CHECKSUM_LENGTH {
      SameChecksumTest(sha256, Decode(address));
    }
    if decoded.Err? {
      return Err(decoded.error);
    }
    if |decoded.value| != ADDRESS_LENGTH {
      return Err(InvalidLength);
    }
    if decoded.value[0] != TRON_PREFIX {
      return Err(InvalidPrefix);
    }
    r := Ok(());
  }

  lemma SameChecksumTest(sha256: Hash, decoded: seq<Byte>)
    requires |decoded| >= CHECKSUM_LENGTH
    ensures var n := |decoded| - CHECKSUM_LENGTH;
            var h1 := sha256(sha256(decoded[..n]));
            HasChecksum(sha256, decoded) <==>
            h1[0] == decoded[n] && h1[1] == decoded[n + 1] && h1[2] == decoded[n + 2] && h1[3] == decoded[n + 3]
  {
    var n := |decoded| - CHECKSUM_LENGTH;
    var c := Checksum(sha256, decoded[..n]);
    assert decoded[n..] == c <==> forall i :: 0 <= i < 4 ==> decoded[n..][i] == c[i];
  }
}
