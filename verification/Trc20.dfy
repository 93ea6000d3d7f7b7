/**
  TRC20 calldata and return values (pkg/client/trc20.go), and the packing the transfer
  estimator simulates with (pkg/client/abi/abi.go). Text is a sequence of single-byte
  characters. Word layout follows the Solidity ABI specification, "Formal Specification of the
  Encoding".
 */
module Trc20 {
  import opened Wrappers
  import opened Decimals
  import opened Modular
  import opened Numerals
  import opened Addresses
  import opened Hex

  datatype Error = InvalidAddress | InvalidAmount | InvalidParams | Undecodable | BadHex | NilResponse | CannotParse

  const WORD := 32

  function ZeroWord(): (w: string)
    ensures |w| == 64
  {
    seq(64, _ => '0')
  }

  /** The hex of the address behind enough zeros for a word, without its 0x and its 0x41 byte. */
  function AddressWord(a: Address): string
    requires |a| == ADDRESS_LENGTH
  {
    var h := To0xHex(a);
    ZeroWord()[|h| - 4..] + h[4..]
  }

  /** balanceOf keeps the 0x41 byte. */
  function BalanceOfWord(a: Address): string
    requires |a| == ADDRESS_LENGTH
  {
    var h := To0xHex(a);
    ZeroWord()[|h| - 2..] + h[2..]
  }

  /** A number as a big-endian 32-byte word. */
  function Word(v: nat): (w: seq<Byte>)
    requires v < TWO_256
    ensures |w| == WORD
  {
    DigitsOfNumber(256, v);
    FitsWord(v);
    LeftPad(ToDigits(256, v), WORD)
  }

  function AmountWord(v: nat): string
    requires v < TWO_256
  {
    ToHex(Word(v))
  }

  function TransferHex(to: Address, v: nat): string
    requires |to| == ADDRESS_LENGTH && v < TWO_256
  {
    "0xa9059cbb" + AddressWord(to) + AmountWord(v)
  }

  function ApproveHex(to: Address, v: nat): string
    requires |to| == ADDRESS_LENGTH && v < TWO_256
  {
    "0x095ea7b3" + AddressWord(to) + AmountWord(v)
  }

  function TransferFromHex(from: Address, to: Address, v: nat): string
    requires |from| == |to| == ADDRESS_LENGTH && v < TWO_256
  {
    "0x23b872dd" + AddressWord(from) + AddressWord(to) + AmountWord(v)
  }

  // ----- What the calldata means -----

  /** The ABI encoding of an address argument: 12 zero bytes and the 20-byte address. */
  function AbiAddress(a: Address): (w: seq<Byte>)
    requires |a| == ADDRESS_LENGTH
    ensures |w| == WORD
  {
    Zeros(12) + a[1..]
  }

  lemma {:induction false} HexOfZeros(k: nat)
    ensures ToHex(Zeros(k)) == seq(2 * k, _ => '0')
  {
    if k > 0 {
      HexOfZeros(k - 1);
      assert Zeros(k)[..k - 1] == Zeros(k - 1);
    }
  }

  lemma ZerosTail(k: nat)
    requires k <= WORD
    ensures ZeroWord()[64 - 2 * k..] == ToHex(Zeros(k))
  {
    hide ToHex;
    HexOfZeros(k);
  }

  lemma HexTail(a: Address)
    requires |a| == ADDRESS_LENGTH
    ensures To0xHex(a)[2..] == ToHex(a) && To0xHex(a)[4..] == ToHex(a[1..])
  {
    hide ToHex;
    ToHexConcat(a[..1], a[1..]);
    assert a == a[..1] + a[1..];
    assert |ToHex(a[..1])| == 2;
  }

  lemma AddressWordIsAbi(a: Address)
    requires IsTronAddress(a)
    ensures AddressWord(a) == ToHex(AbiAddress(a))
  {
    hide ToHex, ZeroWord, Zeros, IsTronAddress;
    TronAddressLength(a);
    HexTail(a);
    ZerosTail(12);
    ToHexConcat(Zeros(12), a[1..]);
  }

  lemma TronAddressLength(a: Address)
    requires IsTronAddress(a)
    ensures |a| == ADDRESS_LENGTH
  {
  }

  /** balanceOf's word is never the ABI encoding of the address. */
  lemma BalanceOfWordIsNotAbi(a: Address)
    requires IsTronAddress(a)
    ensures BalanceOfWord(a) != ToHex(AbiAddress(a))
  {
    hide BalanceOfWord, ToHex, FromHex;
    BalanceOfWordKeepsPrefix(a);
    HexRoundTrip(Zeros(11) + a);
    HexRoundTrip(AbiAddress(a));
    assert (Zeros(11) + a)[11] == TRON_PREFIX && AbiAddress(a)[11] == 0;
  }

  lemma BalanceOfWordKeepsPrefix(a: Address)
    requires |a| == ADDRESS_LENGTH
    ensures BalanceOfWord(a) == ToHex(Zeros(11) + a)
  {
    hide ToHex, ZeroWord, Zeros;
    HexTail(a);
    ZerosTail(11);
    ToHexConcat(Zeros(11), a);
  }

  /** "0x" and the hex of some bytes decode to those bytes. */
  lemma LooseHexRoundTrip(text: string, data: seq<Byte>)
    requires text == "0x" + ToHex(data)
    ensures FromHexLoose(text) == Some(data)
  {
    HexIsNot0x(data);
    HexRoundTrip(data);
  }

  const TRANSFER_SELECTOR: seq<Byte> := [0xa9, 0x05, 0x9c, 0xbb]
  const APPROVE_SELECTOR: seq<Byte> := [0x09, 0x5e, 0xa7, 0xb3]
  const TRANSFER_FROM_SELECTOR: seq<Byte> := [0x23, 0xb8, 0x72, 0xdd]

  lemma FourBytes(a: Byte, b: Byte, c: Byte, d: Byte)
    ensures ToHex([a, b, c, d]) == HexPair(a) + HexPair(b) + HexPair(c) + HexPair(d)
  {
    hide ToHex, HexPair;
    assert [a, b, c, d] == [a] + [b] + [c] + [d];
    ToHexConcat([a] + [b] + [c], [d]);
    ToHexConcat([a] + [b], [c]);
    ToHexConcat([a], [b]);
    OneByte(a);
    OneByte(b);
    OneByte(c);
    OneByte(d);
  }

  lemma OneByte(b: Byte)
    ensures ToHex([b]) == HexPair(b)
  {
    assert ToHex([b][..0]) == "";
  }

  lemma TransferSelectorHex()
    ensures "0xa9059cbb" == "0x" + ToHex(TRANSFER_SELECTOR)
  {
    hide ToHex;
    FourBytes(0xa9, 0x05, 0x9c, 0xbb);
  }

  lemma ApproveSelectorHex()
    ensures "0x095ea7b3" == "0x" + ToHex(APPROVE_SELECTOR)
  {
    hide ToHex;
    FourBytes(0x09, 0x5e, 0xa7, 0xb3);
  }

  lemma TransferFromSelectorHex()
    ensures "0x23b872dd" == "0x" + ToHex(TRANSFER_FROM_SELECTOR)
  {
    hide ToHex;
    FourBytes(0x23, 0xb8, 0x72, 0xdd);
  }

  function AbiTransfer(to: Address, v: nat): seq<Byte>
    requires |to| == ADDRESS_LENGTH && v < TWO_256
  {
    TRANSFER_SELECTOR + AbiAddress(to) + Word(v)
  }

  lemma CalldataBytes(head: string, w: string, amount: string, selector: seq<Byte>, first: seq<Byte>, rest: seq<Byte>)
    requires head == "0x" + ToHex(selector) && w == ToHex(first) && amount == ToHex(rest)
    ensures FromHexLoose(head + w + amount) == Some(selector + first + rest)
  {
    var text := head + w + amount;
    ToHexConcat(selector, first);
    ToHexConcat(selector + first, rest);
    Regroup("0x", ToHex(selector), w);
    Regroup("0x", ToHex(selector) + w, amount);
    LooseHexRoundTrip(text, selector + first + rest);
  }

  lemma Regroup(a: string, b: string, c: string)
    ensures a + b + c == a + (b + c)
  {
  }

  /** The calldata of each call is its selector and the ABI words of its arguments. */
  lemma TransferIsAbi(to: Address, v: nat)
    requires IsTronAddress(to) && v < TWO_256
    ensures FromHexLoose(TransferHex(to, v)) == Some(AbiTransfer(to, v))
  {
    hide FromHexLoose, ToHex, AddressWord, AbiAddress, Word, IsTronAddress;
    TronAddressLength(to);
    AddressWordIsAbi(to);
    TransferSelectorHex();
    CalldataBytes("0xa9059cbb", AddressWord(to), AmountWord(v), TRANSFER_SELECTOR, AbiAddress(to), Word(v));
  }

  lemma ApproveIsAbi(to: Address, v: nat)
    requires IsTronAddress(to) && v < TWO_256
    ensures FromHexLoose(ApproveHex(to, v)) == Some(APPROVE_SELECTOR + AbiAddress(to) + Word(v))
  {
    hide FromHexLoose, ToHex, AddressWord, AbiAddress, Word, IsTronAddress;
    TronAddressLength(to);
    AddressWordIsAbi(to);
    ApproveSelectorHex();
    CalldataBytes("0x095ea7b3", AddressWord(to), AmountWord(v), APPROVE_SELECTOR, AbiAddress(to), Word(v));
  }

  lemma TransferFromIsAbi(from: Address, to: Address, v: nat)
    requires IsTronAddress(from) && IsTronAddress(to) && v < TWO_256
    ensures FromHexLoose(TransferFromHex(from, to, v))
         == Some(TRANSFER_FROM_SELECTOR + AbiAddress(from) + (AbiAddress(to) + Word(v)))
  {
    hide FromHexLoose, ToHex, AddressWord, AbiAddress, Word, IsTronAddress;
    TronAddressLength(from);
    TronAddressLength(to);
    AddressWordIsAbi(from);
    AddressWordIsAbi(to);
    TransferFromSelectorHex();
    ToHexConcat(AbiAddress(to), Word(v));
    CalldataBytes("0x23b872dd", AddressWord(from), AddressWord(to) + AmountWord(v),
                  TRANSFER_FROM_SELECTOR, AbiAddress(from), AbiAddress(to) + Word(v));
    Regroup("0x23b872dd" + AddressWord(from), AddressWord(to), AmountWord(v));
  }

  /** Reading the calldata back: selector, padding, recipient and amount stand where the ABI puts them. */
  lemma TransferDecodes(to: Address, v: nat)
    requires IsTronAddress(to) && v < TWO_256
    ensures var d := AbiTransfer(to, v);
            && |d| == 68
            && d[..4] == TRANSFER_SELECTOR
            && (forall i :: 4 <= i < 16 ==> d[i] == 0)
            && [TRON_PREFIX] + d[16..36] == to
            && FromDigits(256, d[36..]) == v
  {
    WordHasValue(v);
    assert to == [to[0]] + to[1..];
  }

  lemma WordHasValue(v: nat)
    requires v < TWO_256
    ensures FromDigits(256, Word(v)) == v
  {
    DigitsOfNumber(256, v);
    FitsWord(v);
    LeftPadKeepsValue(256, ToDigits(256, v), WORD);
  }

  /** Different transfers have different calldata. */
  lemma TransferIsInjective(to: Address, v: nat, to': Address, v': nat)
    requires IsTronAddress(to) && v < TWO_256 && IsTronAddress(to') && v' < TWO_256
    requires FromHexLoose(TransferHex(to, v)) == FromHexLoose(TransferHex(to', v'))
    ensures to == to' && v == v'
  {
    TransferIsAbi(to, v);
    TransferIsAbi(to', v');
    TransferDecodes(to, v);
    TransferDecodes(to', v');
  }

  // ----- The calls -----

  datatype ContractCall = ContractCall(owner: Address, contract: Address, data: seq<Byte>)

  /** DecodeCheck as a parameter; what it accepts is a Tron address. */
  type AddressParser = f: string -> Option<Address> | forall s :: f(s).Some? ==> IsTronAddress(f(s).value)
    witness _ => None

  function Trc20Call(decode: AddressParser, from: string, contract: string, dataHex: string): Result<ContractCall, Error> {
    var owner := if |from| > 0 then decode(from) else Some([TRON_PREFIX] + Zeros(20));
    var target := decode(contract);
    if owner.None? || target.None? then Err(Undecodable)
    else
      var data := FromHexLoose(dataHex);
      if data.None? then Err(BadHex) else Ok(ContractCall(owner.value, target.value, data.value))
  }

  predicate Named(from: string, to: string, contract: string) {
    from != "" && to != "" && contract != ""
  }

  method TRC20Send(decode: AddressParser, from: string, to: string, contract: string, amount: nat, feeLimit: Int64)
    returns (r: Result<ContractCall, Error>)
    requires amount < TWO_256
    ensures r.Ok? <==> && Named(from, to, contract) && amount > 0 && feeLimit > 0
                       && decode(from).Some? && decode(to).Some? && decode(contract).Some?
    ensures r == Err(InvalidAddress) <==> !Named(from, to, contract)
    ensures r == Err(InvalidAmount) <==> Named(from, to, contract) && amount == 0
    ensures r == Err(InvalidParams) <==> Named(from, to, contract) && amount > 0 && feeLimit <= 0
    ensures r.Err? ==> r.error in {InvalidAddress, InvalidAmount, InvalidParams, Undecodable}
    ensures r.Ok? ==> && Some(r.value.owner) == decode(from) && Some(r.value.contract) == decode(contract)
                      && r.value.data == AbiTransfer(decode(to).value, amount)
  {
    if contract == "" || from == "" || to == "" {
      return Err(InvalidAddress);
    }
    if amount == 0 {
      return Err(InvalidAmount);
    }
    if feeLimit <= 0 {
      return Err(InvalidParams);
    }
    var addrB := decode(to);
    if addrB.None? {
      return Err(Undecodable);
    }
    TransferIsAbi(addrB.value, amount);
    r := Trc20Call(decode, from, contract, TransferHex(addrB.value, amount));
  }

  // ----- What the estimator simulates -----

  /** big.Int.SetString: an optional sign and at least one digit of the base, nothing else. */
  function BigIntOf(s: string, base: nat): Option<int>
    requires 2 <= base <= 16
  {
    var signed := s != "" && (s[0] == '+' || s[0] == '-');
    var digits := if signed then s[1..] else s;
    if digits == "" || !IsHex(digits) then None
    else if exists i :: 0 <= i < |digits| && DigitValues(digits)[i] >= base then None
    else
      var n: int := FromDigits(base, DigitValues(digits));
      Some(if signed && s[0] == '-' then -n else n)
  }

  /** big.Int.String. */
  function DecimalText(v: nat): string {
    if v == 0 then "0"
    else
      DigitsOfNumber(10, v);
      Spelled(ToDigits(10, v))
  }

  function Spelled(ds: seq<nat>): (s: string)
    requires AreDigits(10, ds)
    ensures |s| == |ds|
  {
    seq(|ds|, i requires 0 <= i < |ds| => HexDigit(ds[i]))
  }

  lemma DecimalTextRoundTrip(v: nat)
    ensures BigIntOf(DecimalText(v), 10) == Some(v) && !Has0xPrefix(DecimalText(v))
  {
    if v == 0 {
      assert IsHex("0") && DigitValues("0") == [0] && [0][..0] == [];
      assert FromDigits(10, [0]) == 0;
    } else {
      DigitsOfNumber(10, v);
      var ds := ToDigits(10, v);
      var s := Spelled(ds);
      forall i | 0 <= i < |ds|
        ensures HexValue(s[i]) == Some(ds[i]) && s[i] != 'x' && s[i] != 'X' && s[i] != '+' && s[i] != '-'
      {
        HexDigitRoundTrip(ds[i]);
      }
      assert DigitValues(s) == ds;
    }
  }

  /** convertToInt: hexadecimal behind 0x, otherwise decimal. */
  function ParseInteger(text: string): Option<int> {
    if |text| >= 2 && text[0] == '0' && text[1] == 'x' then BigIntOf(text[2..], 16) else BigIntOf(text, 10)
  }

  /** The packer keeps the low 256 bits. */
  function PackedUint(v: int): seq<Byte> {
    Word(v % TWO_256)
  }

  /** An address argument: the last 20 bytes of the decoded address, left-padded. */
  function PackedAddress(a: Address): (w: seq<Byte>)
    requires |a| == ADDRESS_LENGTH
  {
    LeftPad(a[1..], WORD)
  }

  function Packed(signature: seq<Byte>, a: Address, amountText: string): Option<seq<Byte>>
    requires |a| == ADDRESS_LENGTH
  {
    var amount := ParseInteger(amountText);
    if amount.None? then None else Some(signature + PackedAddress(a) + PackedUint(amount.value))
  }

  lemma DecimalTextIsParsed(v: nat)
    ensures ParseInteger(DecimalText(v)) == Some(v)
  {
    DecimalTextRoundTrip(v);
  }

  lemma PackedUintIsWord(v: nat)
    requires v < TWO_256
    ensures PackedUint(v) == Word(v)
  {
    assert v % TWO_256 == v;
  }

  lemma PackedAddressIsAbi(a: Address)
    requires |a| == ADDRESS_LENGTH
    ensures PackedAddress(a) == AbiAddress(a)
  {
  }

  /** The estimator measures the very bytes the transfer will carry. */
  lemma EstimateSimulatesTheTransfer(to: Address, v: nat)
    requires IsTronAddress(to) && v < TWO_256
    ensures Packed(TRANSFER_SELECTOR, to, DecimalText(v)) == FromHexLoose(TransferHex(to, v))
  {
    DecimalTextIsParsed(v);
    PackedUintIsWord(v);
    PackedAddressIsAbi(to);
    TransferIsAbi(to, v);
    assert Packed(TRANSFER_SELECTOR, to, DecimalText(v)) == Some(AbiTransfer(to, v));
  }

  // ----- Return values -----

  function ParseNumeric(data: string): Result<int, Error> {
    var digits := Strip0x(data);
    var n := if |digits| == 64 then BigIntOf(digits, 16) else None;
    if n.Some? then Ok(n.value)
    else if |digits| == 0 then Err(NilResponse)
    else Err(CannotParse)
  }

  function FirstNul(b: seq<Byte>): (i: nat)
    ensures i <= |b|
    ensures i < |b| ==> b[i] == 0
    ensures forall j :: 0 <= j < i ==> b[j] != 0
  {
    if b == [] || b[0] == 0 then 0 else 1 + FirstNul(b[1..])
  }

  /**
    The dynamic ABI form. The length word can be anything; both slices stay within the data,
    the second one computed in wrapping uint64 arithmetic.
   */
  function ParseDynamic(digits: string): Result<seq<Byte>, Error>
    requires 128 < |digits| <= MAX_INT64
  {
    var n := ParseNumeric(digits[64..128]);
    if n.Err? || n.value < 0 || n.value >= TWO_64 then Err(CannotParse)
    else
      var l := n.value;
      if l > (|digits| - 128) / 2 then Err(CannotParse)
      else
        var b := FromHex(digits[128..TextEnd(l)]);
        if b.Some? then Ok(b.value) else Err(CannotParse)
  }

  function TextEnd(l: nat): (end: nat)
    ensures 128 + 2 * l < TWO_64 ==> end == 128 + 2 * l
  {
    (128 + 2 * l % TWO_64) % TWO_64
  }

  /**
    For any length word at all, the guard passes exactly when the text it claims lies inside the
    data, and the wrapping end of the slice is then the true one.
   */
  lemma LengthGuardIsExact(size: nat, l: nat)
    requires 128 < size <= MAX_INT64
    ensures l <= (size - 128) / 2 <==> 128 + 2 * l <= size
    ensures l <= (size - 128) / 2 ==> 128 <= TextEnd(l) == 128 + 2 * l <= size
  {
  }

  /** 32 bytes of text, cut at the first NUL unless that is the first byte. */
  function ParseFixed(utf8Valid: seq<Byte> -> bool, digits: string): Result<seq<Byte>, Error> {
    var b := FromHex(digits);
    if b.None? then Err(CannotParse)
    else
      var i := FirstNul(b.value);
      var text := if 0 < i < |b.value| then b.value[..i] else b.value;
      if utf8Valid(text) then Ok(text) else Err(CannotParse)
  }

  function ParseString(utf8Valid: seq<Byte> -> bool, data: string): Result<seq<Byte>, Error>
    requires |data| <= MAX_INT64
  {
    var digits := Strip0x(data);
    if |digits| > 128 then ParseDynamic(digits)
    else if |digits| == 64 then ParseFixed(utf8Valid, digits)
    else Err(CannotParse)
  }

  /** A word of hex digits is read as the number it holds. */
  lemma WordParses(v: nat)
    requires v < TWO_256
    ensures ParseNumeric(To0xHex(Word(v))) == Ok(v) && ParseNumeric(ToHex(Word(v))) == Ok(v)
  {
    var text := ToHex(Word(v));
    HexIsNot0x(Word(v));
    HexNumberOfBytes(Word(v));
    WordHasValue(v);
    assert HexValue(text[0]).Some?;
  }

  /** The ABI encoding of a string: offset, length, the bytes padded to whole words. */
  function AbiString(s: seq<Byte>): seq<Byte>
    requires |s| < TWO_256
  {
    OffsetWord() + Word(|s|) + s + Padding(|s|)
  }

  /** The word 32, where the data of a single dynamic argument starts. */
  function OffsetWord(): (w: seq<Byte>)
    ensures |w| == WORD
  {
    Zeros(31) + [32]
  }

  function Padding(n: nat): (p: seq<Byte>)
    ensures |p| < WORD && (n + |p|) % WORD == 0
    ensures n % WORD == 0 ==> |p| == 0
  {
    Zeros((WORD - n % WORD) % WORD)
  }

  /** Where the parts of four concatenated byte strings stand in their hex text. */
  ghost predicate Layout(digits: string, b: seq<Byte>, s: seq<Byte>, pad: seq<Byte>) {
    && |digits| == 128 + 2 * |s| + 2 * |pad|
    && digits[64..128] == ToHex(b)
    && digits[128..128 + 2 * |s|] == ToHex(s)
  }

  lemma HexLayout(a: seq<Byte>, b: seq<Byte>, s: seq<Byte>, pad: seq<Byte>)
    requires |a| == |b| == WORD
    ensures Layout(ToHex(a + b + s + pad), b, s, pad)
  {
    ToHexConcat(a, b);
    ToHexConcat(a + b, s);
    ToHexConcat(a + b + s, pad);
    MiddlePart(ToHex(a), ToHex(b), ToHex(s), ToHex(pad));
  }

  lemma MiddlePart(a: string, b: string, c: string, d: string)
    ensures (a + b + c + d)[|a|..|a| + |b|] == b
    ensures (a + b + c + d)[|a| + |b|..|a| + |b| + |c|] == c
  {
  }

  lemma ParseDynamicFinds(digits: string, s: seq<Byte>)
    requires 128 < |digits| <= MAX_INT64 && 128 + 2 * |s| <= |digits|
    requires ParseNumeric(digits[64..128]) == Ok(|s|) && digits[128..128 + 2 * |s|] == ToHex(s)
    ensures ParseDynamic(digits) == Ok(s)
  {
    hide ParseNumeric, FromHex, ToHex, IsHex, TextEnd;
    LengthGuardIsExact(|digits|, |s|);
    HexRoundTrip(s);
  }

  lemma AbiStringLayout(s: seq<Byte>)
    requires |s| < TWO_256
    ensures Layout(ToHex(AbiString(s)), Word(|s|), s, Padding(|s|))
  {
    hide Layout, ToHex, Word, OffsetWord, Padding;
    HexLayout(OffsetWord(), Word(|s|), s, Padding(|s|));
  }

  lemma PaddedLength(n: nat)
    ensures 128 + 2 * n + 2 * |Padding(n)| == 128 <==> n == 0
    ensures 128 + 2 * n + 2 * |Padding(n)| != 64
  {
  }

  /** Every non-empty ABI string comes back exactly; the empty one is refused. */
  lemma AbiStringParses(utf8Valid: seq<Byte> -> bool, s: seq<Byte>)
    requires |s| < TWO_256 && |To0xHex(AbiString(s))| <= MAX_INT64
    ensures ParseString(utf8Valid, To0xHex(AbiString(s))) == if s == [] then Err(CannotParse) else Ok(s)
  {
    hide ParseDynamic, ParseFixed, ParseNumeric, ToHex, To0xHex, Strip0x, Word, AbiString, Padding;
    AbiStringLayout(s);
    HexIsNot0x(AbiString(s));
    WordParses(|s|);
    PaddedLength(|s|);
    To0xHexLength(AbiString(s));
    if s != [] {
      ParseDynamicFinds(ToHex(AbiString(s)), s);
    }
  }

  lemma To0xHexLength(data: seq<Byte>)
    ensures |To0xHex(data)| == |ToHex(data)| + 2
  {
  }

  /** Where the first NUL of a padded text stands. */
  lemma PaddedNul(name: seq<Byte>, pad: nat)
    requires 0 !in name
    ensures FirstNul(name + Zeros(pad)) == |name|
  {
    var data := name + Zeros(pad);
    assert forall j :: 0 <= j < |name| ==> data[j] == name[j] != 0;
    assert pad > 0 ==> data[|name|] == 0;
  }

  lemma ParseFixedFinds(utf8Valid: seq<Byte> -> bool, name: seq<Byte>, pad: nat)
    requires 1 <= |name| && 0 !in name && utf8Valid(name)
    ensures ParseFixed(utf8Valid, ToHex(name + Zeros(pad))) == Ok(name)
  {
    hide FromHex, ToHex, FirstNul, Zeros;
    HexRoundTrip(name + Zeros(pad));
    PaddedNul(name, pad);
    assert (name + Zeros(pad))[..|name|] == name;
    assert pad == 0 ==> name + Zeros(pad) == name;
  }

  /** A NUL-free text of 1 to 32 bytes, right-padded with zeros, comes back exactly. */
  lemma Bytes32Parses(utf8Valid: seq<Byte> -> bool, name: seq<Byte>)
    requires 1 <= |name| <= WORD && 0 !in name && utf8Valid(name)
    ensures ParseString(utf8Valid, To0xHex(name + Zeros(WORD - |name|))) == Ok(name)
  {
    hide ParseDynamic, ParseFixed, ToHex, To0xHex, Strip0x, Zeros;
    var data := name + Zeros(WORD - |name|);
    To0xHexLength(data);
    HexIsNot0x(data);
    ParseFixedFinds(utf8Valid, name, WORD - |name|);
  }
}
