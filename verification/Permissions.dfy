/**
  Account permissions (pkg/client/account_permissions.go): the operations bitmap, the validator
  of a permission and of a whole update, and the signer check.
 */
module Permissions {
  import opened Wrappers
  import opened Decimals
  import opened Addresses

  const OPERATIONS_LENGTH := 32
  const MAX_ACTIVES := 8
  const OWNER_ID := 0
  const WITNESS_ID := 1
  const FIRST_ACTIVE_ID := 2
  const LAST_ACTIVE_ID := 9
  const MAX_NAME_UTF16 := 32

  type Int32 = x: int | -0x8000_0000 <= x < 0x8000_0000

  datatype Error =
    | InvalidAddress | InvalidPermission | InvalidPermissionID | PermissionNotFound | PermissionDenied | InvalidTransaction

  datatype PermissionType = Owner | Witness | Active | UnknownType

  datatype Key = Key(address: Address, weight: Int64)

  datatype Permission = Permission(
    ptype: PermissionType, id: Int32, name: string, threshold: Int64, parentId: Int32,
    operations: seq<bv8>, keys: seq<Key>)

  // ----- The operations bitmap -----

  /** The contract type ids the vendored protobuf knows. */
  predicate Registered(id: int) {
    || 0 <= id <= 6 || 8 <= id <= 20 || 30 <= id <= 33 || 41 <= id <= 46
    || id == 48 || id == 49 || 51 <= id <= 59
  }

  function Mask(bit: int): bv8
    requires 0 <= bit < 8
  {
    match bit
    case 0 => 1
    case 1 => 2
    case 2 => 4
    case 3 => 8
    case 4 => 16
    case 5 => 32
    case 6 => 64
    case 7 => 128
  }

  /** The byte index and mask of a contract type, if it has a bit. */
  function ContractOperationBit(id: Int32): (r: Option<(nat, bv8)>)
    ensures r.Some? <==> Registered(id)
    ensures r.Some? ==> r.value.0 == id / 8 < OPERATIONS_LENGTH
  {
    if id < 0 || id >= OPERATIONS_LENGTH * 8 then None
    else if !Registered(id) then None
    else Some((id / 8, Mask(id % 8)))
  }

  predicate BitSet(b: bv8, k: int)
    requires 0 <= k < 8
  {
    b & Mask(k) != 0
  }

  function SetBit(b: bv8, k: int): bv8
    requires 0 <= k < 8
  {
    b | Mask(k)
  }

  predicate HasBit(operations: seq<bv8>, id: nat)
    requires id < 8 * |operations|
  {
    BitSet(operations[id / 8], id % 8)
  }

  lemma OrMask(b: bv8, j: int, k: int)
    requires 0 <= j < 8 && 0 <= k < 8
    ensures BitSet(SetBit(b, j), k) <==> j == k || BitSet(b, k)
  {
    if j == k {
      OrSame(b, k);
    } else {
      assert Mask(j) & Mask(k) == 0 by {
        DistinctMasks(j, k);
      }
      OrOther(b, Mask(j), Mask(k));
    }
  }

  lemma OrSame(b: bv8, k: int)
    requires 0 <= k < 8
    ensures (b | Mask(k)) & Mask(k) == Mask(k) != 0
  {
    assert (b | Mask(k)) & Mask(k) == Mask(k);
  }

  lemma DistinctMasks(j: int, k: int)
    requires 0 <= j < 8 && 0 <= k < 8 && j != k
    ensures Mask(j) & Mask(k) == 0
  {
  }

  lemma OrOther(b: bv8, m: bv8, n: bv8)
    requires m & n == 0
    ensures (b | m) & n == b & n
  {
  }

  /** The bitmap of exactly the contract types given; refused when one of them is not registered. */
  method ContractOperations(types: seq<Int32>) returns (r: Result<seq<bv8>, Error>)
    ensures r.Ok? <==> forall typ :: typ in types ==> Registered(typ)
    ensures r.Err? ==> r.error == InvalidPermission
    ensures r.Ok? ==> |r.value| == OPERATIONS_LENGTH && IsBitmapOf(r.value, types)
  {
    var operations := new bv8[OPERATIONS_LENGTH](_ => 0);
    assert forall id :: 0 <= id < 256 ==> !HasBit(operations[..], id) by {
      forall id | 0 <= id < 256
        ensures !HasBit(operations[..], id)
      {
        ZeroHasNoBits(Mask(id % 8));
      }
    }
    for i := 0 to |types|
      invariant forall typ :: typ in types[..i] ==> Registered(typ)
      invariant IsBitmapOf(operations[..], types[..i])
    {
      var bit := ContractOperationBit(types[i]);
      if bit.None? {
        assert types[i] in types;
        return Err(InvalidPermission);
      }
      ghost var before := operations[..];
      operations[bit.value.0] := operations[bit.value.0] | bit.value.1;
      assert operations[..] == WithBit(before, types[i]);
      WithBitAdds(before, types[..i], types[i]);
      assert types[..i + 1] == types[..i] + [types[i]];
    }
    assert types[..|types|] == types;
    r := Ok(operations[..]);
  }

  lemma ZeroHasNoBits(m: bv8)
    ensures 0 & m == 0
  {
  }

  function WithBit(operations: seq<bv8>, id: nat): seq<bv8>
    requires id < 8 * |operations|
  {
    operations[id / 8 := SetBit(operations[id / 8], id % 8)]
  }

  ghost predicate IsBitmapOf(operations: seq<bv8>, types: seq<Int32>) {
    |operations| == OPERATIONS_LENGTH && forall id :: 0 <= id < 256 ==> (HasBit(operations, id) <==> id in types)
  }

  lemma WithBitSets(operations: seq<bv8>, id: nat, k: nat)
    requires id < 8 * |operations| && k < 8 * |operations|
    ensures HasBit(WithBit(operations, id), k) <==> (id / 8 == k / 8 && id % 8 == k % 8) || HasBit(operations, k)
  {
    hide BitSet, SetBit;
    SetInByte(operations, id / 8, id % 8, k / 8, k % 8);
  }

  lemma SetInByte(operations: seq<bv8>, i: nat, a: int, j: nat, b: int)
    requires i < |operations| && j < |operations| && 0 <= a < 8 && 0 <= b < 8
    ensures BitSet(operations[i := SetBit(operations[i], a)][j], b) <==> (i == j && a == b) || BitSet(operations[j], b)
  {
    hide BitSet, SetBit;
    if i == j {
      OrMask(operations[j], a, b);
    }
  }

  lemma SameBit(id: nat, k: nat)
    ensures id == k <==> id / 8 == k / 8 && id % 8 == k % 8
  {
  }

  lemma WithBitAdds(operations: seq<bv8>, types: seq<Int32>, id: Int32)
    requires IsBitmapOf(operations, types) && 0 <= id < 256
    ensures IsBitmapOf(WithBit(operations, id), types + [id])
  {
    forall k: Int32 | 0 <= k < 256
      ensures HasBit(WithBit(operations, id), k) <==> k in types + [id]
    {
      WithBitSets(operations, id, k);
      SameBit(id, k);
      assert HasBit(operations, k) <==> k in types;
    }
  }

  predicate PermissionAllows(permission: Option<Permission>, typ: Int32) {
    match permission
    case None => false
    case Some(p) =>
      match p.ptype
      case Owner => ContractOperationBit(typ).Some?
      case Active =>
        var bit := ContractOperationBit(typ);
        && bit.Some?
        && bit.value.0 < |p.operations|
        && p.operations[bit.value.0] & bit.value.1 != 0
      case _ => false
  }

  /** An active permission built from ContractOperations(types) allows exactly those types. */
  lemma BitmapAllowsExactly(p: Permission, types: seq<Int32>, typ: Int32)
    requires p.ptype == Active && IsBitmapOf(p.operations, types)
    requires forall t :: t in types ==> Registered(t)
    ensures PermissionAllows(Some(p), typ) <==> typ in types
  {
    if Registered(typ) {
      assert HasBit(p.operations, typ) <==> typ in types;
    }
  }

  // ----- Validating a permission -----

  /** The UTF-16 length of a name: two units for a rune outside the basic plane. */
  function Utf16Length(name: string): nat {
    if name == "" then 0
    else (if name[0] as int < 0x10000 then 1 else 2) + Utf16Length(name[1..])
  }

  function SumWeights(keys: seq<Key>): int {
    if keys == [] then 0 else SumWeights(keys[..|keys| - 1]) + keys[|keys| - 1].weight
  }

  predicate WellFormedKey(k: Key) {
    IsTronAddress(k.address) && k.weight > 0
  }

  ghost predicate DistinctAddresses(keys: seq<Key>) {
    forall i, j :: 0 <= i < j < |keys| ==> keys[i].address != keys[j].address
  }

  predicate IdFits(id: Int32, want: PermissionType) {
    match want
    case Owner => id == OWNER_ID
    case Witness => id == WITNESS_ID
    case Active => id == 0 || FIRST_ACTIVE_ID <= id <= LAST_ACTIVE_ID
    case UnknownType => true
  }

  predicate OperationsFit(operations: seq<bv8>, want: PermissionType) {
    |operations| == if want == Active then OPERATIONS_LENGTH else 0
  }

  ghost predicate KeysFit(keys: seq<Key>, threshold: int) {
    && (forall i :: 0 <= i < |keys| ==> WellFormedKey(keys[i]))
    && DistinctAddresses(keys)
    && threshold <= SumWeights(keys) <= MAX_INT64
  }

  /** What a permission of type `want` has to be. */
  ghost predicate IsValid(p: Permission, want: PermissionType) {
    && p.ptype == want
    && p.parentId == OWNER_ID
    && IdFits(p.id, want)
    && Utf16Length(p.name) <= MAX_NAME_UTF16
    && p.threshold > 0
    && p.keys != []
    && (want == Witness ==> |p.keys| == 1)
    && KeysFit(p.keys, p.threshold)
    && OperationsFit(p.operations, want)
  }

  method ValidatePermission(permission: Option<Permission>, want: PermissionType) returns (r: Result<(), Error>)
    ensures r.Ok? <==> permission.Some? && IsValid(permission.value, want)
    ensures r.Err? ==> r.error == InvalidPermission
  {
    if permission.None? {
      return Err(InvalidPermission);
    }
    var p := permission.value;
    if p.ptype != want || p.parentId != OWNER_ID || !IdFits(p.id, want) {
      return Err(InvalidPermission);
    }
    if Utf16Length(p.name) > MAX_NAME_UTF16 || p.threshold <= 0 || |p.keys| == 0 {
      return Err(InvalidPermission);
    }
    if want == Witness && |p.keys| != 1 {
      return Err(InvalidPermission);
    }
    var total := CheckKeys(p.keys);
    if total.None? || total.value < p.threshold {
      return Err(InvalidPermission);
    }
    if !OperationsFit(p.operations, want) {
      return Err(InvalidPermission);
    }
    r := Ok(());
  }

  /** The key loop: the running int64 total never overflows and is always the exact prefix sum. */
  method CheckKeys(keys: seq<Key>) returns (r: Option<Int64>)
    ensures r.Some? <==> KeysFit(keys, SumWeights(keys))
    ensures r.Some? ==> r.value == SumWeights(keys)
  {
    var total: Int64 := 0;
    var addresses: set<Address> := {};
    for i := 0 to |keys|
      invariant total == SumWeights(keys[..i])
      invariant forall j :: 0 <= j < i ==> WellFormedKey(keys[j])
      invariant DistinctAddresses(keys[..i])
      invariant forall a :: a in addresses <==> exists j :: 0 <= j < i && keys[j].address == a
    {
      var key := keys[i];
      assert keys[..i + 1][..i] == keys[..i];
      if |key.address| != ADDRESS_LENGTH || key.address[0] != TRON_PREFIX || key.weight <= 0 {
        return None;
      }
      if total > MAX_INT64 - key.weight {
        OverflowIsFinal(keys, i + 1);
        return None;
      }
      if key.address in addresses {
        return None;
      }
      addresses := addresses + {key.address};
      total := total + key.weight;
    }
    assert keys[..|keys|] == keys;
    r := Some(total);
  }

  /** With positive weights a prefix that is too heavy makes the whole list too heavy. */
  lemma {:induction false} OverflowIsFinal(keys: seq<Key>, i: nat)
    requires i <= |keys| && SumWeights(keys[..i]) > MAX_INT64
    ensures !KeysFit(keys, SumWeights(keys))
    decreases |keys| - i
  {
    if i == |keys| {
      assert keys[..i] == keys;
    } else if keys[i].weight > 0 {
      assert keys[..i + 1][..i] == keys[..i];
      OverflowIsFinal(keys, i + 1);
    } else {
      assert !WellFormedKey(keys[i]);
    }
  }
}
