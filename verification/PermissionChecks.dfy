/**
  From a permission update to the signer check (pkg/client/account_permissions.go): what was
  granted is what a signer is allowed. Addresses are decoded by a parameter; the account is
  what the node answered.
 */
module PermissionChecks {
  import opened Wrappers
  import opened Decimals
  import opened Addresses
  import opened Permissions

  datatype UpdateRequest = UpdateRequest(
    owner: Option<Permission>, witnessPermission: Option<Permission>, actives: seq<Option<Permission>>)

  datatype Account = Account(
    address: Address, owner: Option<Permission>, witnessPermission: Option<Permission>, actives: seq<Permission>)

  // ----- Building permissions -----

  method NewPermission(
      decode: string -> Option<Address>, ptype: PermissionType, name: string, threshold: Int64,
      operations: seq<bv8>, keys: seq<(string, Int64)>)
    returns (r: Result<Permission, Error>)
    ensures r.Ok? ==> IsValid(r.value, ptype)
    ensures r.Ok? ==> r.value.operations == operations && r.value.threshold == threshold && r.value.name == name
    ensures r.Ok? ==> |r.value.keys| == |keys| && forall i :: 0 <= i < |keys| ==>
              decode(keys[i].0) == Some(r.value.keys[i].address) && r.value.keys[i].weight == keys[i].1
    ensures r == Err(InvalidAddress) <==> exists i :: 0 <= i < |keys| && decode(keys[i].0) == None
    ensures r.Err? ==> r.error in {InvalidAddress, InvalidPermission}
  {
    var protoKeys: seq<Key> := [];
    for i := 0 to |keys|
      invariant |protoKeys| == i
      invariant forall j :: 0 <= j < i ==>
                  decode(keys[j].0) == Some(protoKeys[j].address) && protoKeys[j].weight == keys[j].1
    {
      var address := decode(keys[i].0);
      if address.None? {
        return Err(InvalidAddress);
      }
      protoKeys := protoKeys + [Key(address.value, keys[i].1)];
    }
    var id := if ptype == Witness then WITNESS_ID else 0;
    var p := Permission(ptype, id, name, threshold, OWNER_ID, operations, protoKeys);
    var verdict := ValidatePermission(Some(p), ptype);
    r := if verdict.Ok? then Ok(p) else Err(verdict.error);
  }

  ghost predicate ValidAs(p: Option<Permission>, want: PermissionType) {
    p.Some? && IsValid(p.value, want)
  }

  ghost predicate UpdateAccepted(req: UpdateRequest) {
    && ValidAs(req.owner, Owner)
    && (req.witnessPermission.Some? ==> ValidAs(req.witnessPermission, Witness))
    && 1 <= |req.actives| <= MAX_ACTIVES
    && forall i :: 0 <= i < |req.actives| ==> ValidAs(req.actives[i], Active)
  }

  method ValidatePermissionUpdate(req: UpdateRequest) returns (r: Result<(), Error>)
    ensures r.Ok? <==> UpdateAccepted(req)
    ensures r.Err? ==> r.error == InvalidPermission
  {
    r := ValidatePermission(req.owner, Owner);
    if r.Err? {
      return;
    }
    if req.witnessPermission.Some? {
      r := ValidatePermission(req.witnessPermission, Witness);
      if r.Err? {
        return;
      }
    }
    if |req.actives| == 0 || |req.actives| > MAX_ACTIVES {
      return Err(InvalidPermission);
    }
    for i := 0 to |req.actives|
      invariant forall j :: 0 <= j < i ==> ValidAs(req.actives[j], Active)
    {
      r := ValidatePermission(req.actives[i], Active);
      if r.Err? {
        return;
      }
    }
    r := Ok(());
  }

  // ----- Looking a permission up -----

  predicate PermissionIDOk(id: Int32) {
    OWNER_ID <= id <= LAST_ACTIVE_ID
  }

  predicate TransactionPermissionIDOk(id: Int32) {
    PermissionIDOk(id) && id != WITNESS_ID
  }

  /** A legacy account without stored permissions is its own owner. */
  function DefaultOwnerPermission(address: Address): Permission {
    Permission(Owner, OWNER_ID, "owner", 1, OWNER_ID, [], [Key(address, 1)])
  }

  function FirstWithId(actives: seq<Permission>, id: Int32): Option<Permission> {
    if actives == [] then None
    else if actives[0].id == id then Some(actives[0])
    else FirstWithId(actives[1..], id)
  }

  function StoredPermission(account: Account, id: Int32): Option<Permission> {
    if id == OWNER_ID then
      if account.owner.Some? then account.owner else Some(DefaultOwnerPermission(account.address))
    else if id == WITNESS_ID then account.witnessPermission
    else FirstWithId(account.actives, id)
  }

  method GetAccountPermission(account: Account, id: Int32) returns (r: Result<Permission, Error>)
    ensures !PermissionIDOk(id) ==> r == Err(InvalidPermissionID)
    ensures PermissionIDOk(id) ==>
              r == match StoredPermission(account, id) case None => Err(PermissionNotFound) case Some(p) => Ok(p)
  {
    if id < OWNER_ID || id > LAST_ACTIVE_ID {
      return Err(InvalidPermissionID);
    }
    var permission: Option<Permission> := None;
    if id == OWNER_ID {
      permission := account.owner;
      if permission.None? {
        permission := Some(DefaultOwnerPermission(account.address));
      }
    } else if id == WITNESS_ID {
      permission := account.witnessPermission;
    } else {
      var i := 0;
      while i < |account.actives| && account.actives[i].id != id
        invariant i <= |account.actives|
        invariant FirstWithId(account.actives, id) == FirstWithId(account.actives[i..], id)
      {
        assert account.actives[i..][1..] == account.actives[i + 1..];
        i := i + 1;
      }
      if i < |account.actives| {
        permission := Some(account.actives[i]);
      }
    }
    r := if permission.None? then Err(PermissionNotFound) else Ok(permission.value);
  }

  // ----- The signer check -----

  /** The weight of the first key with this address. */
  function WeightOf(keys: seq<Key>, signer: Address): Option<Int64> {
    if keys == [] then None
    else if keys[0].address == signer then Some(keys[0].weight)
    else WeightOf(keys[1..], signer)
  }

  predicate SignerReaches(p: Permission, signer: Address) {
    var w := WeightOf(p.keys, signer);
    w.Some? && w.value >= p.threshold
  }

  ghost predicate SignerMay(account: Account, signer: Option<Address>, id: Int32, required: seq<Int32>) {
    && TransactionPermissionIDOk(id)
    && signer.Some?
    && var p := StoredPermission(account, id);
    && p.Some?
    && Usable(p.value, id)
    && Grants(p.value, signer.value, required)
  }

  /** Only the owner's permission may be other than active. */
  predicate Usable(p: Permission, id: Int32) {
    (id != OWNER_ID ==> p.ptype == Active) && p.threshold > 0
  }

  ghost predicate Grants(p: Permission, signer: Address, required: seq<Int32>) {
    SignerReaches(p, signer) && forall typ :: typ in required ==> PermissionAllows(Some(p), typ)
  }

  /** A permission id and a signer that are good enough to look the permission up. */
  predicate Asked(signer: Option<Address>, id: Int32) {
    TransactionPermissionIDOk(id) && signer.Some?
  }

  method ValidatePermissionSigner(account: Account, signer: Option<Address>, id: Int32, required: seq<Int32>)
    returns (r: Result<(), Error>)
    ensures r.Ok? <==> SignerMay(account, signer, id, required)
    ensures !TransactionPermissionIDOk(id) ==> r == Err(InvalidPermissionID)
    ensures TransactionPermissionIDOk(id) && signer.None? ==> r == Err(InvalidAddress)
    ensures Asked(signer, id) && StoredPermission(account, id).None? ==> r == Err(PermissionNotFound)
    ensures Asked(signer, id) && StoredPermission(account, id).Some? ==>
              var p := StoredPermission(account, id).value;
              && (!Usable(p, id) ==> r == Err(InvalidPermission))
              && (Usable(p, id) && !Grants(p, signer.value, required) ==> r == Err(PermissionDenied))
  {
    if !PermissionIDOk(id) || id == WITNESS_ID {
      return Err(InvalidPermissionID);
    }
    if signer.None? {
      return Err(InvalidAddress);
    }
    var got := GetAccountPermission(account, id);
    if got.Err? {
      return Err(got.error);
    }
    var p := got.value;
    if id != OWNER_ID && p.ptype != Active {
      return Err(InvalidPermission);
    }
    if p.threshold <= 0 {
      return Err(InvalidPermission);
    }
    var weight := FindKey(p.keys, signer.value);
    if weight.None? || weight.value < p.threshold {
      return Err(PermissionDenied);
    }
    for i := 0 to |required|
      invariant forall j :: 0 <= j < i ==> PermissionAllows(Some(p), required[j])
    {
      if !PermissionAllows(Some(p), required[i]) {
        return Err(PermissionDenied);
      }
    }
    r := Ok(());
  }

  method FindKey(keys: seq<Key>, signer: Address) returns (weight: Option<Int64>)
    ensures weight == WeightOf(keys, signer)
  {
    for i := 0 to |keys|
      invariant WeightOf(keys, signer) == WeightOf(keys[i..], signer)
    {
      if keys[i].address == signer {
        return Some(keys[i].weight);
      }
      assert keys[i..][1..] == keys[i + 1..];
    }
    weight := None;
  }

  // ----- Grant and check agree -----

  /** The account after the network has applied an accepted update: actives are numbered from 2. */
  function Stored(address: Address, req: UpdateRequest): Account
    requires |req.actives| <= MAX_ACTIVES && forall i :: 0 <= i < |req.actives| ==> req.actives[i].Some?
  {
    Account(address, req.owner, req.witnessPermission,
            seq(|req.actives|, i requires 0 <= i < |req.actives| => req.actives[i].value.(id := FIRST_ACTIVE_ID + i)))
  }

  lemma {:induction false} FirstWithIdFinds(actives: seq<Permission>, i: nat)
    requires i < |actives| && forall j :: 0 <= j < i ==> actives[j].id != actives[i].id
    ensures FirstWithId(actives, actives[i].id) == Some(actives[i])
  {
    if i > 0 {
      FirstWithIdFinds(actives[1..], i - 1);
    }
  }

  /** A key of a valid permission is found with its own weight. */
  lemma {:induction false} WeightOfKey(keys: seq<Key>, i: nat)
    requires DistinctAddresses(keys) && i < |keys|
    ensures WeightOf(keys, keys[i].address) == Some(keys[i].weight)
  {
    if i > 0 {
      assert forall j, k :: 0 <= j < k < |keys[1..]| ==> keys[1..][j] == keys[j + 1] && keys[1..][k] == keys[k + 1];
      WeightOfKey(keys[1..], i - 1);
    }
  }

  lemma {:induction false} WeightOfStranger(keys: seq<Key>, signer: Address)
    requires forall i :: 0 <= i < |keys| ==> keys[i].address != signer
    ensures WeightOf(keys, signer) == None
  {
    if keys != [] {
      WeightOfStranger(keys[1..], signer);
    }
  }

  ghost predicate HoldsThreshold(keys: seq<Key>, signer: Address, threshold: Int64) {
    exists i :: 0 <= i < |keys| && keys[i].address == signer && keys[i].weight >= threshold
  }

  /**
    If an update is accepted and its i-th active was built from the bitmap of `types`, then
    under the id the network gives it a signer may do exactly what was granted: it holds the
    threshold by itself and everything it needs is among `types`.
   */
  lemma GrantIsWhatTheSignerMay(
      address: Address, req: UpdateRequest, i: nat, types: seq<Int32>, signer: Address, required: seq<Int32>)
    requires UpdateAccepted(req) && i < |req.actives|
    requires (forall t :: t in types ==> Registered(t)) && IsBitmapOf(req.actives[i].value.operations, types)
    ensures SignerMay(Stored(address, req), Some(signer), FIRST_ACTIVE_ID + i, required)
       <==> && HoldsThreshold(req.actives[i].value.keys, signer, req.actives[i].value.threshold)
            && forall typ :: typ in required ==> typ in types
  {
    var account := Stored(address, req);
    var id := FIRST_ACTIVE_ID + i;
    assert ValidAs(req.actives[i], Active);
    var p := account.actives[i];
    FirstWithIdFinds(account.actives, i);
    assert StoredPermission(account, id) == Some(p);
    ReachesIffHolds(p, signer);
    forall typ: Int32
      ensures PermissionAllows(Some(p), typ) <==> typ in types
    {
      BitmapAllowsExactly(p, types, typ);
    }
  }

  lemma ReachesIffHolds(p: Permission, signer: Address)
    requires DistinctAddresses(p.keys)
    ensures SignerReaches(p, signer) <==> HoldsThreshold(p.keys, signer, p.threshold)
  {
    if k :| 0 <= k < |p.keys| && p.keys[k].address == signer {
      WeightOfKey(p.keys, k);
    } else {
      WeightOfStranger(p.keys, signer);
    }
  }

  /** The ids the network hands out are legal for transactions, distinct and within the active range. */
  lemma AssignedIdsAreLegal(address: Address, req: UpdateRequest)
    requires UpdateAccepted(req)
    ensures var actives := Stored(address, req).actives;
            && (forall i :: 0 <= i < |actives| ==>
                  TransactionPermissionIDOk(actives[i].id) && IsValid(actives[i], Active))
            && (forall i, j :: 0 <= i < j < |actives| ==> actives[i].id != actives[j].id)
  {
    assert forall i :: 0 <= i < |req.actives| ==> ValidAs(req.actives[i], Active);
  }

  // ----- The order of the keys does not matter -----

  /** The weight of a key, or with an address given, whether the key has it. */
  function Measure(a: Option<Address>, k: Key): int {
    match a
    case None => k.weight
    case Some(address) => if k.address == address then 1 else 0
  }

  function Total(a: Option<Address>, keys: seq<Key>): int {
    if keys == [] then 0 else Total(a, keys[..|keys| - 1]) + Measure(a, keys[|keys| - 1])
  }

  lemma {:induction false} TotalIsSum(keys: seq<Key>)
    ensures Total(None, keys) == SumWeights(keys)
  {
    if keys != [] {
      TotalIsSum(keys[..|keys| - 1]);
    }
  }

  lemma {:induction false} TotalConcat(a: Option<Address>, x: seq<Key>, y: seq<Key>)
    ensures Total(a, x + y) == Total(a, x) + Total(a, y)
  {
    if y == [] {
      assert x + y == x;
    } else {
      TotalConcat(a, x, y[..|y| - 1]);
      assert (x + y)[..|x + y| - 1] == x + y[..|y| - 1];
    }
  }

  lemma MultisetWithout(y: seq<Key>, i: nat)
    requires i < |y|
    ensures multiset(y) == multiset(y[..i] + y[i + 1..]) + multiset{y[i]}
  {
    assert y == y[..i] + [y[i]] + y[i + 1..];
  }

  lemma TookSame(m: multiset<Key>, x: multiset<Key>, y: multiset<Key>, k: Key)
    requires m == x + multiset{k} && m == y + multiset{k}
    ensures x == y
  {
    assert x == m - multiset{k} && y == m - multiset{k};
  }

  /** Two permutations of each other stay so when the last key of one is taken out of both. */
  lemma TakeOut(x: seq<Key>, y: seq<Key>) returns (i: nat)
    requires multiset(x) == multiset(y) && x != []
    ensures i < |y| && y[i] == x[|x| - 1]
    ensures multiset(x[..|x| - 1]) == multiset(y[..i] + y[i + 1..])
  {
    var last := |x| - 1;
    i := FindSame(x, y);
    MultisetWithout(x, last);
    MultisetWithout(y, i);
    assert x[..last] + x[last + 1..] == x[..last];
    TookSame(multiset(x), multiset(x[..last]), multiset(y[..i] + y[i + 1..]), y[i]);
  }

  lemma FindSame(x: seq<Key>, y: seq<Key>) returns (i: nat)
    requires multiset(x) == multiset(y) && x != []
    ensures i < |y| && y[i] == x[|x| - 1]
  {
    assert x[|x| - 1] in multiset(x);
    i :| 0 <= i < |y| && y[i] == x[|x| - 1];
  }

  lemma {:induction false} TotalOfPermutation(a: Option<Address>, x: seq<Key>, y: seq<Key>)
    requires multiset(x) == multiset(y)
    ensures Total(a, x) == Total(a, y)
    decreases |x|
  {
    if x == [] {
      assert |multiset(y)| == 0;
    } else {
      var i := TakeOut(x, y);
      TotalOfPermutation(a, x[..|x| - 1], y[..i] + y[i + 1..]);
      TotalWithout(a, y, i);
    }
  }

  lemma TotalWithout(a: Option<Address>, y: seq<Key>, i: nat)
    requires i < |y|
    ensures Total(a, y) == Total(a, y[..i] + y[i + 1..]) + Measure(a, y[i])
  {
    TotalConcat(a, y[..i], y[i + 1..]);
    TotalConcat(a, y[..i + 1], y[i + 1..]);
    assert y == y[..i + 1] + y[i + 1..];
    assert y[..i + 1][..i] == y[..i];
  }

  lemma {:induction false} AtMostOneEach(keys: seq<Key>)
    ensures DistinctAddresses(keys) <==> forall a :: Total(Some(a), keys) <= 1
    ensures forall a :: 0 <= Total(Some(a), keys)
    ensures forall a :: Total(Some(a), keys) == 0 <==> forall i :: 0 <= i < |keys| ==> keys[i].address != a
  {
    if keys != [] {
      var front, k := keys[..|keys| - 1], keys[|keys| - 1];
      AtMostOneEach(front);
      assert forall a :: Total(Some(a), keys) == Total(Some(a), front) + Measure(Some(a), k);
      assert DistinctAddresses(keys) <==> DistinctAddresses(front) && Total(Some(k.address), front) == 0;
      assert Total(Some(k.address), keys) == Total(Some(k.address), front) + 1;
    }
  }

  /** The validator's verdict does not depend on the order of the keys. */
  lemma VerdictIgnoresKeyOrder(p: Permission, keys: seq<Key>, want: PermissionType)
    requires multiset(keys) == multiset(p.keys)
    ensures IsValid(p.(keys := keys), want) <==> IsValid(p, want)
  {
    assert |keys| == |multiset(keys)| == |p.keys|;
    TotalOfPermutation(None, keys, p.keys);
    TotalIsSum(keys);
    TotalIsSum(p.keys);
    SameKeysSameDistinctness(keys, p.keys);
    assert forall k :: k in keys <==> k in multiset(keys);
    assert forall k :: k in p.keys <==> k in multiset(p.keys);
    AllWellFormed(keys);
    AllWellFormed(p.keys);
  }

  lemma SameKeysSameDistinctness(x: seq<Key>, y: seq<Key>)
    requires multiset(x) == multiset(y)
    ensures DistinctAddresses(x) <==> DistinctAddresses(y)
  {
    AtMostOneEach(x);
    AtMostOneEach(y);
    forall a: Address
      ensures Total(Some(a), x) == Total(Some(a), y)
    {
      TotalOfPermutation(Some(a), x, y);
    }
  }

  lemma AllWellFormed(keys: seq<Key>)
    ensures (forall i :: 0 <= i < |keys| ==> WellFormedKey(keys[i])) <==> forall k :: k in keys ==> WellFormedKey(k)
  {
  }

  // ----- Selecting the permission of a transaction -----

  class TxContract {
    var permissionId: Int32
  }

  datatype Transaction = Transaction(signatures: nat, contracts: seq<TxContract?>)

  /**
    Writes the id into every contract of the raw data. `hashable` says whether the new txid can
    be computed. Every refusal leaves the contracts alone, except a failing hash, which comes
    after the ids have been written.
   */
  method SetPermissionID(tx: Option<Transaction>, id: Int32, hashable: bool) returns (r: Result<(), Error>)
    modifies set c: TxContract | tx.Some? && c in tx.value.contracts
    ensures r.Ok? ==> tx.Some? && forall c :: c in tx.value.contracts ==> c != null && c.permissionId == id
    ensures r.Ok? <==> hashable && Settable(tx, id)
    ensures r.Err? && !(tx.Some? && Settable(tx, id)) ==>
              tx.Some? ==> forall c :: c in tx.value.contracts && c != null ==> c.permissionId == old(c.permissionId)
    ensures r.Err? ==> r.error == if TransactionPermissionIDOk(id) then InvalidTransaction else InvalidPermissionID
  {
    if !TransactionPermissionIDOk(id) {
      return Err(InvalidPermissionID);
    }
    if tx.None? || tx.value.signatures != 0 || |tx.value.contracts| == 0 {
      return Err(InvalidTransaction);
    }
    var contracts := tx.value.contracts;
    for i := 0 to |contracts|
      invariant forall j :: 0 <= j < i ==> contracts[j] != null
    {
      if contracts[i] == null {
        assert null in contracts;
        return Err(InvalidTransaction);
      }
    }
    for i := 0 to |contracts|
      invariant forall j :: 0 <= j < i ==> contracts[j].permissionId == id
    {
      assert contracts[i] in tx.value.contracts;
      contracts[i].permissionId := id;
    }
    if !hashable {
      return Err(InvalidTransaction);
    }
    r := Ok(());
  }

  predicate Settable(tx: Option<Transaction>, id: Int32) {
    && TransactionPermissionIDOk(id)
    && tx.Some? && tx.value.signatures == 0 && tx.value.contracts != [] && null !in tx.value.contracts
  }
}
