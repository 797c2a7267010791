/**
 * ResourceLedger: accounts per resource kind and device, edited in place, and
 * the leases that hold shares of them. Amounts are 64-bit unsigned integers
 * that wrap around where the source adds without a check.
 */
module ResourceLedger {
  import opened Wrappers

  const LIMIT: int := 0x1_0000_0000_0000_0000

  type U64 = x: int | 0 <= x < LIMIT

  function Add64(a: U64, b: U64): U64 {
    if a + b < LIMIT then a + b else a + b - LIMIT
  }

  datatype Key = Key(kind: nat, device: int)
  datatype Amount = Amount(key: Key, amount: U64)
  datatype Account = Account(capacity: Option<U64>, reserved: U64, peak: U64)

  // -------------------------------------------------------------------------
  // Lists of amounts

  /** What a list asks of an account; equal keys add up, modulo the word size. */
  function Of(list: seq<Amount>, k: Key): U64 {
    if list == [] then 0
    else
      var last := list[|list| - 1];
      Add64(Of(list[..|list| - 1], k), if last.key == k then last.amount else 0)
  }

  predicate UniqueKeys(list: seq<Amount>) {
    forall i, j :: 0 <= i < j < |list| ==> list[i].key != list[j].key
  }

  lemma {:induction false} OfAbsent(list: seq<Amount>, k: Key)
    requires forall i :: 0 <= i < |list| ==> list[i].key != k
    ensures Of(list, k) == 0
  {
    if list != [] {
      OfAbsent(list[..|list| - 1], k);
    }
  }

  lemma {:induction false} OfUnique(list: seq<Amount>, i: nat)
    requires UniqueKeys(list) && i < |list|
    ensures Of(list, list[i].key) == list[i].amount
  {
    var front := list[..|list| - 1];
    if i == |list| - 1 {
      OfAbsent(front, list[i].key);
    } else {
      OfUnique(front, i);
    }
  }

  function Find(list: seq<Amount>, k: Key): (i: nat)
    ensures i <= |list| && (i < |list| ==> list[i].key == k)
    ensures forall j :: 0 <= j < i ==> list[j].key != k
  {
    if list == [] || list[0].key == k then 0 else 1 + Find(list[1..], k)
  }

  lemma {:induction false} OfSet(list: seq<Amount>, i: nat, a: U64, k: Key)
    requires UniqueKeys(list) && i < |list|
    ensures Of(list[i := Amount(list[i].key, a)], k) == if k == list[i].key then a else Of(list, k)
    ensures UniqueKeys(list[i := Amount(list[i].key, a)])
  {
    var more := list[i := Amount(list[i].key, a)];
    if k == list[i].key {
      OfUnique(more, i);
    } else {
      OfOther(list, i, a, k);
    }
  }

  lemma {:induction false} OfOther(list: seq<Amount>, i: nat, a: U64, k: Key)
    requires i < |list| && k != list[i].key
    ensures Of(list[i := Amount(list[i].key, a)], k) == Of(list, k)
  {
    var n := |list| - 1;
    if i < n {
      OfOther(list[..n], i, a, k);
      assert list[i := Amount(list[i].key, a)][..n] == list[..n][i := Amount(list[i].key, a)];
    } else {
      assert list[i := Amount(list[i].key, a)][..n] == list[..n];
    }
  }

  lemma {:induction false} OfPush(list: seq<Amount>, a: Amount, k: Key)
    ensures Of(list + [a], k) == Add64(Of(list, k), if a.key == k then a.amount else 0)
  {
    assert (list + [a])[..|list|] == list;
  }

  /** What a list asks of an account, without a word size. */
  ghost function Asked(list: seq<Amount>, k: Key): nat {
    if list == [] then 0
    else
      var last := list[|list| - 1];
      Asked(list[..|list| - 1], k) + if last.key == k then last.amount else 0
  }

  /** The word holds the sum as long as it fits, and the rest of it by the word size otherwise. */
  lemma {:induction false} OfIsSum(list: seq<Amount>, k: Key) returns (wraps: nat)
    ensures Asked(list, k) == Of(list, k) + wraps * LIMIT
    ensures Asked(list, k) < LIMIT ==> Of(list, k) == Asked(list, k)
  {
    wraps := 0;
    if list != [] {
      var front, last := list[..|list| - 1], list[|list| - 1];
      wraps := OfIsSum(front, k);
      if Of(front, k) + (if last.key == k then last.amount else 0) >= LIMIT {
        wraps := wraps + 1;
      }
    }
  }

  /** One entry per key, with what the list asks of that key. */
  method MergeAmounts(list: seq<Amount>) returns (out: seq<Amount>)
    ensures UniqueKeys(out) && forall k :: Of(out, k) == Of(list, k)
  {
    out := [];
    for i := 0 to |list|
      invariant UniqueKeys(out) && forall k :: Of(out, k) == Of(list[..i], k)
    {
      var a := list[i];
      assert list[..i + 1][..i] == list[..i];
      if a.amount != 0 {
        var j := Find(out, a.key);
        ghost var before := out;
        if j < |out| {
          OfUnique(out, j);
          out := out[j := Amount(a.key, Add64(out[j].amount, a.amount))];
          forall k ensures Of(out, k) == Of(list[..i + 1], k) {
            OfSet(before, j, Add64(before[j].amount, a.amount), k);
          }
          OfSet(before, j, Add64(before[j].amount, a.amount), a.key);
        } else {
          out := out + [a];
          forall k ensures Of(out, k) == Of(list[..i + 1], k) {
            OfPush(before, a, k);
          }
        }
      }
    }
    assert list[..|list|] == list;
  }

  // -------------------------------------------------------------------------
  // Sums over leases

  type Leases = map<nat, seq<Amount>>

  ghost function Sum(leases: Leases, k: Key): nat {
    if leases == map[] then 0
    else
      var id :| id in leases;
      Of(leases[id], k) + Sum(leases - {id}, k)
  }

  lemma {:induction false} SumSplit(leases: Leases, id: nat, k: Key)
    requires id in leases
    ensures Sum(leases, k) == Of(leases[id], k) + Sum(leases - {id}, k)
    decreases |leases|
  {
    var x :| x in leases && Sum(leases, k) == Of(leases[x], k) + Sum(leases - {x}, k);
    if x != id {
      SumSplit(leases - {x}, id, k);
      SumSplit(leases - {id}, x, k);
      assert leases - {x} - {id} == leases - {id} - {x};
    }
  }

  lemma {:induction false} SumSet(leases: Leases, id: nat, list: seq<Amount>, k: Key)
    ensures Sum(leases[id := list], k) == Sum(leases - {id}, k) + Of(list, k)
  {
    SumSplit(leases[id := list], id, k);
    assert leases[id := list] - {id} == leases - {id};
  }

  lemma {:induction false} SumNew(leases: Leases, id: nat, list: seq<Amount>, k: Key)
    requires id !in leases
    ensures Sum(leases[id := list], k) == Sum(leases, k) + Of(list, k)
  {
    SumSet(leases, id, list, k);
    assert leases - {id} == leases;
  }

  // -------------------------------------------------------------------------
  // Accounts

  type Accounts = map<Key, Account>

  function Reserved(accounts: Accounts, k: Key): U64 {
    if k in accounts then accounts[k].reserved else 0
  }

  function CapacityOf(accounts: Accounts, k: Key): Option<U64> {
    if k in accounts then accounts[k].capacity else None
  }

  /** An account without a capacity is unlimited. */
  predicate Fits(accounts: Accounts, k: Key, amount: U64) {
    CapacityOf(accounts, k).None? || amount == 0 || Reserved(accounts, k) + amount <= CapacityOf(accounts, k).value
  }

  function Charge(accounts: Accounts, a: Amount): Accounts {
    var acc := if a.key in accounts then accounts[a.key] else Account(None, 0, 0);
    var reserved := Add64(acc.reserved, a.amount);
    accounts[a.key := Account(acc.capacity, reserved, if acc.peak < reserved then reserved else acc.peak)]
  }

  /** Never below zero, whatever is given back. */
  function Less(have: U64, a: U64): U64 {
    if have > a then have - a else 0
  }

  function Refund(accounts: Accounts, a: Amount): Accounts {
    if a.key !in accounts then accounts
    else accounts[a.key := accounts[a.key].(reserved := Less(accounts[a.key].reserved, a.amount))]
  }

  /** before and after differ in what is reserved only. */
  ghost predicate SameCapacities(before: Accounts, after: Accounts) {
    forall k :: CapacityOf(after, k) == CapacityOf(before, k)
  }

  ghost predicate Charged(before: Accounts, list: seq<Amount>, after: Accounts) {
    SameCapacities(before, after) && forall k :: Reserved(after, k) == Add64(Reserved(before, k), Of(list, k))
  }

  ghost predicate Refunded(before: Accounts, list: seq<Amount>, after: Accounts) {
    SameCapacities(before, after) && forall k :: Reserved(after, k) == Less(Reserved(before, k), Of(list, k))
  }

  lemma {:induction false} ChargeMore(before: Accounts, list: seq<Amount>, after: Accounts, a: Amount)
    requires Charged(before, list, after)
    ensures Charged(before, list + [a], Charge(after, a))
  {
    forall k ensures Reserved(Charge(after, a), k) == Add64(Reserved(before, k), Of(list + [a], k)) {
      OfPush(list, a, k);
    }
  }

  lemma {:induction false} RefundMore(before: Accounts, list: seq<Amount>, after: Accounts, a: Amount)
    requires Refunded(before, list, after) && UniqueKeys(list + [a])
    ensures Refunded(before, list + [a], Refund(after, a))
  {
    forall k ensures Reserved(Refund(after, a), k) == Less(Reserved(before, k), Of(list + [a], k)) {
      OfPush(list, a, k);
      if k == a.key {
        forall i | 0 <= i < |list| ensures list[i].key != k {
          assert (list + [a])[i] == list[i] && (list + [a])[|list|] == a;
        }
        OfAbsent(list, k);
      }
    }
  }

  ghost predicate AllFit(accounts: Accounts, list: seq<Amount>) {
    forall k :: Fits(accounts, k, Of(list, k))
  }

  /** No limited account is asked for more than it has left. */
  ghost predicate NoneShort(accounts: Accounts, list: seq<Amount>) {
    forall k :: k in accounts && accounts[k].capacity.Some? && Of(list, k) > 0 ==>
      accounts[k].reserved + Of(list, k) <= accounts[k].capacity.value
  }

  lemma {:induction false} FitIffNoneShort(accounts: Accounts, list: seq<Amount>)
    ensures AllFit(accounts, list) <==> NoneShort(accounts, list)
  {
    if AllFit(accounts, list) {
      forall k | k in accounts && accounts[k].capacity.Some? && Of(list, k) > 0
        ensures accounts[k].reserved + Of(list, k) <= accounts[k].capacity.value
      {
        assert Fits(accounts, k, Of(list, k));
      }
    }
    if NoneShort(accounts, list) {
      forall k ensures Fits(accounts, k, Of(list, k)) {
      }
    }
  }

  // -------------------------------------------------------------------------
  // Peaks

  function PeakOf(accounts: Accounts, k: Key): U64 {
    if k in accounts then accounts[k].peak else 0
  }

  /** Accounts that are charged note a new high, and only they. */
  ghost predicate Peaked(before: Accounts, list: seq<Amount>, after: Accounts) {
    forall k :: PeakOf(after, k) ==
      if Named(list, k) && Reserved(after, k) > PeakOf(before, k) then Reserved(after, k) else PeakOf(before, k)
  }

  ghost predicate SamePeaks(before: Accounts, after: Accounts) {
    forall k :: PeakOf(after, k) == PeakOf(before, k)
  }

  lemma {:induction false} PeakMore(before: Accounts, list: seq<Amount>, after: Accounts, a: Amount)
    requires Peaked(before, list, after) && !Named(list, a.key)
    ensures Peaked(before, list + [a], Charge(after, a))
  {
    forall k ensures PeakOf(Charge(after, a), k) ==
        if Named(list + [a], k) && Reserved(Charge(after, a), k) > PeakOf(before, k)
        then Reserved(Charge(after, a), k) else PeakOf(before, k) {
      NamedPush(list, a, k);
    }
  }

  lemma {:induction false} FitsListed(accounts: Accounts, list: seq<Amount>)
    requires UniqueKeys(list)
    ensures AllFit(accounts, list) <==> forall i :: 0 <= i < |list| ==> Fits(accounts, list[i].key, list[i].amount)
  {
    if AllFit(accounts, list) {
      forall i | 0 <= i < |list| ensures Fits(accounts, list[i].key, list[i].amount) {
        OfUnique(list, i);
      }
    }
    if forall i :: 0 <= i < |list| ==> Fits(accounts, list[i].key, list[i].amount) {
      forall k ensures Fits(accounts, k, Of(list, k)) {
        var i := Find(list, k);
        if i < |list| {
          OfUnique(list, i);
        } else {
          OfAbsent(list, k);
        }
      }
    }
  }

  /** Adding the amounts stays within 64 bits on every account. */
  ghost predicate Room(accounts: Accounts, list: seq<Amount>) {
    forall k :: Reserved(accounts, k) + Of(list, k) < LIMIT
  }

  // -------------------------------------------------------------------------
  // Growth and shrinkage of a lease

  /** grow and shrink are the differences between what is held and what is wanted. */
  ghost predicate Differ(held: seq<Amount>, wanted: seq<Amount>, grow: seq<Amount>, shrink: seq<Amount>) {
    && UniqueKeys(grow) && UniqueKeys(shrink)
    && forall k :: Of(grow, k) == Less(Of(wanted, k), Of(held, k)) && Of(shrink, k) == Less(Of(held, k), Of(wanted, k))
  }

  method Differences(held: seq<Amount>, wanted: seq<Amount>) returns (grow: seq<Amount>, shrink: seq<Amount>)
    requires UniqueKeys(held) && UniqueKeys(wanted)
    ensures Differ(held, wanted, grow, shrink)
  {
    grow, shrink := [], [];
    for i := 0 to |wanted|
      invariant ListsUpTo(held, wanted, grow, i, true) && ListsUpTo(held, wanted, shrink, i, false)
    {
      var a := wanted[i];
      var j := Find(held, a.key);
      var have := if j < |held| then held[j].amount else 0;
      if j < |held| {
        OfUnique(held, j);
      } else {
        OfAbsent(held, a.key);
      }
      OfUnique(wanted, i);
      if a.amount > have {
        OneMore(held, wanted, grow, i, true, Amount(a.key, a.amount - have));
        grow := grow + [Amount(a.key, a.amount - have)];
      } else {
        NoMore(held, wanted, grow, i, true);
      }
      if a.amount < have {
        OneMore(held, wanted, shrink, i, false, Amount(a.key, have - a.amount));
        shrink := shrink + [Amount(a.key, have - a.amount)];
      } else {
        NoMore(held, wanted, shrink, i, false);
      }
    }
    shrink := AddUnnamed(held, wanted, shrink);
    assert held[..|held|] == held && wanted[..|wanted|] == wanted;
    forall k
      ensures Of(grow, k) == Less(Of(wanted, k), Of(held, k)) && Of(shrink, k) == Less(Of(held, k), Of(wanted, k))
    {
      Unnamed(held, k);
      Unnamed(wanted, k);
    }
  }

  /** Dimensions that are no longer wanted shrink to nothing. */
  method AddUnnamed(held: seq<Amount>, wanted: seq<Amount>, kept: seq<Amount>) returns (shrink: seq<Amount>)
    requires UniqueKeys(held) && UniqueKeys(kept) && forall x :: 0 <= x < |kept| ==> Named(wanted, kept[x].key)
    ensures UniqueKeys(shrink)
    ensures forall k :: Of(shrink, k) == if Named(wanted, k) then Of(kept, k) else Of(held, k)
  {
    shrink := kept;
    forall k ensures !Named(wanted, k) ==> Of(kept, k) == 0 {
      Unnamed(kept, k);
    }
    for i := 0 to |held|
      invariant UniqueKeys(shrink)
      invariant forall k :: Of(shrink, k) == if Named(wanted, k) then Of(kept, k) else if Named(held[..i], k) then Of(held, k) else 0
      invariant forall x :: 0 <= x < |shrink| ==> Named(wanted, shrink[x].key) || Named(held[..i], shrink[x].key)
    {
      var c := held[i];
      assert held[..i + 1] == held[..i] + [c];
      OfUnique(held, i);
      if Find(wanted, c.key) == |wanted| {
        ghost var before := shrink;
        assert !Named(wanted, c.key) && !Named(held[..i], c.key);
        shrink := shrink + [c];
        forall k ensures Of(shrink, k) == if Named(wanted, k) then Of(kept, k) else if Named(held[..i + 1], k) then Of(held, k) else 0 {
          OfPush(before, c, k);
          NamedPush(held[..i], c, k);
        }
      } else {
        assert Named(wanted, c.key);
        forall k ensures !Named(wanted, k) ==> (Named(held[..i + 1], k) <==> Named(held[..i], k)) {
          NamedPush(held[..i], c, k);
        }
      }
      forall x | 0 <= x < |shrink| ensures Named(wanted, shrink[x].key) || Named(held[..i + 1], shrink[x].key) {
        NamedPush(held[..i], c, shrink[x].key);
      }
    }
    assert held[..|held|] == held;
    forall k ensures !Named(held, k) ==> Of(held, k) == 0 {
      Unnamed(held, k);
    }
  }

  ghost predicate Named(list: seq<Amount>, k: Key) {
    exists i :: 0 <= i < |list| && list[i].key == k
  }

  lemma {:induction false} NamedPush(list: seq<Amount>, a: Amount, k: Key)
    ensures Named(list + [a], k) <==> Named(list, k) || a.key == k
  {
    if i :| 0 <= i < |list| && list[i].key == k {
      assert (list + [a])[i].key == k;
    }
    assert (list + [a])[|list|] == a;
  }

  lemma {:induction false} Unnamed(list: seq<Amount>, k: Key)
    ensures !Named(list, k) ==> Of(list, k) == 0
  {
    if !Named(list, k) {
      OfAbsent(list, k);
    }
  }

  /** The differences for the first n wanted amounts. */
  ghost predicate ListsUpTo(held: seq<Amount>, wanted: seq<Amount>, diff: seq<Amount>, n: nat, growing: bool)
    requires n <= |wanted|
  {
    && UniqueKeys(diff)
    && (forall x :: 0 <= x < |diff| ==> Named(wanted[..n], diff[x].key))
    && forall k :: Of(diff, k) == if Named(wanted[..n], k) then Gap(held, wanted, k, growing) else 0
  }

  ghost function Gap(held: seq<Amount>, wanted: seq<Amount>, k: Key, growing: bool): U64 {
    if growing then Less(Of(wanted, k), Of(held, k)) else Less(Of(held, k), Of(wanted, k))
  }

  lemma {:induction false} OneMore(held: seq<Amount>, wanted: seq<Amount>, diff: seq<Amount>, n: nat, growing: bool,
        a: Amount)
    requires n < |wanted| && UniqueKeys(wanted) && ListsUpTo(held, wanted, diff, n, growing)
    requires a.key == wanted[n].key && a.amount == Gap(held, wanted, a.key, growing)
    ensures ListsUpTo(held, wanted, diff + [a], n + 1, growing)
  {
    assert wanted[..n + 1] == wanted[..n] + [wanted[n]];
    assert !Named(wanted[..n], a.key);
    forall k ensures Of(diff + [a], k) == if Named(wanted[..n + 1], k) then Gap(held, wanted, k, growing) else 0 {
      OfPush(diff, a, k);
      NamedPush(wanted[..n], wanted[n], k);
    }
    forall x | 0 <= x < |diff + [a]| ensures Named(wanted[..n + 1], (diff + [a])[x].key) {
      NamedPush(wanted[..n], wanted[n], (diff + [a])[x].key);
    }
  }

  lemma {:induction false} NoMore(held: seq<Amount>, wanted: seq<Amount>, diff: seq<Amount>, n: nat, growing: bool)
    requires n < |wanted| && UniqueKeys(wanted) && ListsUpTo(held, wanted, diff, n, growing)
    requires Gap(held, wanted, wanted[n].key, growing) == 0
    ensures ListsUpTo(held, wanted, diff, n + 1, growing)
  {
    assert wanted[..n + 1] == wanted[..n] + [wanted[n]];
    assert !Named(wanted[..n], wanted[n].key);
    forall k ensures Of(diff, k) == if Named(wanted[..n + 1], k) then Gap(held, wanted, k, growing) else 0 {
      NamedPush(wanted[..n], wanted[n], k);
    }
    forall x | 0 <= x < |diff| ensures Named(wanted[..n + 1], diff[x].key) {
      NamedPush(wanted[..n], wanted[n], diff[x].key);
    }
  }

  /** What a lease would gain fits every account; and fits in 64 bits. */
  ghost predicate GrowthFits(accounts: Accounts, held: seq<Amount>, wanted: seq<Amount>) {
    forall k :: Fits(accounts, k, Gap(held, wanted, k, true))
  }

  /** No limited account lacks what the lease would gain on it. */
  ghost predicate GrowthNotShort(accounts: Accounts, held: seq<Amount>, wanted: seq<Amount>) {
    forall k :: k in accounts && accounts[k].capacity.Some? && Of(wanted, k) > Of(held, k) ==>
      accounts[k].reserved + (Of(wanted, k) - Of(held, k)) <= accounts[k].capacity.value
  }

  lemma {:induction false} GrowthFitsIff(accounts: Accounts, held: seq<Amount>, wanted: seq<Amount>)
    ensures GrowthFits(accounts, held, wanted) <==> GrowthNotShort(accounts, held, wanted)
  {
    if GrowthFits(accounts, held, wanted) {
      forall k | k in accounts && accounts[k].capacity.Some? && Of(wanted, k) > Of(held, k)
        ensures accounts[k].reserved + (Of(wanted, k) - Of(held, k)) <= accounts[k].capacity.value
      {
        assert Fits(accounts, k, Gap(held, wanted, k, true));
      }
    }
    if GrowthNotShort(accounts, held, wanted) {
      forall k ensures Fits(accounts, k, Gap(held, wanted, k, true)) {
      }
    }
  }

  ghost predicate GrowthHasRoom(accounts: Accounts, held: seq<Amount>, wanted: seq<Amount>) {
    forall k :: Reserved(accounts, k) + Gap(held, wanted, k, true) < LIMIT
  }

  lemma {:induction false} GrowthIsListed(accounts: Accounts, held: seq<Amount>, actual: seq<Amount>,
        wanted: seq<Amount>, grow: seq<Amount>, shrink: seq<Amount>)
    requires Differ(held, wanted, grow, shrink) && forall k :: Of(wanted, k) == Of(actual, k)
    ensures AllFit(accounts, grow) <==> GrowthFits(accounts, held, actual)
    ensures Room(accounts, grow) <==> GrowthHasRoom(accounts, held, actual)
  {
    forall k ensures Of(grow, k) == Gap(held, actual, k, true) {
      assert Of(wanted, k) == Of(actual, k);
    }
    if !AllFit(accounts, grow) {
      var k :| !Fits(accounts, k, Of(grow, k));
      assert !Fits(accounts, k, Gap(held, actual, k, true));
    }
    if !Room(accounts, grow) {
      var k :| Reserved(accounts, k) + Of(grow, k) >= LIMIT;
      assert Reserved(accounts, k) + Gap(held, actual, k, true) >= LIMIT;
    }
  }

  // -------------------------------------------------------------------------
  // Conservation

  /** What is reserved is what the live leases hold, account by account. */
  ghost predicate Conserved(accounts: Accounts, leases: Leases) {
    forall k :: Reserved(accounts, k) == Sum(leases, k)
  }

  /** A new lease keeps the books exactly when no account overflows. */
  lemma {:induction false} ReserveConserves(before: Accounts, leases: Leases, id: nat, list: seq<Amount>,
        after: Accounts)
    requires Conserved(before, leases) && id !in leases && Charged(before, list, after)
    ensures Conserved(after, leases[id := list]) <==> Room(before, list)
  {
    forall k ensures Sum(leases[id := list], k) == Reserved(before, k) + Of(list, k) {
      SumNew(leases, id, list, k);
    }
    if Conserved(after, leases[id := list]) {
      forall k ensures Reserved(before, k) + Of(list, k) < LIMIT {
        assert Reserved(after, k) == Sum(leases[id := list], k);
      }
    }
  }

  /** Giving a lease back keeps the books, and never clamps. */
  lemma {:induction false} ReleaseConserves(before: Accounts, leases: Leases, id: nat, after: Accounts)
    requires Conserved(before, leases) && id in leases && Refunded(before, leases[id], after)
    ensures Conserved(after, leases - {id})
    ensures forall k :: Of(leases[id], k) <= Reserved(before, k)
  {
    forall k ensures Of(leases[id], k) <= Reserved(before, k) && Reserved(after, k) == Sum(leases - {id}, k) {
      SumSplit(leases, id, k);
    }
  }

  /** Changing a lease keeps the books exactly when its growth fits in 64 bits, and then never clamps. */
  lemma {:induction false} CommitConserves(before: Accounts, leases: Leases, id: nat, wanted: seq<Amount>,
                        grow: seq<Amount>, shrink: seq<Amount>, mid: Accounts, after: Accounts)
    requires Conserved(before, leases) && id in leases && Differ(leases[id], wanted, grow, shrink)
    requires Charged(before, grow, mid) && Refunded(mid, shrink, after)
    ensures Conserved(after, leases[id := wanted]) <==> Room(before, grow)
    ensures Room(before, grow) ==> forall k :: Of(shrink, k) <= Reserved(mid, k)
    ensures Room(before, grow) ==> forall k :: Reserved(after, k) == Reserved(before, k) + Of(wanted, k) - Of(leases[id], k)
  {
    forall k
      ensures Reserved(after, k) == Sum(leases[id := wanted], k) <==> Reserved(before, k) + Of(grow, k) < LIMIT
      ensures Reserved(before, k) + Of(grow, k) < LIMIT ==> Of(shrink, k) <= Reserved(mid, k)
      ensures Reserved(before, k) + Of(grow, k) < LIMIT ==>
                Reserved(after, k) == Reserved(before, k) + Of(wanted, k) - Of(leases[id], k)
    {
      SumSplit(leases, id, k);
      SumSet(leases, id, wanted, k);
      assert Reserved(mid, k) == Add64(Reserved(before, k), Of(grow, k));
    }
    if !Room(before, grow) {
      var k :| Reserved(before, k) + Of(grow, k) >= LIMIT;
      assert Reserved(after, k) != Sum(leases[id := wanted], k);
    }
  }

  /** The account has no more reserved than its capacity, if it has one. */
  ghost predicate WithinAt(accounts: Accounts, k: Key) {
    CapacityOf(accounts, k).Some? ==> Reserved(accounts, k) <= CapacityOf(accounts, k).value
  }

  /** A charge that was let through stays within every capacity and, on such an account, never wraps. */
  lemma {:induction false} NeverPastCapacity(before: Accounts, list: seq<Amount>, after: Accounts, k: Key)
    requires AllFit(before, list) && Charged(before, list, after)
    ensures WithinAt(before, k) ==> WithinAt(after, k)
    ensures CapacityOf(before, k).Some? ==> Reserved(after, k) == Reserved(before, k) + Of(list, k)
  {
    assert Fits(before, k, Of(list, k));
    assert Reserved(after, k) == Add64(Reserved(before, k), Of(list, k));
    assert CapacityOf(after, k) == CapacityOf(before, k);
  }

  lemma {:induction false} ChargedWithin(before: Accounts, list: seq<Amount>, after: Accounts)
    requires AllFit(before, list) && Charged(before, list, after)
    ensures forall k :: WithinAt(before, k) ==> WithinAt(after, k)
  {
    forall k ensures WithinAt(before, k) ==> WithinAt(after, k) {
      NeverPastCapacity(before, list, after, k);
    }
  }

  lemma {:induction false} RefundedWithin(before: Accounts, list: seq<Amount>, after: Accounts)
    requires Refunded(before, list, after)
    ensures forall k :: WithinAt(before, k) ==> WithinAt(after, k)
  {
    forall k ensures WithinAt(before, k) ==> WithinAt(after, k) {
      assert Reserved(after, k) == Less(Reserved(before, k), Of(list, k));
      assert CapacityOf(after, k) == CapacityOf(before, k);
    }
  }

  /** An unlimited account can overflow: two leases of half the range leave nothing on the books. */
  lemma {:induction false} UnlimitedAccountsOverflow() returns (accounts: Accounts, leases: Leases, list: seq<Amount>,
        after: Accounts)
    ensures Conserved(accounts, leases) && AllFit(accounts, list) && Charged(accounts, list, after)
    ensures 1 !in leases && !Conserved(after, leases[1 := list])
    ensures Reserved(after, Key(0, -1)) == 0 && Sum(leases[1 := list], Key(0, -1)) == LIMIT
  {
    var k := Key(0, -1);
    list := [Amount(k, LIMIT / 2)];
    accounts := map[k := Account(None, LIMIT / 2, LIMIT / 2)];
    leases := map[0 := list];
    after := map[k := Account(None, 0, LIMIT / 2)];
    forall x ensures Of(list, x) == if x == k then LIMIT / 2 else 0 {
      OfPush([], list[0], x);
      assert [] + [list[0]] == list;
    }
    forall x ensures Sum(leases, x) == Of(list, x) {
      SumSplit(leases, 0, x);
      assert leases - {0} == map[];
    }
    SumNew(leases, 1, list, k);
    assert Reserved(after, k) != Sum(leases[1 := list], k);
  }

  // -------------------------------------------------------------------------
  // The ledger

  class Ledger {
    var accounts: Accounts
    var nextLease: nat
    var liveLeases: nat
    ghost var leases: Leases

    ghost predicate Valid()
      reads this
    {
      && (forall id :: id in leases ==> id < nextLease && UniqueKeys(leases[id]))
      && liveLeases == |leases|
    }

    ghost predicate Balanced()
      reads this
    {
      Conserved(accounts, leases)
    }

    constructor ()
      ensures Valid() && Balanced() && accounts == map[] && leases == map[]
    {
      accounts, nextLease, liveLeases, leases := map[], 1, 0, map[];
    }

    method SetCapacity(k: Key, capacity: U64)
      requires Valid()
      modifies this`accounts
      ensures Valid() && (old(Balanced()) ==> Balanced())
      ensures forall x :: CapacityOf(accounts, x) == if x == k then Some(capacity) else CapacityOf(old(accounts), x)
      ensures forall x :: Reserved(accounts, x) == Reserved(old(accounts), x)
      ensures SamePeaks(old(accounts), accounts)
      ensures forall x :: x != k ==> (WithinAt(accounts, x) <==> WithinAt(old(accounts), x))
      ensures WithinAt(accounts, k) <==> Reserved(old(accounts), k) <= capacity
    {
      var acc := if k in accounts then accounts[k] else Account(None, 0, 0);
      accounts := accounts[k := acc.(capacity := Some(capacity))];
      assert forall x :: Reserved(accounts, x) == Reserved(old(accounts), x);
    }

    /** Takes everything or nothing. */
    method TryReserve(list: seq<Amount>) returns (ok: bool)
      requires UniqueKeys(list)
      modifies this`accounts
      ensures ok <==> AllFit(old(accounts), list)
      ensures ok <==> NoneShort(old(accounts), list)
      ensures ok ==> Charged(old(accounts), list, accounts) && Peaked(old(accounts), list, accounts)
      ensures !ok ==> accounts == old(accounts)
    {
      FitsListed(accounts, list);
      FitIffNoneShort(accounts, list);
      for i := 0 to |list|
        invariant forall j :: 0 <= j < i ==> Fits(accounts, list[j].key, list[j].amount)
      {
        if !Fits(accounts, list[i].key, list[i].amount) {
          return false;
        }
      }
      for i := 0 to |list|
        invariant Charged(old(accounts), list[..i], accounts) && Peaked(old(accounts), list[..i], accounts)
      {
        ChargeMore(old(accounts), list[..i], accounts, list[i]);
        PeakMore(old(accounts), list[..i], accounts, list[i]);
        assert list[..i + 1] == list[..i] + [list[i]];
        accounts := Charge(accounts, list[i]);
      }
      assert list[..|list|] == list;
      return true;
    }

    method GiveBack(list: seq<Amount>)
      requires UniqueKeys(list)
      modifies this`accounts
      ensures Refunded(old(accounts), list, accounts) && SamePeaks(old(accounts), accounts)
    {
      for i := 0 to |list|
        invariant Refunded(old(accounts), list[..i], accounts) && SamePeaks(old(accounts), accounts)
      {
        assert list[..i + 1] == list[..i] + [list[i]];
        RefundMore(old(accounts), list[..i], accounts, list[i]);
        accounts := Refund(accounts, list[i]);
      }
      assert list[..|list|] == list;
    }

    method Reserve(request: seq<Amount>) returns (lease: Option<(nat, seq<Amount>)>)
      requires Valid()
      modifies this
      ensures Valid()
      ensures lease.Some? <==> AllFit(old(accounts), request)
      ensures lease.Some? <==> NoneShort(old(accounts), request)
      ensures lease.Some? ==> forall k :: Of(lease.value.1, k) == Of(request, k)
      ensures lease.None? ==> accounts == old(accounts) && leases == old(leases)
      ensures lease.Some? ==>
                && lease.value.0 !in old(leases) && leases == old(leases)[lease.value.0 := lease.value.1]
                && Charged(old(accounts), request, accounts)
      ensures lease.Some? && old(Balanced()) ==> (Balanced() <==> Room(old(accounts), request))
      ensures forall k :: WithinAt(old(accounts), k) ==> WithinAt(accounts, k)
    {
      var list := MergeAmounts(request);
      var ok := TryReserve(list);
      FitIffNoneShort(old(accounts), request);
      if !ok {
        return None;
      }
      ghost var before := leases;
      if Conserved(old(accounts), leases) {
        ReserveConserves(old(accounts), leases, nextLease, list, accounts);
      }
      ChargedWithin(old(accounts), list, accounts);
      leases := leases[nextLease := list];
      assert leases.Keys == before.Keys + {nextLease};
      lease := Some((nextLease, list));
      nextLease, liveLeases := nextLease + 1, liveLeases + 1;
    }

    method Release(id: nat, list: seq<Amount>)
      requires Valid() && id in leases && leases[id] == list
      modifies this
      ensures Valid() && leases == old(leases) - {id} && Refunded(old(accounts), list, accounts)
      ensures SamePeaks(old(accounts), accounts)
      ensures old(Balanced()) ==> Balanced()
      ensures old(Balanced()) ==> forall k :: Of(list, k) <= Reserved(old(accounts), k)
      ensures forall k :: WithinAt(old(accounts), k) ==> WithinAt(accounts, k)
    {
      GiveBack(list);
      RefundedWithin(old(accounts), list, accounts);
      if Conserved(old(accounts), leases) {
        ReleaseConserves(old(accounts), leases, id, accounts);
      }
      assert leases.Keys == (leases - {id}).Keys + {id};
      leases := leases - {id};
      if liveLeases > 0 {
        liveLeases := liveLeases - 1;
      }
    }

    /** Adjusts a lease to what is really used; on failure the lease keeps what it has. */
    method Commit(id: nat, held: seq<Amount>, actual: seq<Amount>) returns (ok: bool, now: seq<Amount>)
      requires Valid() && id in leases && leases[id] == held
      modifies this
      ensures Valid() && leases == old(leases)[id := now]
      ensures !ok ==> now == held && accounts == old(accounts)
      ensures ok ==> forall k :: Of(now, k) == Of(actual, k)
      ensures ok <==> GrowthFits(old(accounts), held, actual)
      ensures ok <==> GrowthNotShort(old(accounts), held, actual)
      ensures ok && old(Balanced()) ==> (Balanced() <==> GrowthHasRoom(old(accounts), held, actual))
      ensures ok && old(Balanced()) && GrowthHasRoom(old(accounts), held, actual) ==>
                forall k :: Reserved(accounts, k) == Reserved(old(accounts), k) + Of(actual, k) - Of(held, k)
      ensures forall k :: WithinAt(old(accounts), k) ==> WithinAt(accounts, k)
    {
      var wanted := MergeAmounts(actual);
      var grow, shrink := Differences(held, wanted);
      GrowthIsListed(accounts, held, actual, wanted, grow, shrink);
      GrowthFitsIff(accounts, held, actual);
      ok := TryReserve(grow);
      if !ok {
        assert leases[id := held] == leases;
        return false, held;
      }
      ghost var mid := accounts;
      GiveBack(shrink);
      if Conserved(old(accounts), leases) {
        CommitConserves(old(accounts), leases, id, wanted, grow, shrink, mid, accounts);
      }
      ChargedWithin(old(accounts), grow, mid);
      RefundedWithin(mid, shrink, accounts);
      assert leases[id := wanted].Keys == leases.Keys;
      now := wanted;
      leases := leases[id := wanted];
    }

    // -----------------------------------------------------------------------
    // A session's one lease

    /** Session::ReserveResources: grows the lease by the delta, or leaves it. */
    method Grow(id: nat, held: seq<Amount>, delta: seq<Amount>) returns (ok: bool, now: seq<Amount>)
      requires Valid() && id in leases && leases[id] == held
      modifies this
      ensures Valid() && leases == old(leases)[id := now]
      ensures !ok ==> now == held && accounts == old(accounts)
      ensures ok ==> forall k :: Of(now, k) == Of(held + delta, k)
      ensures ok <==> GrowthNotShort(old(accounts), held, held + delta)
      ensures ok && old(Balanced()) ==> (Balanced() <==> GrowthHasRoom(old(accounts), held, held + delta))
      ensures forall k :: WithinAt(old(accounts), k) ==> WithinAt(accounts, k)
    {
      if delta == [] {
        assert held + delta == held && leases[id := held] == leases;
        assert forall k :: Gap(held, held, k, true) == 0;
        return true, held;
      }
      ok, now := Commit(id, held, held + delta);
    }

    /** Session::ReturnResources: giving back never fails, and keeps the books. */
    method Shrink(id: nat, held: seq<Amount>, delta: seq<Amount>) returns (now: seq<Amount>)
      requires Valid() && id in leases && leases[id] == held
      modifies this
      ensures Valid() && leases == old(leases)[id := now]
      ensures forall k :: Of(now, k) == Minus(Of(held, k), Asked(delta, k))
      ensures old(Balanced()) ==> Balanced()
      ensures forall k :: WithinAt(old(accounts), k) ==> WithinAt(accounts, k)
    {
      if delta == [] {
        assert leases[id := held] == leases;
        return held;
      }
      var next := Reduced(held, delta);
      var ok;
      ok, now := Commit(id, held, next);
      assert forall k :: Gap(held, next, k, true) == 0;
    }
  }

  ghost function Minus(have: nat, a: nat): nat {
    if have > a then have - a else 0
  }

  /** Takes all that the delta asks off the entries it names, down to zero. */
  method Reduced(held: seq<Amount>, delta: seq<Amount>) returns (next: seq<Amount>)
    requires UniqueKeys(held)
    ensures UniqueKeys(next) && forall k :: Of(next, k) == Minus(Of(held, k), Asked(delta, k))
  {
    next := held;
    for i := 0 to |delta|
      invariant UniqueKeys(next) && forall k :: Of(next, k) == Minus(Of(held, k), Asked(delta[..i], k))
    {
      var d := delta[i];
      assert delta[..i + 1][..i] == delta[..i];
      var j := Find(next, d.key);
      if j < |next| {
        ghost var before := next;
        var left := Less(next[j].amount, d.amount);
        next := next[j := Amount(d.key, left)];
        forall k ensures Of(next, k) == Minus(Of(held, k), Asked(delta[..i + 1], k)) {
          OfSet(before, j, left, k);
          OfUnique(before, j);
        }
        OfSet(before, j, left, d.key);
      } else {
        OfAbsent(next, d.key);
      }
    }
    assert delta[..|delta|] == delta;
  }
}
