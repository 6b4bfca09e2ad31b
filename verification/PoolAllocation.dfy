/**
 * The bookkeeping of an OpenStackFloatingIPPool: the three address lists of its
 * status, the list operations `union` and `diff`, and one allocation by `getIP`
 * (controllers/openstackfloatingippool_controller.go) as a function of the
 * answers OpenStack gives during that allocation.
 */
module PoolAllocation {
  import opened Common

  type Address = string

  /** The part of OpenStackFloatingIPPoolStatus that allocation works on. */
  datatype Status = Status(available: seq<Address>, claimed: seq<Address>, failed: seq<Address>, hasNetwork: bool)

  /** What OpenStack answers while one address is being allocated. */
  datatype Answers = Answers(tagged: Result<seq<Address>>, found: Result<bool>, created: Result<Address>)

  datatype Allocation = Got(ip: Address) | MaxReached | Failed

  /** No address is both free and in use, and none is offered twice. */
  ghost predicate Separated(st: Status) {
    && NoDup(st.available)
    && forall a :: a in st.available ==> a !in st.claimed
  }

  // ---------------------------------------------------------------- union and diff

  /** Lists the members of a set in an arbitrary order, as ranging over a Go map does. */
  method Enumerate(s: set<Address>) returns (r: seq<Address>)
    ensures NoDup(r) && Elems(r) == s
  {
    r := [];
    var rest := s;
    while rest != {}
      invariant NoDup(r)
      invariant rest <= s
      invariant Elems(r) == s - rest
      decreases rest
    {
      var item :| item in rest;
      assert item !in Elems(r);
      assert Elems(r + [item]) == Elems(r) + {item};
      r := r + [item];
      rest := rest - {item};
    }
  }

  method Union(a: seq<Address>, b: seq<Address>) returns (r: seq<Address>)
    ensures NoDup(r)
    ensures Elems(r) == Elems(a) + Elems(b)
  {
    var m: set<Address> := {};
    for i := 0 to |a|
      invariant m == Elems(a[..i])
    {
      assert a[..i + 1] == a[..i] + [a[i]];
      m := m + {a[i]};
    }
    assert a[..|a|] == a && b[..0] == [];
    for i := 0 to |b|
      invariant m == Elems(a) + Elems(b[..i])
    {
      assert b[..i + 1] == b[..i] + [b[i]];
      m := m + {b[i]};
    }
    assert b[..|b|] == b;
    r := Enumerate(m);
  }

  method Diff(a: seq<Address>, b: seq<Address>) returns (r: seq<Address>)
    ensures NoDup(r)
    ensures Elems(r) == Elems(a) - Elems(b)
  {
    var m: set<Address> := {};
    for i := 0 to |a|
      invariant m == Elems(a[..i])
    {
      assert a[..i + 1] == a[..i] + [a[i]];
      m := m + {a[i]};
    }
    assert a[..|a|] == a && b[..0] == [];
    for i := 0 to |b|
      invariant m == Elems(a) - Elems(b[..i])
    {
      assert b[..i + 1] == b[..i] + [b[i]];
      m := m - {b[i]};
    }
    assert b[..|b|] == b;
    r := Enumerate(m);
  }

  // ---------------------------------------------------------------- one allocation

  /** Appends the tagged addresses that are in neither list, in the order listed. */
  function Recover(available: seq<Address>, claimed: seq<Address>, tagged: seq<Address>): seq<Address>
    decreases |tagged|
  {
    if tagged == [] then available
    else if tagged[0] in available || tagged[0] in claimed then Recover(available, claimed, tagged[1..])
    else Recover(available + [tagged[0]], claimed, tagged[1..])
  }

  /** AvailableIPs after the recovery by tag, which is attempted only when the list is empty. */
  function Offered(st: Status, tagged: seq<Address>): seq<Address> {
    if st.available == [] then Recover([], st.claimed, tagged) else st.available
  }

  /** The tail of getIP: the MaxIPs guard and the creation of a new floating IP. */
  function Create(st: Status, maxIPs: int, created: Result<Address>): (Allocation, Status) {
    if maxIPs != -1 && |st.claimed| >= maxIPs then (MaxReached, st)
    else if created.Err? then (Failed, st)
    else (Got(created.value), st.(claimed := st.claimed + [created.value]))
  }

  /** The lists after the head of a non-empty AvailableIPs has been taken. */
  function TakeHead(st: Status, offered: seq<Address>): Status
    requires offered != []
  {
    st.(available := offered[1..], claimed := st.claimed + [offered[0]])
  }

  /** getIP after the recovery by tag. */
  function TakeOrCreate(st: Status, maxIPs: int, ans: Answers): (Allocation, Status) {
    if st.available == [] then Create(st, maxIPs, ans.created)
    else
      var head := st.available[0];
      var taken := TakeHead(st, st.available);
      if head == "" then Create(taken, maxIPs, ans.created)
      else if ans.found.Err? then (Failed, taken)
      else if ans.found.value then (Got(head), taken.(claimed := taken.claimed + [head]))
      else Create(taken.(failed := taken.failed + [head]), maxIPs, ans.created)
  }

  function GetIP(st: Status, maxIPs: int, ans: Answers): (Allocation, Status) {
    if st.available == [] && ans.tagged.Err? then (Failed, st)
    else TakeOrCreate(st.(available := Offered(st, if ans.tagged.Ok? then ans.tagged.value else [])), maxIPs, ans)
  }

  /** After the recovery by tag: no known address is found, and the limit leaves room. */
  predicate FindsNone(st: Status, maxIPs: int, found: Result<bool>) {
    && (st.available == [] || st.available[0] == "" || found == Ok(false))
    && (maxIPs == -1 || |st.claimed| + (if st.available == [] then 0 else 1) < maxIPs)
  }

  /** getIP asks for a new floating IP. */
  predicate AsksToCreate(st: Status, maxIPs: int, ans: Answers) {
    && (st.available != [] || ans.tagged.Ok?)
    && FindsNone(st.(available := Offered(st, if ans.tagged.Ok? then ans.tagged.value else [])), maxIPs, ans.found)
  }

  /** The lists after the first free address has turned out not to exist, or to be empty. */
  function PassOver(st: Status): Status
    requires st.available != []
  {
    var taken := TakeHead(st, st.available);
    if st.available[0] == "" then taken else taken.(failed := taken.failed + [st.available[0]])
  }

  /** Then getIP goes on as if there were no free address. */
  lemma PassedOver(st: Status, maxIPs: int, found: Result<bool>, created: Result<Address>)
    requires st.available != [] && (st.available[0] == "" || found == Ok(false))
    ensures TakeOrCreate(st, maxIPs, Answers(Err, found, created)) == Create(PassOver(st), maxIPs, created)
    ensures FindsNone(st, maxIPs, found) <==> maxIPs == -1 || |PassOver(st).claimed| < maxIPs
    ensures st.claimed <= PassOver(st).claimed && st.available[0] in PassOver(st).claimed
  {
    assert PassOver(st).claimed[|st.claimed|] == st.available[0];
  }

  /** The answers lead to a newly created floating IP. */
  predicate Creates(st: Status, maxIPs: int, ans: Answers) {
    AsksToCreate(st, maxIPs, ans) && ans.created.Ok?
  }

  lemma {:induction false} RecoverFacts(available: seq<Address>, claimed: seq<Address>, tagged: seq<Address>)
    requires NoDup(available) && forall a :: a in available ==> a !in claimed
    ensures var r := Recover(available, claimed, tagged);
            && NoDup(r)
            && (forall a :: a in r ==> a !in claimed)
            && (forall a :: a in r <==> a in available || (a in tagged && a !in claimed))
    decreases |tagged|
  {
    if tagged != [] {
      var keep := tagged[0] in available || tagged[0] in claimed;
      RecoverFacts(if keep then available else available + [tagged[0]], claimed, tagged[1..]);
      assert forall a :: a in tagged <==> a == tagged[0] || a in tagged[1..];
    }
  }

  /** ClaimedIPs after one allocation, case by case. */
  lemma ClaimedAfter(st: Status, maxIPs: int, ans: Answers)
    ensures var st' := GetIP(st, maxIPs, ans).1;
            var offered := Offered(st, if ans.tagged.Ok? then ans.tagged.value else []);
            var taken := if offered == [] then st.claimed else st.claimed + [offered[0]];
            || st'.claimed == st.claimed
            || st'.claimed == taken
            || (offered != [] && st'.claimed == taken + [offered[0]])
            || (Creates(st, maxIPs, ans) && st'.claimed == taken + [ans.created.value])
  {
  }

  /** Where the entries of the two lists come from after one allocation. */
  lemma ListsAfter(st: Status, maxIPs: int, ans: Answers)
    requires Separated(st)
    ensures var (r, st') := GetIP(st, maxIPs, ans);
            var offered := Offered(st, if ans.tagged.Ok? then ans.tagged.value else []);
            && NoDup(st'.available)
            && (forall a :: a in st'.available ==> a !in st.claimed && (offered != [] ==> a != offered[0]))
            && (forall a :: a in st'.claimed ==>
                  a in st.claimed || (offered != [] && a == offered[0])
                  || (Creates(st, maxIPs, ans) && a == ans.created.value))
  {
    RecoverFacts([], st.claimed, if ans.tagged.Ok? then ans.tagged.value else []);
    ClaimedAfter(st, maxIPs, ans);
  }

  /**
   * Allocation keeps the free and the used addresses apart exactly when OpenStack does not hand out,
   * as a new floating IP, an address that the pool would have offered next.
   */
  lemma SeparationExactly(st: Status, maxIPs: int, ans: Answers)
    requires Separated(st)
    ensures var offered := Offered(st, if ans.tagged.Ok? then ans.tagged.value else []);
            Separated(GetIP(st, maxIPs, ans).1)
            <==> !(offered != [] && Creates(st, maxIPs, ans) && ans.created.value in offered[1..])
  {
    ListsAfter(st, maxIPs, ans);
    if Creates(st, maxIPs, ans) {
      var st' := GetIP(st, maxIPs, ans).1;
      assert ans.created.value == st'.claimed[|st'.claimed| - 1];
    }
  }

  /**
   * The address handed out is one that nobody held before, unless OpenStack creates
   * a floating IP under an address that is already claimed.
   */
  lemma HandsOutUnclaimed(st: Status, maxIPs: int, ans: Answers)
    requires Separated(st)
    ensures var (r, st') := GetIP(st, maxIPs, ans);
            && (r.Got? ==> r.ip in st'.claimed)
            && (r.Got? ==> (r.ip in st.claimed <==> Creates(st, maxIPs, ans) && ans.created.value in st.claimed))
  {
    RecoverFacts([], st.claimed, if ans.tagged.Ok? then ans.tagged.value else []);
  }

  /**
   * What getIP answers, for every pool and all answers of OpenStack: it hands out the first free
   * address if that exists, otherwise a new one, and stops at the limit or at a failed call. An
   * address that does not exist is noted as failed; the first free one is gone from AvailableIPs.
   */
  lemma AllocationOutcome(st: Status, maxIPs: int, ans: Answers)
    ensures var (r, st') := GetIP(st, maxIPs, ans);
            var offered := Offered(st, if ans.tagged.Ok? then ans.tagged.value else []);
            var proper := offered != [] && offered[0] != "";
            var listed := st.available != [] || ans.tagged.Ok?;
            var room := maxIPs == -1 || |st.claimed| + (if offered == [] then 0 else 1) < maxIPs;
            && (proper && ans.found == Ok(true) ==> r == Got(offered[0]))
            && (listed && (!proper || ans.found == Ok(false)) && room && ans.created.Ok? ==> r == Got(ans.created.value))
            && (r.MaxReached? <==> listed && (!proper || ans.found == Ok(false)) && !room)
            && (r.Failed? <==>
                  || !listed
                  || (proper && ans.found.Err?)
                  || ((!proper || ans.found == Ok(false)) && room && ans.created.Err?))
            && (listed ==> st'.available == (if offered == [] then [] else offered[1..]))
            && st'.failed == (if proper && ans.found == Ok(false) then st.failed + [offered[0]] else st.failed)
            && (r.Got? ==> st'.claimed != [] && st'.claimed[|st'.claimed| - 1] == r.ip)
            && st.claimed <= st'.claimed
  {
  }

  /** No claimed and no failed address is forgotten, and a free one leaves its list only for the claimed ones. */
  ghost predicate Keeps(before: Status, after: Status) {
    && before.claimed <= after.claimed
    && before.failed <= after.failed
    && forall a :: a in before.available ==> a in after.available || a in after.claimed
  }

  /** Conservation through one allocation. */
  lemma AllocationKeeps(st: Status, maxIPs: int, ans: Answers)
    ensures Keeps(st, GetIP(st, maxIPs, ans).1)
  {
    var st' := GetIP(st, maxIPs, ans).1;
    if st.available != [] {
      var taken := TakeHead(st, st.available);
      assert st.available == [st.available[0]] + st.available[1..];
      assert taken.claimed <= st'.claimed && st.available[0] == taken.claimed[|st.claimed|];
    }
  }

  /**
   * Without that promise of OpenStack two claims do receive one address: both free
   * entries are stale, OpenStack recreates the second, and the next call offers it again.
   */
  lemma StaleEntryIsHandedOutTwice()
    ensures var st := Status(["10.0.0.1", "10.0.0.2"], [], [], true);
            var (r1, st1) := GetIP(st, -1, Answers(Err, Ok(false), Ok("10.0.0.2")));
            var (r2, st2) := GetIP(st1, -1, Answers(Err, Ok(true), Err));
            Separated(st) && r1 == Got("10.0.0.2") && r2 == Got("10.0.0.2")
  {
    var st := Status(["10.0.0.1", "10.0.0.2"], [], [], true);
    var (r1, st1) := GetIP(st, -1, Answers(Err, Ok(false), Ok("10.0.0.2")));
    assert st1.available == ["10.0.0.2"];
  }

  /** A create that follows no failed lookup happens only when every tagged address is already claimed. */
  lemma CreatesOnlyWhenAllTaggedClaimed(st: Status, maxIPs: int, ans: Answers)
    requires Separated(st) && ans.tagged.Ok?
    requires AsksToCreate(st, maxIPs, ans)
    requires "" !in Offered(st, ans.tagged.value) && ans.found != Ok(false)
    ensures st.available == [] && forall a :: a in ans.tagged.value ==> a in st.claimed
  {
    RecoverFacts([], st.claimed, ans.tagged.value);
  }

  /**
   * With a limit m in force, `owned` the tagged addresses and at most m of them, an
   * allocation takes the pool over its limit exactly when the limit is already used up
   * and the head of the offered list is an entry that does not exist (or is empty) while
   * ClaimedIPs together with that entry is still shorter than m.
   */
  lemma LimitExceededExactly(st: Status, m: nat, ans: Answers, owned: set<Address>)
    requires Separated(st) && ans.tagged.Ok? && Elems(ans.tagged.value) == owned
    requires |owned| <= m
    requires ans.created.Ok? && ans.created.value !in owned
    ensures (Creates(st, m, ans) && |owned + {ans.created.value}| > m)
            <==> (&& |owned| == m
                  && |st.claimed| + 1 < m
                  && var offered := Offered(st, ans.tagged.value);
                     offered != [] && (offered[0] == "" || ans.found == Ok(false)))
  {
    RecoverFacts([], st.claimed, ans.tagged.value);
    if Creates(st, m, ans) && Offered(st, ans.tagged.value) == [] {
      assert owned <= Elems(st.claimed);
      SubsetBound(owned, st.claimed);
    }
  }

  /** Two tagged addresses, a limit of two, nothing claimed, and a head that OpenStack does not know: a third one is created. */
  lemma LimitIsExceeded()
    ensures var st := Status(["10.0.0.9", "10.0.0.1", "10.0.0.2"], [], [], true);
            var ans := Answers(Ok(["10.0.0.1", "10.0.0.2"]), Ok(false), Ok("10.0.0.3"));
            && Separated(st)
            && Elems(ans.tagged.value) == {"10.0.0.1", "10.0.0.2"}
            && GetIP(st, 2, ans).0 == Got("10.0.0.3")
            && |Elems(ans.tagged.value) + {"10.0.0.3"}| > 2
  {
    var st := Status(["10.0.0.9", "10.0.0.1", "10.0.0.2"], [], [], true);
    var ans := Answers(Ok(["10.0.0.1", "10.0.0.2"]), Ok(false), Ok("10.0.0.3"));
    var owned := Elems(ans.tagged.value);
    assert "10.0.0.1"[7] == '1' && "10.0.0.2"[7] == '2' && "10.0.0.3"[7] == '3' && "10.0.0.9"[7] == '9';
    assert owned == {"10.0.0.1", "10.0.0.2"};
    LimitExceededExactly(st, 2, ans, owned);
    assert GetIP(st, 2, ans).0 == Got("10.0.0.3");
  }

  // ---------------------------------------------------------------- retrying a deletion

  /** AvailableIPs, as a set, after reconcileIPAddresses has run with no IPAddress left. */
  ghost function Refreshed(available: set<Address>, preallocated: set<Address>, failed: set<Address>): set<Address> {
    available + preallocated - failed
  }

  /**
   * A deletion pass that got through the addresses `done` and then persisted its status
   * leaves exactly the others to the next pass, although that pass first refreshes the list.
   */
  lemma RetryDeletesTheRest(available: set<Address>, preallocated: set<Address>, failed: set<Address>, done: set<Address>)
    requires available !! failed
    requires done <= available - preallocated
    ensures Refreshed(available - done, preallocated, failed) - preallocated == available - preallocated - done
  {
    assert forall a :: a in Refreshed(available - done, preallocated, failed) - preallocated
                       <==> a in available - preallocated - done;
  }
}
