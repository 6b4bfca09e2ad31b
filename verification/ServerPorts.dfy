/**
 * The ports of an OpenStackServer (pkg/cloud/services/networking/port.go): their creation by
 * EnsurePorts, the adoption of ports created by an earlier, unrecorded reconcile by
 * AdoptPortsServer, and what a deletion pass (controllers/openstackserver_controller.go,
 * reconcileDelete) leaves behind.
 *
 * Desired port i goes by a name and a network, which are its index here. `ports` maps the ID of
 * every existing port of the server to that index; two ports may have one name. `recorded` is
 * status.resources.ports.
 */
module ServerPorts {
  import opened Common

  type ID = nat

  /** The port with this ID, and no other, goes by the name of desired port i. */
  ghost predicate Only(ports: map<ID, nat>, i: nat, id: ID) {
    id in ports && ports[id] == i && forall other :: other in ports && ports[other] == i ==> other == id
  }

  ghost predicate Unnamed(ports: map<ID, nat>, i: nat) {
    forall id :: id in ports ==> ports[id] != i
  }

  /** Adoption from index |recorded| on: in order, as long as a name leads to exactly one port. */
  ghost function Adopted(n: nat, ports: map<ID, nat>, recorded: seq<ID>): seq<ID>
    decreases n - |recorded|
  {
    if |recorded| < n && exists id :: Only(ports, |recorded|, id) then
      var id :| Only(ports, |recorded|, id);
      Adopted(n, ports, recorded + [id])
    else recorded
  }

  /** Adoption ends without error: it has come to the end, or to a name that no port has. */
  ghost predicate AdoptionSucceeds(n: nat, ports: map<ID, nat>, recorded: seq<ID>) {
    var all := Adopted(n, ports, recorded);
    n <= |all| || Unnamed(ports, |all|)
  }

  /** Existing ports are among the n desired ones, and a recorded ID that exists has its index. */
  ghost predicate Consistent(n: nat, ports: map<ID, nat>, recorded: seq<ID>) {
    && |recorded| <= n
    && (forall id :: id in ports ==> ports[id] < n)
    && (forall k :: 0 <= k < |recorded| && recorded[k] in ports ==> ports[recorded[k]] == k)
  }

  /**
   * Every existing port is within reach of the controller: names are unique, a port of a recorded
   * index is the recorded one, and above them no name is missing below an existing one.
   */
  ghost predicate Adoptable(ports: map<ID, nat>, recorded: seq<ID>) {
    && (forall id, other :: id in ports && other in ports && ports[id] == ports[other] ==> id == other)
    && (forall id :: id in ports && ports[id] < |recorded| ==> recorded[ports[id]] == id)
    && (forall id, i :: id in ports && |recorded| <= i < ports[id] ==> !Unnamed(ports, i))
  }

  lemma AdoptedStep(n: nat, ports: map<ID, nat>, recorded: seq<ID>, id: ID)
    requires |recorded| < n && Only(ports, |recorded|, id)
    ensures Adopted(n, ports, recorded) == Adopted(n, ports, recorded + [id])
  {
  }

  lemma AdoptionEnds(n: nat, ports: map<ID, nat>, recorded: seq<ID>)
    requires n <= |recorded| || Unnamed(ports, |recorded|)
    ensures Adopted(n, ports, recorded) == recorded && AdoptionSucceeds(n, ports, recorded)
  {
  }

  lemma {:induction false} AdoptedFacts(n: nat, ports: map<ID, nat>, recorded: seq<ID>)
    requires Consistent(n, ports, recorded)
    ensures var all := Adopted(n, ports, recorded);
            && Consistent(n, ports, all)
            && recorded <= all
            && (forall k :: |recorded| <= k < |all| ==> Only(ports, k, all[k]))
            && (|all| < n ==> forall id :: !Only(ports, |all|, id))
    decreases n - |recorded|
  {
    if |recorded| < n && exists id :: Only(ports, |recorded|, id) {
      var id :| Only(ports, |recorded|, id) && Adopted(n, ports, recorded) == Adopted(n, ports, recorded + [id]);
      AdoptedFacts(n, ports, recorded + [id]);
    }
  }

  /** Adoption of adoptable ports succeeds and reaches every one of them. */
  lemma AdoptableIsReached(n: nat, ports: map<ID, nat>, recorded: seq<ID>)
    requires Consistent(n, ports, recorded) && Adoptable(ports, recorded)
    ensures AdoptionSucceeds(n, ports, recorded)
    ensures forall id :: id in ports ==> id in Adopted(n, ports, recorded)
  {
    AdoptedFacts(n, ports, recorded);
    var all := Adopted(n, ports, recorded);
    if |all| < n && !Unnamed(ports, |all|) {
      var id :| id in ports && ports[id] == |all|;
      assert Only(ports, |all|, id);
    }
    forall id | id in ports ensures id in all {
      assert |all| < n ==> Unnamed(ports, |all|);
      assert ports[id] < |all|;
      assert all[ports[id]] == id;
    }
  }

  /**
   * A deletion pass in which every call succeeds adopts without error and removes all ports of the
   * server exactly when all of them were within reach.
   */
  lemma DeletePassLeavesNoPortExactly(n: nat, ports: map<ID, nat>, recorded: seq<ID>)
    requires Consistent(n, ports, recorded)
    ensures AdoptionSucceeds(n, ports, recorded) && ports - Elems(Adopted(n, ports, recorded)) == map[]
            <==> Adoptable(ports, recorded)
  {
    AdoptedFacts(n, ports, recorded);
    var all := Adopted(n, ports, recorded);
    var left := ports - Elems(all);
    if Adoptable(ports, recorded) {
      AdoptableIsReached(n, ports, recorded);
      assert left == map[];
    }
    if left == map[] {
      forall id | id in ports ensures ports[id] < |all| && all[ports[id]] == id {
        assert id !in left && id in all;
        var k :| 0 <= k < |all| && all[k] == id;
      }
      forall id, i | id in ports && |recorded| <= i < ports[id] ensures !Unnamed(ports, i) {
        assert Only(ports, i, all[i]);
      }
    }
  }

  /**
   * Once a pass has recorded what it adopted, deleting any of the ports keeps the rest
   * within reach of the next pass: retries from any partial deletion end the same way.
   */
  lemma RecordedDeletionStaysAdoptable(n: nat, ports: map<ID, nat>, recorded: seq<ID>, gone: set<ID>)
    requires Consistent(n, ports, recorded) && Adoptable(ports, recorded)
    ensures var all := Adopted(n, ports, recorded);
            var left := ports - gone;
            && Adoptable(left, all)
            && left - Elems(Adopted(n, left, all)) == map[]
  {
    AdoptedFacts(n, ports, recorded);
    AdoptableIsReached(n, ports, recorded);
    var all := Adopted(n, ports, recorded);
    var left := ports - gone;
    forall id | id in ports ensures ports[id] < |all| && all[ports[id]] == id {
      var k :| 0 <= k < |all| && all[k] == id;
    }
    DeletePassLeavesNoPortExactly(n, left, all);
  }

  // ---------------------------------------------------------------- creation

  /**
   * EnsurePort for desired port i, and what EnsurePorts then writes down. A recorded port is looked
   * up by its ID, any other by its name. If a recorded port is gone, a new one is created, but the
   * entry keeps the old ID.
   */
  ghost function EnsureStep(ports: map<ID, nat>, recorded: seq<ID>, i: nat, newID: ID): (map<ID, nat>, seq<ID>)
    requires i <= |recorded|
    requires i == |recorded| ==> Unnamed(ports, i) || exists id :: Only(ports, i, id)
  {
    if i < |recorded| then (if recorded[i] in ports then ports else ports[newID := i], recorded)
    else if Unnamed(ports, i) then (ports[newID := i], recorded + [newID])
    else
      var id :| Only(ports, i, id);
      (ports, recorded + [id])
  }

  /** A step of EnsurePorts keeps all ports within reach exactly if the recorded port it looks up still exists. */
  lemma EnsureStepKeepsReachExactly(n: nat, ports: map<ID, nat>, recorded: seq<ID>, i: nat, newID: ID)
    requires Consistent(n, ports, recorded) && Adoptable(ports, recorded)
    requires i < n && i <= |recorded| && newID !in ports && newID !in recorded
    requires i == |recorded| ==> Unnamed(ports, i) || exists id :: Only(ports, i, id)
    ensures var (ports', recorded') := EnsureStep(ports, recorded, i, newID);
            Adoptable(ports', recorded') <==> (i < |recorded| ==> recorded[i] in ports)
  {
    var (ports', recorded') := EnsureStep(ports, recorded, i, newID);
    if i < |recorded| && recorded[i] !in ports {
      assert newID in ports' && ports'[newID] == i && recorded'[i] != newID;
    } else if i == |recorded| {
      forall id, j | id in ports' && |recorded'| <= j < ports'[id] ensures !Unnamed(ports', j) {
        assert !Unnamed(ports, i) && !Unnamed(ports, j);
        var other :| other in ports && ports[other] == j;
        assert other in ports' && ports'[other] == j;
      }
    }
  }

  // A whole pass of EnsurePorts, in which nothing fails and nobody else acts.

  ghost predicate UniqueFrom(ports: map<ID, nat>, i: nat) {
    forall id, other :: id in ports && other in ports && i <= ports[id] == ports[other] ==> id == other
  }

  ghost predicate Unused(ports: map<ID, nat>, recorded: seq<ID>, newID: ID) {
    && (forall id :: id in ports ==> id < newID)
    && (forall k :: 0 <= k < |recorded| ==> recorded[k] < newID)
  }

  /** The next ID after a step: Neutron has given out newID if the step created a port. */
  function NextID(ports: map<ID, nat>, ports': map<ID, nat>, newID: ID): ID {
    if ports' == ports then newID else newID + 1
  }

  /** EnsurePorts from desired port i on; new ports get the IDs from newID on. */
  ghost function EnsureAll(n: nat, ports: map<ID, nat>, recorded: seq<ID>, i: nat, newID: ID): (map<ID, nat>, seq<ID>)
    requires i <= |recorded| && UniqueFrom(ports, |recorded|)
    decreases n - i
  {
    if n <= i then (ports, recorded)
    else
      OneOrNone(ports, |recorded|);
      var (ports', recorded') := EnsureStep(ports, recorded, i, newID);
      EnsureAll(n, ports', recorded', i + 1, NextID(ports, ports', newID))
  }

  lemma OneOrNone(ports: map<ID, nat>, i: nat)
    requires UniqueFrom(ports, i)
    ensures Unnamed(ports, i) || exists id :: Only(ports, i, id)
  {
    if !Unnamed(ports, i) {
      var id :| id in ports && ports[id] == i;
      assert Only(ports, i, id);
    }
  }

  /** Every recorded port exists, and no other port has the name of one. */
  ghost predicate Tidy(ports: map<ID, nat>, recorded: seq<ID>) {
    && (forall k :: 0 <= k < |recorded| ==> recorded[k] in ports)
    && (forall id :: id in ports && ports[id] < |recorded| ==> recorded[ports[id]] == id)
  }

  lemma AdoptionKeepsTidy(n: nat, ports: map<ID, nat>, recorded: seq<ID>)
    requires Consistent(n, ports, recorded)
    ensures Tidy(ports, Adopted(n, ports, recorded)) <==> Tidy(ports, recorded)
  {
    AdoptedFacts(n, ports, recorded);
    var all := Adopted(n, ports, recorded);
    assert forall k :: 0 <= k < |recorded| ==> all[k] == recorded[k];
  }

  /** What a step does: nothing, a replacement, a new port, or the recording of one that is there. */
  ghost predicate StepOf(ports: map<ID, nat>, recorded: seq<ID>, i: nat, newID: ID, ports': map<ID, nat>, recorded': seq<ID>) {
    || (i < |recorded| && recorded[i] in ports && ports' == ports && recorded' == recorded)
    || (i < |recorded| && recorded[i] !in ports && ports' == ports[newID := i] && recorded' == recorded)
    || (i == |recorded| && ports' == ports[newID := i] && recorded' == recorded + [newID] && Unnamed(ports, i))
    || (i == |recorded| && ports' == ports && exists id :: Only(ports, i, id) && recorded' == recorded + [id])
  }

  /** A pass is a step and the rest of the pass. */
  lemma EnsureAllUnfolds(n: nat, ports: map<ID, nat>, recorded: seq<ID>, i: nat, newID: ID)
    returns (ports': map<ID, nat>, recorded': seq<ID>)
    requires UniqueFrom(ports, |recorded|) && Unused(ports, recorded, newID) && i < n && i <= |recorded|
    ensures StepOf(ports, recorded, i, newID, ports', recorded')
    ensures UniqueFrom(ports', |recorded'|) && Unused(ports', recorded', NextID(ports, ports', newID)) && i < |recorded'|
    ensures EnsureAll(n, ports, recorded, i, newID) == EnsureAll(n, ports', recorded', i + 1, NextID(ports, ports', newID))
  {
    OneOrNone(ports, |recorded|);
    var step := EnsureStep(ports, recorded, i, newID);
    ports', recorded' := step.0, step.1;
    var next := NextID(ports, ports', newID);
    assert newID !in ports && (newID in ports' ==> next == newID + 1);
    forall k | 0 <= k < |recorded'| ensures recorded'[k] < next {
      assert k < |recorded| || recorded'[k] in ports';
    }
  }

  lemma TidyStep(n: nat, ports: map<ID, nat>, recorded: seq<ID>, i: nat, newID: ID, ports': map<ID, nat>, recorded': seq<ID>)
    requires Consistent(n, ports, recorded) && Tidy(ports, recorded) && i < n
    requires Unused(ports, recorded, newID) && StepOf(ports, recorded, i, newID, ports', recorded')
    ensures Consistent(n, ports', recorded') && Tidy(ports', recorded')
  {
    assert forall k :: 0 <= k < |recorded| ==> recorded'[k] == recorded[k];
  }

  lemma TidyUnfolds(n: nat, ports: map<ID, nat>, recorded: seq<ID>, i: nat, newID: ID)
    returns (ports': map<ID, nat>, recorded': seq<ID>)
    requires Consistent(n, ports, recorded) && Tidy(ports, recorded) && i < n && i <= |recorded|
    requires UniqueFrom(ports, |recorded|) && Unused(ports, recorded, newID)
    ensures Consistent(n, ports', recorded') && Tidy(ports', recorded') && i < |recorded'|
    ensures UniqueFrom(ports', |recorded'|) && Unused(ports', recorded', NextID(ports, ports', newID))
    ensures EnsureAll(n, ports, recorded, i, newID) == EnsureAll(n, ports', recorded', i + 1, NextID(ports, ports', newID))
  {
    ports', recorded' := EnsureAllUnfolds(n, ports, recorded, i, newID);
    TidyStep(n, ports, recorded, i, newID, ports', recorded');
  }

  lemma FullListRecordsAll(n: nat, ports: map<ID, nat>, recorded: seq<ID>)
    requires Consistent(n, ports, recorded) && Tidy(ports, recorded) && n <= |recorded|
    ensures ports - Elems(recorded) == map[]
  {
    assert forall id :: id in ports ==> recorded[ports[id]] == id;
  }

  lemma {:induction false} TidyPassRecordsAll(n: nat, ports: map<ID, nat>, recorded: seq<ID>, i: nat, newID: ID)
    requires Consistent(n, ports, recorded) && UniqueFrom(ports, |recorded|) && Unused(ports, recorded, newID)
    requires i <= |recorded| && Tidy(ports, recorded)
    ensures var (ports', recorded') := EnsureAll(n, ports, recorded, i, newID);
            Tidy(ports', recorded') && ports' - Elems(recorded') == map[]
    decreases n - i
  {
    if i < n {
      var ports', recorded' := TidyUnfolds(n, ports, recorded, i, newID);
      TidyPassRecordsAll(n, ports', recorded', i + 1, NextID(ports, ports', newID));
    } else {
      FullListRecordsAll(n, ports, recorded);
    }
  }

  /** A port that bears the name of a recorded one, but is another, stays unrecorded. */
  lemma {:induction false} StrangerStaysUnrecorded(n: nat, ports: map<ID, nat>, recorded: seq<ID>, i: nat, newID: ID, id: ID)
    requires UniqueFrom(ports, |recorded|) && Unused(ports, recorded, newID) && i <= |recorded|
    requires id in ports && ports[id] < |recorded| && id !in recorded
    ensures var (ports', recorded') := EnsureAll(n, ports, recorded, i, newID); id in ports' && id !in recorded'
    decreases n - i
  {
    if i < n {
      var ports', recorded' := EnsureAllUnfolds(n, ports, recorded, i, newID);
      assert id !in recorded' by {
        if k :| 0 <= k < |recorded'| && recorded'[k] == id {
          assert k < |recorded| ==> recorded[k] == id;
        }
      }
      StrangerStaysUnrecorded(n, ports', recorded', i + 1, NextID(ports, ports', newID), id);
    }
  }

  /** A recorded port that is gone is replaced by one that stays unrecorded. */
  lemma {:induction false} LostPortIsReplaced(n: nat, ports: map<ID, nat>, recorded: seq<ID>, i: nat, newID: ID, k: nat) returns (id: ID)
    requires UniqueFrom(ports, |recorded|) && Unused(ports, recorded, newID)
    requires i <= k < |recorded| <= n && recorded[k] !in ports
    ensures var (ports', recorded') := EnsureAll(n, ports, recorded, i, newID); id in ports' && id !in recorded'
    decreases n - i
  {
    var ports', recorded' := EnsureAllUnfolds(n, ports, recorded, i, newID);
    if i == k {
      StrangerStaysUnrecorded(n, ports', recorded', i + 1, NextID(ports, ports', newID), newID);
      id := newID;
    } else {
      id := LostPortIsReplaced(n, ports', recorded', i + 1, NextID(ports, ports', newID), k);
    }
  }

  /**
   * A pass of EnsurePorts leaves every port recorded, gaps or not, exactly if every recorded port
   * exists and no other port has its name.
   */
  lemma EnsurePassRecordsAllExactly(n: nat, ports: map<ID, nat>, recorded: seq<ID>, newID: ID)
    requires Consistent(n, ports, recorded) && UniqueFrom(ports, |recorded|) && Unused(ports, recorded, newID)
    ensures var (ports', recorded') := EnsureAll(n, ports, recorded, 0, newID);
            && (ports' - Elems(recorded') == map[] <==> Tidy(ports, recorded))
            && (Tidy(ports, recorded) ==> Tidy(ports', recorded'))
  {
    var (ports', recorded') := EnsureAll(n, ports, recorded, 0, newID);
    if Tidy(ports, recorded) {
      TidyPassRecordsAll(n, ports, recorded, 0, newID);
    } else {
      var stranger: ID;
      if k :| 0 <= k < |recorded| && recorded[k] !in ports {
        stranger := LostPortIsReplaced(n, ports, recorded, 0, newID, k);
      } else {
        stranger :| stranger in ports && ports[stranger] < |recorded| && recorded[ports[stranger]] != stranger;
        StrangerStaysUnrecorded(n, ports, recorded, 0, newID, stranger);
      }
      assert stranger in ports' - Elems(recorded');
    }
  }

  /**
   * The failing input: the one recorded port was deleted by someone else. Every reconcile creates
   * one more port under its name and records none of them; the deletion pass adopts nothing, since
   * the status lists as many ports as are desired, and leaves them all.
   */
  lemma LostPortIsReplacedAndLeftBehind()
    ensures var (ports1, recorded1) := EnsureStep(map[], [10], 0, 11);
            var (ports2, recorded2) := EnsureStep(ports1, recorded1, 0, 12);
            && recorded2 == [10] && ports2 == map[11 := 0, 12 := 0]
            && AdoptionSucceeds(1, ports2, recorded2)
            && ports2 - Elems(Adopted(1, ports2, recorded2)) == map[11 := 0, 12 := 0]
  {
    var ports2: map<ID, nat> := map[11 := 0, 12 := 0];
    assert Elems([10]) == {10};
    assert ports2 - {10} == ports2;
  }

  /**
   * What a deletion does that no status records: of two ports that an empty list does not name, both
   * are within reach; without the first, adoption ends before the second and leaves it.
   */
  lemma UnrecordedDeletionLosesReach()
    ensures var ports: map<ID, nat> := map[10 := 0, 11 := 1];
            var left := ports - {10};
            && Adoptable(ports, [])
            && AdoptionSucceeds(2, left, []) && Adopted(2, left, []) == [] && 11 in left
  {
    var ports: map<ID, nat> := map[10 := 0, 11 := 1];
    var left := ports - {10};
    assert 10 in ports && ports[10] == 0 && 11 in left;
    assert Unnamed(left, 0);
    assert forall id :: !Only(left, 0, id);
  }
}
