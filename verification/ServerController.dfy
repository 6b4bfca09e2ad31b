/** The states of an OpenStack instance that the controllers tell apart (api/v1beta2/types.go). */
module Instances {
  import opened Common

  datatype InstanceState = Build | Active | Error | Deleted | SoftDeleted | Undefined | Other(name: string)

  /** What the parent controllers read of an OpenStackServer. */
  datatype ServerStatus = ServerStatus(instanceID: Option<nat>, instanceState: Option<InstanceState>, ready: bool)

  /** Ready means ACTIVE, and an ACTIVE server has its instance recorded. */
  ghost predicate StatusOK(s: ServerStatus) {
    && (s.ready ==> s.instanceState == Some(Active))
    && (s.instanceState == Some(Active) ==> s.instanceID.Some?)
  }

  /** How the status of one OpenStackServer may change over its lifetime. */
  ghost predicate Evolves(before: ServerStatus, after: ServerStatus) {
    && StatusOK(after)
    && (before.instanceID.Some? ==> after.instanceID == before.instanceID)
  }
}

/**
 * The OpenStackServer controller (controllers/openstackserver_controller.go) for one server,
 * with the stored object, the working copy of a reconcile, and the ports and instances of that
 * name in OpenStack.
 *
 * Any call may fail, with or without having taken effect; a crash is such a failure after which
 * no patch is written. Users act in between, and may remove ports and instances. At the end of a
 * reconcile the metadata patch and the status patch succeed or fail independently.
 */
module ServerController {
  import opened Common
  import opened Instances
  import opened ServerPorts

  /** ResolvedServerSpec; the resolved ports are represented by their number. */
  datatype Resolved = Resolved(serverGroupID: string, imageID: string, flavorID: string, ports: nat)

  datatype Server = Server(
    finalizer: bool,
    resolved: Option<Resolved>,
    resources: Option<seq<ID>>,
    instanceID: Option<ID>,
    instanceState: Option<InstanceState>,
    ready: bool)
  {
    function Recorded(): seq<ID> {
      resources.GetOr([])
    }

    function Status(): ServerStatus {
      ServerStatus(instanceID, instanceState, ready)
    }

    /** A deletion starts with reconcileNormal if the status lacks the spec or the resources. */
    predicate NeedsNormal() {
      resolved.None? || resources.None?
    }
  }

  /**
   * What an observer sees after an effect. When the controller has let the server go, `released`
   * holds the ports that it had recorded or adopted by then.
   */
  datatype Snapshot = Snapshot(stored: Server, ports: map<ID, nat>, instances: set<ID>, released: Option<seq<ID>>)

  /**
   * A stored server from which a deletion leaks a port, although only the controller deletes ports:
   * finalizer and spec are stored, the resources are there and empty, so the deletion does not
   * start with reconcileNormal. One pass reaches both ports, deletes the first and loses its
   * status; the next one leaves the second.
   */
  lemma UnrecordedDeletionLeaksPort(resolved: Resolved)
    requires resolved.ports == 2
    ensures var s := Server(true, Some(resolved), Some([]), None, None, false);
            var ports: map<ID, nat> := map[10 := 0, 11 := 1];
            var left := ports - {10};
            && !s.NeedsNormal() && Consistent(2, ports, s.Recorded()) && Adoptable(ports, s.Recorded())
            && AdoptionSucceeds(2, left, s.Recorded())
            && 11 in left - Elems(Adopted(2, left, s.Recorded()))
  {
    UnrecordedDeletionLosesReach();
  }

  /**
   * With no resources stored at all the deletion starts with reconcileNormal. Whatever ports exist,
   * its adoption and its EnsurePorts leave every one recorded, gaps or not. Only if it has to wait
   * for a floating address, so that EnsurePorts does not come to pass, the deletion that follows
   * depends on the ports being within reach.
   */
  lemma MissingResourcesDoNotLeak(resolved: Resolved, ports: map<ID, nat>, newID: ID)
    requires Consistent(resolved.ports, ports, []) && UniqueFrom(ports, 0) && Unused(ports, [], newID)
    ensures var s := Server(true, Some(resolved), None, None, None, false);
            var adopted := Adopted(resolved.ports, ports, s.Recorded());
            && s.NeedsNormal()
            && var (ports', recorded') := EnsureAll(resolved.ports, ports, adopted, 0, newID);
               ports' - Elems(recorded') == map[]
    ensures var n := resolved.ports;
            AdoptionSucceeds(n, ports, []) && ports - Elems(Adopted(n, ports, [])) == map[] <==> Adoptable(ports, [])
  {
    var adopted := Adopted(resolved.ports, ports, []);
    AdoptedFacts(resolved.ports, ports, []);
    EnsurePassRecordsAllExactly(resolved.ports, ports, adopted, newID);
    DeletePassLeavesNoPortExactly(resolved.ports, ports, []);
  }

  class Controller {
    const nPorts: nat
    const needsServerGroup: bool
    /**
     * Only the controller deletes ports, and a deletion pass that deleted a port and then failed
     * gets its status written.
     */
    const orderly: bool
    /**
     * Nobody else acts while a reconcile is in progress, no call fails, and nothing that it waits for
     * (the image, a floating address) is missing.
     */
    const calm: bool

    // API server
    var present: bool
    var deleting: bool
    var stored: Server

    // OpenStack: the existing ports by ID, with the desired port they are named for, and the live instances that have the server's name
    var ports: map<ID, nat>
    var instances: set<ID>
    var nextPort: ID
    var nextInstance: ID

    // the working copy
    var mem: Server

    /** Set when the controller removes its finalizer from the stored object. */
    ghost var released: Option<seq<ID>>
    /** A port was deleted in this reconcile, and the status has not been written since. */
    var dirty: bool
    ghost var history: seq<Snapshot>

    ghost predicate Complete(r: Option<Resolved>) {
      && r.Some?
      && r.value.imageID != "" && r.value.flavorID != "" && r.value.ports == nPorts && nPorts > 0
      && (needsServerGroup ==> r.value.serverGroupID != "")
    }

    /**
     * Write-ahead: until the controller lets the server go, whatever exists in OpenStack is covered
     * by the stored finalizer and the stored spec. Afterwards no instance and none of the ports
     * that it had recorded or adopted exists, and in an orderly world no port at all.
     */
    ghost predicate Covered(s: Snapshot) {
      && (s.ports != map[] || s.instances != {} ==> Complete(s.stored.resolved) && (s.released.Some? || s.stored.finalizer))
      && (s.released.Some? ==>
            && s.instances == {} && !s.stored.finalizer
            && (forall k :: 0 <= k < |s.released.value| ==> s.released.value[k] !in s.ports)
            && (orderly ==> s.ports == map[]))
    }

    ghost predicate Safe(s: Snapshot) {
      && Covered(s)
      && |s.instances| <= 1
      && StatusOK(s.stored.Status())
      && (s.stored.instanceID.Some? ==> s.instances <= {s.stored.instanceID.value})
    }

    /** Every state so far was safe, and a recorded instance ID was never replaced nor joined by another instance. */
    ghost predicate SafeRun(h: seq<Snapshot>) {
      && (forall i :: 0 <= i < |h| ==> Safe(h[i]))
      && (forall i, j :: 0 <= i <= j < |h| && h[i].stored.instanceID.Some? ==>
            h[j].stored.instanceID == h[i].stored.instanceID && h[j].instances <= {h[i].stored.instanceID.value})
    }

    /** What a safe run means for the controllers that watch the server. */
    lemma SafeRunEvolves(h: seq<Snapshot>, i: nat, j: nat)
      requires SafeRun(h) && i <= j < |h|
      ensures Evolves(h[i].stored.Status(), h[j].stored.Status())
    {
      assert Safe(h[j]);
    }

    ghost predicate RecordedExist(s: Server)
      reads this`ports
    {
      forall k :: 0 <= k < |s.Recorded()| ==> s.Recorded()[k] in ports
    }

    ghost predicate PortsOK(s: Server)
      reads this`ports, this`nextPort, this`deleting
    {
      && Consistent(nPorts, ports, s.Recorded())
      && (forall id :: id in ports ==> id < nextPort)
      && (forall k :: 0 <= k < |s.Recorded()| ==> s.Recorded()[k] < nextPort)
      && (s.Recorded() != [] ==> Complete(s.resolved))
      && (s.resolved.Some? ==> s.resolved.value.ports == 0 || s.resolved.value.ports == nPorts)
      && (orderly && !deleting ==> RecordedExist(s))
    }

    ghost predicate WorldOK()
      reads this`present, this`deleting, this`stored, this`ports, this`instances, this`nextPort, this`nextInstance, this`released, this`dirty
    {
      && Safe(Snapshot(stored, ports, instances, released))
      && (stored.finalizer ==> present)
      && (forall i :: i in instances ==> i < nextInstance)
      && (stored.instanceID.Some? ==> stored.instanceID.value < nextInstance)
      && PortsOK(stored)
      && (orderly && !dirty ==> Adoptable(ports, stored.Recorded()))
      && (released.Some? ==> deleting)
      && (dirty ==> deleting)
    }

    /** All earlier states were safe, and the stored object still names any instance they recorded. */
    ghost predicate HistoryOK()
      reads this`stored, this`history
    {
      && SafeRun(history)
      && (forall i :: 0 <= i < |history| && history[i].stored.instanceID.Some? ==> stored.instanceID == history[i].stored.instanceID)
    }

    /** Ports exist only under a stored spec. */
    ghost predicate Backed()
      reads this`ports, this`stored
    {
      ports != map[] ==> Complete(stored.resolved)
    }

    ghost function Current(): Snapshot
      reads this`stored, this`ports, this`instances, this`released
    {
      Snapshot(stored, ports, instances, released)
    }

    /** The world is in order, and the history ends with it. */
    ghost predicate Inv()
      reads this`present, this`deleting, this`stored, this`ports, this`instances, this`nextPort, this`nextInstance
      reads this`released, this`dirty, this`history
    {
      WorldOK() && HistoryOK() && history != [] && history[|history| - 1] == Current()
    }

    ghost method Record()
      requires WorldOK() && HistoryOK()
      modifies this`history
      ensures Inv() && history == old(history) + [Current()]
    {
      history := history + [Current()];
    }

    /** How the working copy of a reconcile relates to the world. */
    ghost predicate Working()
      reads this`mem, this`stored, this`ports, this`instances, this`nextPort, this`nextInstance, this`deleting
    {
      && StatusOK(mem.Status())
      && (mem.instanceID.Some? ==> mem.instanceID.value < nextInstance)
      && PortsOK(mem)
      && stored.Recorded() <= mem.Recorded()
      && (stored.instanceID.Some? ==> mem.instanceID == stored.instanceID)
      && (mem.instanceID.Some? ==> instances <= {mem.instanceID.value})
      && (Complete(stored.resolved) ==> mem.resolved == stored.resolved)
      && (orderly ==> Adoptable(ports, mem.Recorded()))
    }

    constructor (nPorts: nat, needsServerGroup: bool, orderly: bool, calm: bool)
      ensures Inv() && present && !dirty && stored == Server(false, None, None, None, None, false)
      ensures this.orderly == orderly && this.calm == calm && this.nPorts == nPorts
    {
      this.nPorts := nPorts;
      this.needsServerGroup := needsServerGroup;
      this.orderly, this.calm := orderly, calm;
      present, deleting := true, false;
      stored := Server(false, None, None, None, None, false);
      mem := Server(false, None, None, None, None, false);
      ports, instances := map[], {};
      nextPort, nextInstance := 0, 0;
      released, dirty := None, false;
      history := [Snapshot(Server(false, None, None, None, None, false), map[], {}, None)];
    }

    // -------------------------------------------------------------- the environment

    /** Users ask for the deletion of the server, and remove ports and instances behind the controller's back. */
    method Interfere()
      requires Inv()
      modifies this`ports, this`instances, this`deleting, this`present, this`history
      ensures Inv() && old(history) <= history
      ensures old(Working()) ==> Working()
      ensures ports.Keys <= old(ports).Keys && (forall id :: id in ports ==> ports[id] == old(ports)[id])
      ensures orderly ==> ports == old(ports)
      ensures instances <= old(instances)
      ensures old(deleting) ==> deleting
      ensures present ==> old(present)
    {
      LosePorts();
      LoseInstances();
      AskDeletion();
    }

    method AskDeletion()
      requires Inv()
      modifies this`deleting, this`present
      ensures Inv() && (old(Working()) ==> Working())
      ensures old(deleting) ==> deleting
      ensures present ==> old(present)
    {
      var delete: bool := *;
      deleting := deleting || delete;
      var noOtherFinalizer: bool := *;
      if deleting && !stored.finalizer && noOtherFinalizer {
        present := false;
      }
    }

    method LosePorts()
      requires Inv()
      modifies this`ports, this`history
      ensures Inv() && old(history) <= history
      ensures old(Working()) ==> Working()
      ensures ports.Keys <= old(ports).Keys && (forall id :: id in ports ==> ports[id] == old(ports)[id])
      ensures orderly ==> ports == old(ports)
    {
      var lost: set<ID> := *;
      if !orderly {
        ports := ports - lost;
        Record();
      }
    }

    method LoseInstances()
      requires Inv()
      modifies this`instances, this`history
      ensures Inv() && old(history) <= history
      ensures old(Working()) ==> Working()
      ensures instances <= old(instances)
    {
      var gone: set<ID> := *;
      RemoveInstances(gone);
    }

    method RemoveInstances(gone: set<ID>)
      requires Inv()
      modifies this`instances, this`history
      ensures Inv() && old(history) <= history
      ensures old(Working()) ==> Working()
      ensures instances == old(instances) - gone
    {
      SubsetCardinality(instances - gone, instances);
      instances := instances - gone;
      Record();
    }

    /** What happens before a call of a reconcile. */
    method Meanwhile()
      requires Inv()
      modifies this`ports, this`instances, this`deleting, this`present, this`history
      ensures Inv() && old(history) <= history
      ensures old(Working()) ==> Working()
      ensures ports.Keys <= old(ports).Keys && (forall id :: id in ports ==> ports[id] == old(ports)[id])
      ensures orderly ==> ports == old(ports)
      ensures instances <= old(instances)
      ensures old(deleting) ==> deleting
      ensures present ==> old(present)
      ensures Still() && (calm ==> ports == old(ports) && instances == old(instances))
    {
      if !calm {
        Interfere();
      }
    }

    /** Nobody has deleted the server meanwhile, if nobody acts. */
    twostate predicate Still()
      reads this`deleting, this`present
    {
      calm ==> deleting == old(deleting) && present == old(present)
    }

    /** CreatePort for desired port i. The precondition is the write-ahead rule. */
    method CreatePort(i: nat) returns (r: Result<ID>)
      requires Inv() && Working()
      requires stored.finalizer && Complete(stored.resolved) && i < nPorts
      requires orderly ==> i == |mem.Recorded()| && Unnamed(ports, i) && RecordedExist(mem)
      modifies this`ports, this`nextPort, this`history
      ensures Inv() && Working() && old(history) <= history
      ensures ports == old(ports) || ports == old(ports)[old(nextPort) := i]
      ensures r.Ok? ==> r.value == old(nextPort) && ports == old(ports)[r.value := i]
      ensures old(nextPort) <= nextPort && (r.Ok? ==> r.value < nextPort)
      ensures calm ==> r.Ok? && nextPort == old(nextPort) + 1
    {
      var fail: bool := *;
      fail := fail && !calm;
      var effect: bool := *;
      r := if fail then Err else Ok(nextPort);
      if !fail || effect {
        AddPort(i);
      }
    }

    method AddPort(i: nat)
      requires Inv() && Working()
      requires stored.finalizer && Complete(stored.resolved) && i < nPorts
      requires orderly ==> i == |mem.Recorded()| && Unnamed(ports, i) && RecordedExist(mem)
      modifies this`ports, this`nextPort, this`history
      ensures Inv() && Working() && old(history) <= history
      ensures ports == old(ports)[old(nextPort) := i] && nextPort == old(nextPort) + 1
    {
      CreationKeepsReach(i);
      ports := ports[nextPort := i];
      nextPort := nextPort + 1;
      Record();
    }

    lemma CreationKeepsReach(i: nat)
      requires WorldOK() && Working()
      requires orderly ==> i == |mem.Recorded()| && Unnamed(ports, i) && RecordedExist(mem)
      ensures orderly ==> Adoptable(ports[nextPort := i], mem.Recorded())
      ensures orderly && !dirty ==> Adoptable(ports[nextPort := i], stored.Recorded())
    {
      if orderly {
        NewPortStaysAdoptable(ports, mem.Recorded(), mem.Recorded(), i, nextPort);
        if !dirty {
          NewPortStaysAdoptable(ports, stored.Recorded(), mem.Recorded(), i, nextPort);
        }
      }
    }

    /** A port created next to the existing recorded ones is within reach of any earlier list. */
    lemma NewPortStaysAdoptable(ports: map<ID, nat>, recorded: seq<ID>, all: seq<ID>, i: nat, newID: ID)
      requires Adoptable(ports, recorded) && recorded <= all && Consistent(nPorts, ports, all)
      requires (forall k :: 0 <= k < |all| ==> all[k] in ports) && Unnamed(ports, i) && i == |all| && newID !in ports
      ensures Adoptable(ports[newID := i], recorded)
    {
      var ports' := ports[newID := i];
      forall id, j | id in ports' && |recorded| <= j < ports'[id] ensures !Unnamed(ports', j) {
        if id == newID {
          assert all[j] in ports' && ports'[all[j]] == j;
        } else {
          var other :| other in ports && ports[other] == j;
          assert ports'[other] == j;
        }
      }
    }

    /** DeletePort by ID; a port that is already gone counts as deleted. */
    method DeletePort(id: ID) returns (ok: bool)
      requires Inv() && Working() && deleting
      requires orderly ==> forall other :: other in ports ==> ports[other] < |mem.Recorded()|
      modifies this`ports, this`dirty, this`history
      ensures Inv() && Working() && old(history) <= history
      ensures ports == old(ports) || ports == old(ports) - {id}
      ensures ok ==> ports == old(ports) - {id}
      ensures calm ==> ok
    {
      ok := *;
      ok := ok || calm;
      var effect: bool := *;
      if ok || effect {
        dirty := true;
        ports := ports - {id};
        Record();
      }
    }

    /** computeService.CreateInstance. The precondition is the write-ahead rule, and that all ports are recorded and no instance exists. */
    method CreateInstance() returns (r: Result<(ID, InstanceState)>)
      requires Inv() && Working()
      requires stored.finalizer && Complete(stored.resolved)
      requires instances == {} && mem.instanceID.None? && |mem.Recorded()| == nPorts
      modifies this`instances, this`nextInstance, this`history
      ensures Inv() && Working() && old(history) <= history
      ensures r.Ok? ==> r.value.0 == old(nextInstance) && instances == {r.value.0} && nextInstance == old(nextInstance) + 1
      ensures calm ==> r.Ok?
    {
      var fail: bool := *;
      fail := fail && !calm;
      var effect: bool := *;
      var state: InstanceState := *;
      r := if fail then Err else Ok((nextInstance, state));
      if !fail || effect {
        instances := {nextInstance};
        nextInstance := nextInstance + 1;
        Record();
      }
    }

    /** computeService.GetInstanceStatus: an instance that is not live may be missing or still be shown as deleted. */
    method GetInstanceStatus(id: ID) returns (r: Result<Option<InstanceState>>)
      ensures r.Ok? && r.value.None? ==> id !in instances
      ensures calm ==> r.Ok?
    {
      var fail: bool := *;
      var state: InstanceState := *;
      var shown: bool := *;
      if fail && !calm {
        return Err;
      }
      r := Ok(if id in instances || (shown && state in {Deleted, SoftDeleted}) then Some(state) else None);
    }

    /** computeService.GetInstanceStatusByName: complete, and an error on several matches. */
    method GetInstanceStatusByName() returns (r: Result<Option<(ID, InstanceState)>>)
      ensures r.Ok? && r.value.None? ==> instances == {}
      ensures r.Ok? && r.value.Some? ==> instances == {r.value.value.0}
      ensures calm && |instances| <= 1 ==> r.Ok?
    {
      var fail: bool := *;
      var state: InstanceState := *;
      if fail && !calm {
        return Err;
      }
      if instances == {} {
        return Ok(None);
      }
      var id :| id in instances;
      if other :| other in instances && other != id {
        SubsetCardinality({id, other}, instances);
      }
      r := if instances == {id} then Ok(Some((id, state))) else Err;
    }

    /** computeService.DeleteInstance, which waits until the instance is gone. */
    method DeleteInstance(id: ID) returns (ok: bool)
      requires Inv() && Working()
      modifies this`instances, this`history
      ensures Inv() && Working() && old(history) <= history
      ensures instances <= old(instances)
      ensures ok ==> id !in instances
      ensures calm ==> ok
    {
      ok := *;
      ok := ok || calm;
      var effect: bool := *;
      if ok || effect {
        RemoveInstances({id});
      }
    }

    // -------------------------------------------------------------- the controller

    /**
     * The four setters of compute.ResolveServerSpec, each filling a field that is still empty. Done
     * without a change means that everything was resolved before.
     */
    method ResolveFields(before: Resolved) returns (res: Resolved, changed: bool, done: bool, err: bool)
      requires before.ports == 0 || before.ports == nPorts
      ensures res == before.(serverGroupID := res.serverGroupID, imageID := res.imageID, flavorID := res.flavorID, ports := res.ports)
      ensures res.ports == before.ports || (before.ports == 0 && res.ports == nPorts)
      ensures Complete(Some(before)) ==> res == before
      ensures done && !changed && !err ==> Complete(Some(before))
      ensures calm && nPorts > 0 ==> done && !err && Complete(Some(res)) && (changed <==> !Complete(Some(before)))
    {
      res, changed, done, err := before, false, true, false;
      if needsServerGroup && res.serverGroupID == "" {
        var id := LookUp();
        match id
        case Ok(v) => res, changed := res.(serverGroupID := v), true;
        case Err => done, err := false, true;
      }
      if res.imageID == "" {
        var id := LookUpImage();
        match id
        case Ok(Some(v)) => res, changed := res.(imageID := v), true;
        case Ok(None) => done := false;
        case Err => done, err := false, true;
      }
      if res.flavorID == "" {
        var id := LookUp();
        match id
        case Ok(v) => res, changed := res.(flavorID := v), true;
        case Err => done, err := false, true;
      }
      if res.ports == 0 {
        var constructed: bool := *;
        if (constructed || calm) && nPorts > 0 {
          res, changed := res.(ports := nPorts), true;
        } else {
          done, err := false, true;
        }
      }
    }

    /** The ID of the server group or flavor that the spec describes. */
    method LookUp() returns (r: Result<string>)
      ensures calm ==> r.Ok? && r.value != ""
    {
      var id: string := *;
      var fail: bool := *;
      r := if calm then Ok(if id == "" then "0" else id) else if fail then Err else Ok(id);
    }

    /** The ID of the image; there is none yet while an image object is still being imported. */
    method LookUpImage() returns (r: Result<Option<string>>)
      ensures calm ==> r.Ok? && r.value.Some? && r.value.value != ""
    {
      var id := LookUp();
      var importing: bool := *;
      r := if id.Err? then Err else Ok(if importing && !calm then None else Some(id.value));
    }

    method ResolveServerSpec() returns (changed: bool, done: bool, err: bool)
      requires Working()
      modifies this`mem
      ensures Working()
      ensures mem == old(mem).(resolved := mem.resolved) && mem.resolved.Some?
      ensures Complete(old(mem).resolved) ==> mem.resolved == old(mem).resolved
      ensures done && !changed && !err ==> Complete(old(mem).resolved)
      ensures calm && nPorts > 0 ==> done && !err && Complete(mem.resolved) && (changed <==> !Complete(old(mem).resolved))
    {
      var res;
      res, changed, done, err := ResolveFields(mem.resolved.GetOr(Resolved("", "", "", 0)));
      mem := mem.(resolved := Some(res));
    }

    /** adoptServerResources; nothing is looked up if the status already lists as many ports as are desired. */
    method AdoptServerResources() returns (ok: bool)
      requires Working() && Backed() && mem.resolved.Some?
      modifies this`mem
      ensures Working()
      ensures mem == old(mem).(resources := mem.resources) && mem.resources.Some?
      ensures old(mem).Recorded() <= mem.Recorded()
      ensures old(RecordedExist(mem)) ==> RecordedExist(mem)
      ensures ok ==>
                && AdoptionSucceeds(old(mem).resolved.value.ports, ports, old(mem).Recorded())
                && mem.Recorded() == Adopted(old(mem).resolved.value.ports, ports, old(mem).Recorded())
      ensures calm && UniqueFrom(ports, |old(mem).Recorded()|) ==> ok
    {
      mem := mem.(resources := Some(mem.Recorded()));
      ok := true;
      if mem.resolved.value.ports != |mem.Recorded()| {
        ok := AdoptPorts();
      }
    }

    /** The loop of AdoptPortsServer over the desired ports. */
    method AdoptPorts() returns (ok: bool)
      requires Working() && Backed() && mem.resolved.Some? && mem.resources.Some?
      modifies this`mem
      ensures Working()
      ensures mem == old(mem).(resources := mem.resources) && mem.resources.Some?
      ensures old(mem).Recorded() <= mem.Recorded()
      ensures old(RecordedExist(mem)) ==> RecordedExist(mem)
      ensures ok ==>
                && AdoptionSucceeds(mem.resolved.value.ports, ports, old(mem).Recorded())
                && mem.Recorded() == Adopted(mem.resolved.value.ports, ports, old(mem).Recorded())
      ensures calm && UniqueFrom(ports, |old(mem).Recorded()|) ==> ok
    {
      var n := mem.resolved.value.ports;
      for i := 0 to n
        invariant Working()
        invariant mem == old(mem).(resources := mem.resources) && mem.resources.Some?
        invariant old(mem).Recorded() <= mem.Recorded()
        invariant old(RecordedExist(mem)) ==> RecordedExist(mem)
        invariant i <= |mem.Recorded()|
        invariant Adopted(n, ports, mem.Recorded()) == Adopted(n, ports, old(mem).Recorded())
      {
        if i < |mem.Recorded()| {
          continue;
        }
        var next := AdoptNext();
        if next.Err? {
          return false;
        }
        if !next.value {
          AdoptionEnds(n, ports, mem.Recorded());
          return true;
        }
      }
      AdoptionEnds(n, ports, mem.Recorded());
      ok := true;
    }

    /** Looks for the port of the first name that is not recorded, and records it if it is there. */
    method AdoptNext() returns (more: Result<bool>)
      requires Working() && Backed() && mem.resolved.Some? && mem.resources.Some?
      requires |mem.Recorded()| < mem.resolved.value.ports
      modifies this`mem
      ensures Working()
      ensures mem == old(mem).(resources := mem.resources) && mem.resources.Some?
      ensures calm && UniqueFrom(ports, |old(mem).Recorded()|) ==> more.Ok?
      ensures more.Ok? && more.value ==> |mem.Recorded()| == |old(mem).Recorded()| + 1
      ensures !(more.Ok? && more.value) ==> mem == old(mem)
      ensures more.Ok? && !more.value ==> Unnamed(ports, |mem.Recorded()|)
      ensures old(mem).Recorded() <= mem.Recorded()
      ensures old(RecordedExist(mem)) ==> RecordedExist(mem)
      ensures var n := mem.resolved.value.ports; Adopted(n, ports, mem.Recorded()) == Adopted(n, ports, old(mem).Recorded())
    {
      var found := ListByName(|mem.Recorded()|);
      if found.Err? || found.value.None? {
        return if found.Err? then Err else Ok(false);
      }
      AdoptedStep(mem.resolved.value.ports, ports, mem.Recorded(), found.value.value);
      AdoptStep(found.value.value);
      more := Ok(true);
    }

    /** ListPort by name and network. Several ports of one name are an error for every caller. */
    method ListByName(i: nat) returns (r: Result<Option<ID>>)
      ensures r.Ok? && r.value.None? ==> Unnamed(ports, i)
      ensures r.Ok? && r.value.Some? ==> Only(ports, i, r.value.value)
      ensures calm && UniqueFrom(ports, i) ==> r.Ok?
    {
      var fail: bool := *;
      var found := set id | id in ports && ports[id] == i;
      if fail && !calm {
        return Err;
      }
      if found == {} {
        assert forall id :: id in ports && ports[id] == i ==> id in found;
        return Ok(None);
      }
      var id :| id in found;
      assert forall other :: other in ports && ports[other] == i ==> other in found;
      r := if found == {id} then Ok(Some(id)) else Err;
    }

    /** Appends the port of the next name to the working status. */
    method AdoptStep(id: ID)
      requires Working() && Backed() && mem.resources.Some? && mem.resolved.Some?
      requires Only(ports, |mem.Recorded()|, id)
      requires |mem.Recorded()| < mem.resolved.value.ports
      modifies this`mem
      ensures Working()
      ensures mem == old(mem).(resources := Some(old(mem).Recorded() + [id]))
      ensures old(RecordedExist(mem)) ==> RecordedExist(mem)
    {
      mem := mem.(resources := Some(mem.Recorded() + [id]));
    }

    /** EnsurePort for desired port i, and what EnsurePorts writes down. */
    method EnsurePort(i: nat) returns (ok: bool)
      requires Inv() && Working() && mem.resources.Some?
      requires stored.finalizer && Complete(stored.resolved) && i < nPorts && i <= |mem.Recorded()|
      requires orderly ==> RecordedExist(mem)
      modifies this`ports, this`nextPort, this`history, this`mem
      ensures Inv() && Working() && mem.resources.Some? && old(history) <= history
      ensures mem == old(mem).(resources := mem.resources)
      ensures orderly ==> RecordedExist(mem)
      ensures ok ==>
                && i < |mem.Recorded()| && !Unnamed(ports, i)
                && (i == old(|mem.Recorded()|) ==> old(Unnamed(ports, i)) || exists id :: Only(old(ports), i, id))
                && (ports, mem.Recorded()) == EnsureStep(old(ports), old(mem).Recorded(), i, old(nextPort))
      ensures calm && UniqueFrom(old(ports), |old(mem).Recorded()|) ==> ok && nextPort == NextID(old(ports), ports, old(nextPort))
    {
      if i < |mem.Recorded()| {
        ok := EnsureRecorded(i);
      } else {
        ok := EnsureUnrecorded();
        assert ok && !old(Unnamed(ports, i)) ==> Only(old(ports), i, mem.Recorded()[i]);
        assert ok ==> mem.Recorded() == old(mem).Recorded() + [mem.Recorded()[i]];
      }
    }

    /** A port of a name that is not recorded yet is looked up by that name, created if missing, and recorded. */
    method EnsureUnrecorded() returns (ok: bool)
      requires Inv() && Working() && mem.resources.Some?
      requires stored.finalizer && Complete(stored.resolved) && |mem.Recorded()| < nPorts
      requires orderly ==> RecordedExist(mem)
      modifies this`ports, this`nextPort, this`history, this`mem
      ensures Inv() && Working() && mem.resources.Some? && old(history) <= history
      ensures mem == old(mem).(resources := mem.resources)
      ensures orderly ==> RecordedExist(mem)
      ensures ok ==> |mem.Recorded()| == old(|mem.Recorded()|) + 1 && old(mem).Recorded() < mem.Recorded()
      ensures ok ==> var i := old(|mem.Recorded()|);
                     if old(Unnamed(ports, i)) then mem.Recorded()[i] == old(nextPort) && ports == old(ports)[old(nextPort) := i]
                     else Only(ports, i, mem.Recorded()[i]) && ports == old(ports)
      ensures calm && UniqueFrom(old(ports), |old(mem).Recorded()|) ==> ok && nextPort == NextID(old(ports), ports, old(nextPort))
    {
      var found := ListByName(|mem.Recorded()|);
      if found.Err? {
        return false;
      }
      if found.value.Some? {
        AdoptStep(found.value.value);
        return true;
      }
      ok := CreateUnrecorded();
    }

    method CreateUnrecorded() returns (ok: bool)
      requires Inv() && Working() && mem.resources.Some?
      requires stored.finalizer && Complete(stored.resolved) && |mem.Recorded()| < nPorts
      requires Unnamed(ports, |mem.Recorded()|) && (orderly ==> RecordedExist(mem))
      modifies this`ports, this`nextPort, this`history, this`mem
      ensures Inv() && Working() && mem.resources.Some? && old(history) <= history
      ensures mem == old(mem).(resources := mem.resources)
      ensures orderly ==> RecordedExist(mem)
      ensures ok ==> mem.Recorded() == old(mem).Recorded() + [old(nextPort)]
      ensures ok ==> ports == old(ports)[old(nextPort) := old(|mem.Recorded()|)]
      ensures calm ==> ok && nextPort == NextID(old(ports), ports, old(nextPort))
    {
      var i := |mem.Recorded()|;
      assert nextPort !in ports;
      var created := CreatePort(i);
      ok := created.Ok?;
      if ok {
        assert Only(ports, i, created.value);
        AdoptStep(created.value);
      }
    }

    /** A recorded port is looked up by its ID; if it is gone, a new port is created and not recorded. */
    method EnsureRecorded(i: nat) returns (ok: bool)
      requires Inv() && Working() && stored.finalizer && Complete(stored.resolved)
      requires i < |mem.Recorded()| && (orderly ==> RecordedExist(mem))
      modifies this`ports, this`nextPort, this`history
      ensures Inv() && Working() && old(history) <= history
      ensures orderly ==> RecordedExist(mem)
      ensures ok ==> ports == (if mem.Recorded()[i] in old(ports) then old(ports) else old(ports)[old(nextPort) := i])
      ensures ok ==> !Unnamed(ports, i)
      ensures calm ==> ok && nextPort == NextID(old(ports), ports, old(nextPort))
    {
      ok := *;
      ok := ok || calm;
      if ok && mem.Recorded()[i] !in ports {
        var created := CreatePort(i);
        ok := created.Ok?;
        assert ok ==> ports[created.value] == i;
      }
    }

    /** getOrCreateServerPorts: the loop of EnsurePorts. */
    method EnsurePorts() returns (ok: bool)
      requires Inv() && Working() && mem.resources.Some?
      requires stored.finalizer && Complete(stored.resolved)
      requires orderly ==> RecordedExist(mem)
      modifies this`ports, this`nextPort, this`instances, this`history, this`mem, this`deleting, this`present
      ensures Inv() && Working() && mem.resources.Some? && old(history) <= history
      ensures mem == old(mem).(resources := mem.resources)
      ensures ok ==> |mem.Recorded()| == nPorts && (orderly ==> RecordedExist(mem))
      ensures old(deleting) ==> deleting
      ensures Still() && (calm ==> instances == old(instances))
      ensures calm && UniqueFrom(old(ports), |old(mem).Recorded()|) ==>
                ok && (ports, mem.Recorded()) == EnsureAll(nPorts, old(ports), old(mem).Recorded(), 0, old(nextPort))
    {
      for i := 0 to nPorts
        invariant Still() && (calm ==> instances == old(instances))
        invariant calm && UniqueFrom(old(ports), |old(mem).Recorded()|) ==>
                    && i <= |mem.Recorded()| && UniqueFrom(ports, |mem.Recorded()|)
                    && EnsureAll(nPorts, ports, mem.Recorded(), i, nextPort)
                       == EnsureAll(nPorts, old(ports), old(mem).Recorded(), 0, old(nextPort))
        invariant Inv() && Working() && mem.resources.Some? && old(history) <= history
        invariant mem == old(mem).(resources := mem.resources)
        invariant (orderly ==> RecordedExist(mem)) && i <= |mem.Recorded()|
        invariant old(deleting) ==> deleting
      {
        ok := EnsureNext(i);
        if !ok {
          return;
        }
      }
      ok := true;
    }

    /** The body of that loop. */
    method EnsureNext(i: nat) returns (ok: bool)
      requires Inv() && Working() && mem.resources.Some?
      requires stored.finalizer && Complete(stored.resolved) && i < nPorts && i <= |mem.Recorded()|
      requires orderly ==> RecordedExist(mem)
      modifies this`ports, this`nextPort, this`instances, this`history, this`mem, this`deleting, this`present
      ensures Inv() && Working() && mem.resources.Some? && old(history) <= history
      ensures mem == old(mem).(resources := mem.resources)
      ensures orderly ==> RecordedExist(mem)
      ensures ok ==> i < |mem.Recorded()|
      ensures old(deleting) ==> deleting
      ensures Still() && (calm ==> instances == old(instances))
      ensures calm && UniqueFrom(old(ports), |old(mem).Recorded()|) ==>
                && ok && UniqueFrom(ports, |mem.Recorded()|)
                && EnsureAll(nPorts, ports, mem.Recorded(), i + 1, nextPort)
                   == EnsureAll(nPorts, old(ports), old(mem).Recorded(), i, old(nextPort))
    {
      Meanwhile();
      if calm && UniqueFrom(ports, |mem.Recorded()|) {
        ghost var _, _ := EnsureAllUnfolds(nPorts, ports, mem.Recorded(), i, nextPort);
      }
      ok := EnsurePort(i);
    }

    /** getOrCreateServer. */
    method GetOrCreateServer() returns (r: Result<Option<(ID, InstanceState)>>)
      requires Inv() && Working() && |mem.Recorded()| == nPorts
      requires stored.finalizer && Complete(stored.resolved)
      modifies this`ports, this`instances, this`nextInstance, this`history, this`mem, this`deleting, this`present
      ensures Inv() && Working() && old(history) <= history
      ensures mem == if r.Ok? then old(mem) else old(mem).(instanceState := mem.instanceState)
      ensures old(deleting) ==> deleting
      ensures r.Ok? && r.value.Some? ==>
                && instances <= {r.value.value.0} && r.value.value.0 < nextInstance
                && (mem.instanceID.Some? ==> mem.instanceID == Some(r.value.value.0))
      ensures r.Ok? && mem.instanceID.None? ==> r.value.Some? && instances == {r.value.value.0}
      ensures calm ==> Still() && r.Ok? && ports == old(ports)
      ensures calm && mem.instanceID.None? ==> instances == if old(instances) == {} then {old(nextInstance)} else old(instances)
      ensures calm && mem.instanceID.Some? ==> instances == old(instances) && (mem.instanceID.value in instances ==> r.value.Some?)
    {
      Meanwhile();
      if mem.instanceID.Some? {
        var status := GetInstanceStatus(mem.instanceID.value);
        if status.Err? {
          return Err;
        }
        return Ok(if status.value.None? then None else Some((mem.instanceID.value, status.value.value)));
      }
      r := FindOrCreateInstance();
    }

    /** The part of getOrCreateServer for a server that has no instance recorded. */
    method FindOrCreateInstance() returns (r: Result<Option<(ID, InstanceState)>>)
      requires Inv() && Working() && mem.instanceID.None? && |mem.Recorded()| == nPorts
      requires stored.finalizer && Complete(stored.resolved)
      modifies this`instances, this`nextInstance, this`history, this`mem
      ensures Inv() && Working() && old(history) <= history
      ensures mem == if r.Ok? then old(mem) else old(mem).(instanceState := mem.instanceState)
      ensures r.Ok? ==> r.value.Some? && instances == {r.value.value.0} && r.value.value.0 < nextInstance
      ensures r.Ok? ==> instances == if old(instances) == {} then {old(nextInstance)} else old(instances)
      ensures r.Ok? ==> nextInstance == if old(instances) == {} then old(nextInstance) + 1 else old(nextInstance)
      ensures calm ==> r.Ok?
    {
      var byName := GetInstanceStatusByName();
      if byName.Err? || byName.value.Some? {
        return byName;
      }
      var specFails: bool := *;
      if specFails && !calm {
        return Err;
      }
      var created := CreateInstance();
      if created.Err? {
        mem := mem.(instanceState := Some(Error));
        return Err;
      }
      r := Ok(Some(created.value));
    }

    /** reconcileNormal. */
    method ReconcileNormal() returns (err: bool)
      requires Inv() && Working() && (orderly ==> RecordedExist(mem))
      requires mem.finalizer == stored.finalizer && mem.resolved == stored.resolved
      modifies this`ports, this`nextPort, this`instances, this`nextInstance, this`history, this`mem, this`deleting, this`present
      ensures Inv() && Working() && old(history) <= history
      ensures mem.resolved.Some?
      ensures old(mem).finalizer ==> mem.finalizer
      ensures old(deleting) ==> deleting
      ensures Still()
      ensures calm && nPorts > 0 && UniqueFrom(old(ports), |old(mem).Recorded()|) ==>
                && !err && UniqueFrom(ports, |mem.Recorded()|)
                && NormalAdvances(old(mem), old(ports), old(instances), old(nextInstance), mem, ports, instances)
    {
      var proceed, resolveErr := Prepare();
      err := resolveErr;
      if proceed {
        err := ReconcileResources();
      }
    }

    /** First the finalizer and the resolved spec; with both there before, all ports and the instance. */
    ghost predicate NormalAdvances(s: Server, ports: map<ID, nat>, instances: set<ID>, next: ID,
                                   s': Server, ports': map<ID, nat>, instances': set<ID>)
    {
      if s.finalizer && Complete(s.resolved) then
        ResourcesAdvance(s, ports, instances, next, s', ports', instances')
      else
        && s' == s.(finalizer := true, resolved := s'.resolved) && Complete(s'.resolved)
        && ports' == ports && instances' == instances
    }

    /** controllerutil.AddFinalizer and RemoveFinalizer on the working copy. */
    method SetFinalizer(present: bool)
      requires Working()
      modifies this`mem
      ensures Working()
      ensures mem == old(mem).(finalizer := present)
    {
      mem := mem.(finalizer := present);
    }

    /**
     * The first part of reconcileNormal: resolve the spec and add the finalizer. It lets the
     * reconcile proceed only when neither changed anything, so both are as stored.
     */
    method Prepare() returns (proceed: bool, err: bool)
      requires Working() && (orderly ==> RecordedExist(mem))
      requires mem.finalizer == stored.finalizer && mem.resolved == stored.resolved
      modifies this`mem
      ensures Working() && (orderly ==> RecordedExist(mem))
      ensures mem == old(mem).(resolved := mem.resolved, finalizer := mem.finalizer) && mem.resolved.Some?
      ensures old(mem).finalizer ==> mem.finalizer
      ensures proceed ==> stored.finalizer && Complete(stored.resolved) && mem == old(mem)
      ensures calm && nPorts > 0 ==>
                && !err && mem.finalizer && Complete(mem.resolved)
                && (proceed <==> old(mem).finalizer && Complete(old(mem).resolved))
    {
      proceed := false;
      var changed, done, resolveErr := ResolveServerSpec();
      err := resolveErr;
      if !resolveErr && done {
        if !mem.finalizer {
          SetFinalizer(true);
          changed := true;
        }
        proceed := !changed;
      }
    }

    /** The part of reconcileNormal that runs only with finalizer and spec as stored. */
    method ReconcileResources() returns (err: bool)
      requires Inv() && Working() && (orderly ==> RecordedExist(mem))
      requires stored.finalizer && Complete(stored.resolved)
      modifies this`ports, this`nextPort, this`instances, this`nextInstance, this`history, this`mem, this`deleting, this`present
      ensures Inv() && Working() && old(history) <= history
      ensures mem.resolved == old(mem).resolved && mem.finalizer == old(mem).finalizer
      ensures old(deleting) ==> deleting
      ensures Still()
      ensures calm && UniqueFrom(old(ports), |old(mem).Recorded()|) ==>
                !err && ResourcesAdvance(old(mem), old(ports), old(instances), old(nextInstance), mem, ports, instances)
    {
      var proceed, ok := ReconcilePorts();
      if proceed {
        ok := ReconcileInstance();
      }
      return !ok;
    }

    /** All ports, and then the instance. */
    ghost predicate ResourcesAdvance(s: Server, ports: map<ID, nat>, instances: set<ID>, next: ID,
                                     s': Server, ports': map<ID, nat>, instances': set<ID>)
    {
      PortsAdvance(s, ports, s', ports') && InstanceAdvances(s.(resources := s'.resources), instances, next, s', instances')
    }

    /** Adoption, the floating address that may have to be waited for, and the ports. */
    method ReconcilePorts() returns (proceed: bool, ok: bool)
      requires Inv() && Working() && (orderly ==> RecordedExist(mem))
      requires stored.finalizer && Complete(stored.resolved)
      modifies this`ports, this`nextPort, this`instances, this`history, this`mem, this`deleting, this`present
      ensures Inv() && Working() && old(history) <= history
      ensures mem == old(mem).(resources := mem.resources)
      ensures proceed ==> ok && |mem.Recorded()| == nPorts
      ensures old(deleting) ==> deleting
      ensures Still() && (calm ==> instances == old(instances))
      ensures calm && UniqueFrom(old(ports), |old(mem).Recorded()|) ==> proceed && PortsAdvance(old(mem), old(ports), mem, ports)
    {
      Meanwhile();
      ok := AdoptServerResources();
      proceed := *;
      proceed := ok && (proceed || calm);
      if proceed {
        ok := EnsureAdopted(old(mem));
        proceed := ok;
      }
    }

    /** EnsurePorts after an adoption, which started from `before`. */
    method EnsureAdopted(ghost before: Server) returns (ok: bool)
      requires Inv() && Working() && mem.resources.Some?
      requires stored.finalizer && Complete(stored.resolved)
      requires orderly ==> RecordedExist(mem)
      requires Consistent(nPorts, ports, before.Recorded()) && before.Recorded() <= mem.Recorded()
      requires mem.Recorded() == Adopted(nPorts, ports, before.Recorded())
      modifies this`ports, this`nextPort, this`instances, this`history, this`mem, this`deleting, this`present
      ensures Inv() && Working() && mem.resources.Some? && old(history) <= history
      ensures mem == old(mem).(resources := mem.resources)
      ensures ok ==> |mem.Recorded()| == nPorts
      ensures old(deleting) ==> deleting
      ensures Still() && (calm ==> instances == old(instances))
      ensures calm && UniqueFrom(old(ports), |before.Recorded()|) ==> ok && PortsAdvance(before, old(ports), mem, ports)
    {
      if calm && UniqueFrom(ports, |before.Recorded()|) {
        AdoptedPass(before);
      }
      ok := EnsurePorts();
    }

    /** What a pass of EnsurePorts after an adoption leaves. */
    lemma AdoptedPass(before: Server)
      requires Inv() && Working() && Consistent(nPorts, ports, before.Recorded()) && UniqueFrom(ports, |before.Recorded()|)
      requires mem.Recorded() == Adopted(nPorts, ports, before.Recorded()) && before.Recorded() <= mem.Recorded()
      ensures UniqueFrom(ports, |mem.Recorded()|)
      ensures var (ports', recorded') := EnsureAll(nPorts, ports, mem.Recorded(), 0, nextPort);
              && (ports' - Elems(recorded') == map[] <==> Tidy(ports, before.Recorded()))
              && (Tidy(ports, before.Recorded()) ==> Tidy(ports', recorded'))
    {
      AdoptionKeepsTidy(nPorts, ports, before.Recorded());
      EnsurePassRecordsAllExactly(nPorts, ports, mem.Recorded(), nextPort);
    }

    /** Every port gets an entry. All ports are recorded then exactly if the records were tidy, and they stay so. */
    ghost predicate PortsAdvance(s: Server, ports: map<ID, nat>, s': Server, ports': map<ID, nat>) {
      && |s'.Recorded()| == nPorts
      && (ports' - Elems(s'.Recorded()) == map[] <==> Tidy(ports, s.Recorded()))
      && (Tidy(ports, s.Recorded()) ==> Tidy(ports', s'.Recorded()))
    }

    /** The end of reconcileNormal: the instance and its state go into the status together. */
    method ReconcileInstance() returns (ok: bool)
      requires Inv() && Working() && |mem.Recorded()| == nPorts
      requires stored.finalizer && Complete(stored.resolved)
      modifies this`ports, this`instances, this`nextInstance, this`history, this`mem, this`deleting, this`present
      ensures Inv() && Working() && old(history) <= history
      ensures mem == old(mem).(instanceID := mem.instanceID, instanceState := mem.instanceState, ready := mem.ready)
      ensures ok && mem != old(mem) ==> mem.instanceID.Some? && (mem.ready <==> mem.instanceState == Some(Active))
      ensures ok && old(mem).instanceID.None? ==> mem.instanceID.Some? && instances == {mem.instanceID.value}
      ensures old(deleting) ==> deleting
      ensures calm ==> Still() && ok && ports == old(ports)
      ensures calm ==> InstanceAdvances(old(mem), old(instances), old(nextInstance), mem, instances)
    {
      var server := GetOrCreateServer();
      var networkFails: bool := *;
      if server.Err? || (networkFails && !calm) {
        return false;
      }
      if server.value.None? {
        return true;
      }
      SetInstance(server.value.value.0, server.value.value.1);
      ok := true;
    }

    /**
     * Without a recorded instance, the one of the server's name is recorded, or a new one is created
     * and recorded. A recorded one that is live has its state recorded; nothing else changes.
     */
    ghost predicate InstanceAdvances(s: Server, instances: set<ID>, next: ID, s': Server, instances': set<ID>) {
      && s' == s.(instanceID := s'.instanceID, instanceState := s'.instanceState, ready := s'.ready)
      && (s.instanceID.None? ==>
            && s'.instanceID.Some? && instances' == {s'.instanceID.value}
            && (if instances == {} then s'.instanceID == Some(next) else instances' == instances))
      && (s.instanceID.Some? ==> s'.instanceID == s.instanceID && instances' == instances)
      && (s.instanceID.None? || s.instanceID.value in instances ==>
            s'.instanceState.Some? && (s'.ready <==> s'.instanceState == Some(Active)))
    }

    method SetInstance(id: ID, state: InstanceState)
      requires Working() && id < nextInstance && instances <= {id} && (mem.instanceID.Some? ==> mem.instanceID == Some(id))
      modifies this`mem
      ensures Working()
      ensures mem == old(mem).(instanceID := Some(id), instanceState := Some(state), ready := state == Active)
    {
      mem := mem.(instanceID := Some(id), instanceState := Some(state), ready := false);
      if state == Active {
        mem := mem.(ready := true);
      }
    }

    /** Nothing that the controller knows of is left, and in an orderly world nothing at all. */
    ghost predicate Cleaned()
      reads this`mem, this`ports, this`instances, this`deleting
    {
      && deleting && instances == {}
      && (forall k :: 0 <= k < |mem.Recorded()| ==> mem.Recorded()[k] !in ports)
      && (orderly ==> ports == map[])
    }

    /** reconcileDelete. */
    method ReconcileDelete() returns (err: bool)
      requires Inv() && Working() && deleting && mem.resolved.Some?
      modifies this`ports, this`instances, this`history, this`mem, this`deleting, this`present, this`dirty
      ensures Inv() && Working() && deleting && old(history) <= history
      ensures old(mem).Recorded() <= mem.Recorded()
      ensures err ==> mem.finalizer == old(mem).finalizer
      ensures !err ==> !mem.finalizer && Cleaned()
      ensures Still() && (calm && UniqueFrom(old(ports), |old(mem).Recorded()|) ==> !err)
    {
      var adopted := AdoptAll();
      err := true;
      if adopted {
        err := DeleteAdopted();
      }
    }

    method DeleteAdopted() returns (err: bool)
      requires Inv() && Working() && deleting
      requires orderly ==> forall id :: id in ports ==> id in mem.Recorded()
      modifies this`ports, this`instances, this`deleting, this`present, this`history, this`mem, this`dirty
      ensures deleting
      ensures Inv() && Working() && old(history) <= history
      ensures mem == old(mem).(finalizer := mem.finalizer)
      ensures err ==> mem.finalizer == old(mem).finalizer
      ensures !err ==> !mem.finalizer && Cleaned()
      ensures Still() && (calm ==> !err)
    {
      var deleted := DeleteResources();
      err := !deleted;
      if deleted {
        SetFinalizer(false);
      }
    }

    /** Adoption on the delete path, where the controller never skips it. */
    method AdoptAll() returns (ok: bool)
      requires Inv() && Working() && deleting && mem.resolved.Some?
      modifies this`ports, this`instances, this`history, this`mem, this`deleting, this`present
      ensures Inv() && Working() && deleting && old(history) <= history
      ensures mem == old(mem).(resources := mem.resources) && old(mem).Recorded() <= mem.Recorded()
      ensures ok && orderly ==> forall id :: id in ports ==> id in mem.Recorded()
      ensures Still() && (calm && UniqueFrom(old(ports), |old(mem).Recorded()|) ==> ok)
    {
      Meanwhile();
      ok := AdoptServerResources();
      if ok && orderly {
        AllAdopted(old(mem));
      }
    }

    /** The instance first, then the recorded ports, then the claim on a floating IP. */
    method DeleteResources() returns (ok: bool)
      requires Inv() && Working() && deleting
      requires orderly ==> forall id :: id in ports ==> id in mem.Recorded()
      modifies this`ports, this`instances, this`deleting, this`present, this`dirty, this`history
      ensures deleting
      ensures Inv() && Working() && old(history) <= history
      ensures ok ==> Cleaned()
      ensures Still() && (calm ==> ok)
    {
      ok := DeleteServerInstance();
      var trunkFails: bool := *;
      if ok && (!trunkFails || calm) {
        ok := DeletePorts();
        var addressFails: bool := *;
        ok := ok && (!addressFails || calm);
      } else {
        ok := false;
      }
    }

    /** After a complete adoption every existing port is recorded. */
    lemma AllAdopted(before: Server)
      requires Inv() && Working() && orderly
      requires Adoptable(ports, before.Recorded()) && Consistent(nPorts, ports, before.Recorded())
      requires mem.resolved.Some? && mem.Recorded() == Adopted(mem.resolved.value.ports, ports, before.Recorded())
      ensures forall id :: id in ports ==> id in mem.Recorded()
    {
      if ports != map[] {
        AdoptableIsReached(nPorts, ports, before.Recorded());
      }
    }

    method DeleteServerInstance() returns (ok: bool)
      requires Inv() && Working()
      modifies this`instances, this`history
      ensures Inv() && Working() && old(history) <= history
      ensures ok ==> instances == {}
      ensures calm ==> ok
    {
      var id: ID;
      var volumeFails: bool := *;
      if mem.instanceID.Some? {
        id := mem.instanceID.value;
        var status := GetInstanceStatus(id);
        if status.Err? {
          return false;
        }
        if status.value.None? {
          return calm || !volumeFails;
        }
      } else {
        var byName := GetInstanceStatusByName();
        if byName.Err? {
          return false;
        }
        if byName.value.None? {
          return calm || !volumeFails;
        }
        id := byName.value.value.0;
      }
      ok := DeleteInstance(id);
    }

    /** The loop over status.resources.ports. */
    method DeletePorts() returns (ok: bool)
      requires Inv() && Working() && deleting
      requires orderly ==> forall id :: id in ports ==> id in mem.Recorded()
      modifies this`ports, this`instances, this`deleting, this`present, this`dirty, this`history
      ensures Inv() && Working() && deleting && old(history) <= history
      ensures instances <= old(instances)
      ensures ok ==> forall k :: 0 <= k < |mem.Recorded()| ==> mem.Recorded()[k] !in ports
      ensures ok && orderly ==> ports == map[]
      ensures Still() && (calm ==> ok)
    {
      for k := 0 to |mem.Recorded()|
        invariant Inv() && Working() && deleting && old(history) <= history
        invariant instances <= old(instances) && Still()
        invariant orderly ==> forall id :: id in ports ==> id in mem.Recorded()
        invariant forall j :: 0 <= j < k ==> mem.Recorded()[j] !in ports
      {
        ok := DeleteRecorded(mem.Recorded()[k]);
        if !ok {
          return;
        }
      }
      ok := true;
    }

    method DeleteRecorded(id: ID) returns (ok: bool)
      requires Inv() && Working() && deleting
      requires orderly ==> forall other :: other in ports ==> ports[other] < |mem.Recorded()|
      modifies this`ports, this`instances, this`deleting, this`present, this`dirty, this`history
      ensures Inv() && Working() && deleting && old(history) <= history
      ensures instances <= old(instances) && ports.Keys <= old(ports).Keys
      ensures ok ==> id !in ports
      ensures Still() && (calm ==> ok)
    {
      Meanwhile();
      ok := DeletePort(id);
    }

    /** The metadata half of the deferred patch. */
    method PatchMetadata()
      requires Inv() && Working() && present
      requires mem.finalizer || !stored.finalizer || Cleaned()
      modifies this`stored, this`present, this`released, this`history
      ensures Inv() && (present ==> Working()) && old(history) <= history
      ensures stored == old(stored).(finalizer := if mem.finalizer && !old(stored).finalizer then !deleting else mem.finalizer)
      ensures present != old(present) ==> !stored.finalizer
      ensures old(stored).finalizer && !stored.finalizer ==> released == Some(mem.Recorded())
      ensures !(old(stored).finalizer && !stored.finalizer) ==> released == old(released)
    {
      if mem.finalizer && !stored.finalizer {
        // the API server refuses a new finalizer on an object that is being deleted
        stored := stored.(finalizer := !deleting);
      } else if !mem.finalizer && stored.finalizer {
        stored, released := stored.(finalizer := false), Some(mem.Recorded());
        present := *;
      }
      Record();
    }

    /** The status half of the deferred patch. */
    method PatchStatus()
      requires Inv() && Working()
      modifies this`stored, this`dirty, this`history
      ensures Inv() && !dirty && old(history) <= history
      ensures stored == mem.(finalizer := old(stored).finalizer)
    {
      stored := mem.(finalizer := stored.finalizer);
      dirty := false;
      Record();
    }

    /** The deferred patch: metadata and status succeed or fail on their own. */
    method Patch()
      requires Inv() && Working()
      requires mem.finalizer || !stored.finalizer || Cleaned()
      modifies this`stored, this`present, this`released, this`dirty, this`history
      ensures Inv() && (orderly && dirty ==> !present) && old(history) <= history
      ensures released == old(released) || released == Some(mem.Recorded())
      ensures calm && old(present) && (mem.finalizer ==> !deleting || old(stored).finalizer) ==> stored.finalizer == mem.finalizer
      ensures calm && old(present) && mem.finalizer && !deleting ==> present && stored == mem
    {
      var metadata: bool := *;
      if present && (metadata || calm) {
        PatchMetadata();
      }
      TryPatchStatus();
    }

    method TryPatchStatus()
      requires Inv() && (present ==> Working())
      modifies this`stored, this`dirty, this`history
      ensures Inv() && (orderly && dirty ==> !present) && old(history) <= history
      ensures stored == old(stored) || stored == mem.(finalizer := old(stored).finalizer)
      ensures calm && present ==> stored == mem.(finalizer := old(stored).finalizer)
    {
      var status: bool := *;
      if present && (status || calm || (orderly && dirty)) {
        PatchStatus();
      }
    }

    /** Reconcile. */
    method Reconcile()
      requires Inv() && (orderly && dirty ==> !present)
      modifies this
      ensures Inv() && (orderly && dirty ==> !present) && old(history) <= history
      ensures calm ==> deleting == old(deleting)
      ensures calm && old(present) && !deleting && nPorts > 0 && UniqueFrom(old(ports), |old(stored).Recorded()|) ==>
                && present && UniqueFrom(ports, |stored.Recorded()|)
                && NormalAdvances(old(stored), old(ports), old(instances), old(nextInstance), stored, ports, instances)
      ensures calm && old(present) && deleting && nPorts > 0 && UniqueFrom(old(ports), |old(stored).Recorded()|) ==>
                !stored.finalizer && instances == {} && forall k :: 0 <= k < |old(stored).Recorded()| ==> old(stored).Recorded()[k] !in ports
    {
      if present {
        ReconcilePresent();
      }
    }

    method ReconcilePresent()
      requires Inv() && present && (orderly ==> !dirty)
      modifies this
      ensures Inv() && (orderly && dirty ==> !present) && old(history) <= history
      ensures calm ==> deleting == old(deleting)
      ensures calm && !deleting && nPorts > 0 && UniqueFrom(old(ports), |old(stored).Recorded()|) ==>
                && present && UniqueFrom(ports, |stored.Recorded()|)
                && NormalAdvances(old(stored), old(ports), old(instances), old(nextInstance), stored, ports, instances)
      ensures calm && deleting && nPorts > 0 && UniqueFrom(old(ports), |old(stored).Recorded()|) ==>
                !stored.finalizer && instances == {} && forall k :: 0 <= k < |old(stored).Recorded()| ==> old(stored).Recorded()[k] !in ports
    {
      ReadStored();
      ReconcileBody();
      Patch();
    }

    /** The working copy is what the API server has. */
    method ReadStored()
      requires Inv() && (orderly ==> !dirty)
      modifies this`mem
      ensures Working() && mem == stored
    {
      mem := stored;
    }

    /** The part of Reconcile between reading the server and patching it. */
    method ReconcileBody()
      requires Inv() && Working() && mem == stored
      modifies this`ports, this`nextPort, this`instances, this`nextInstance, this`history, this`mem, this`deleting, this`present, this`dirty
      ensures Inv() && Working() && old(history) <= history
      ensures mem.finalizer || !stored.finalizer || Cleaned()
      ensures Still()
      ensures calm && !deleting && nPorts > 0 && UniqueFrom(old(ports), |old(mem).Recorded()|) ==>
                && mem.finalizer && UniqueFrom(ports, |mem.Recorded()|)
                && NormalAdvances(old(mem), old(ports), old(instances), old(nextInstance), mem, ports, instances)
      ensures calm && deleting && nPorts > 0 && UniqueFrom(old(ports), |old(mem).Recorded()|) ==> !mem.finalizer && Cleaned()
      ensures forall k :: 0 <= k < |stored.Recorded()| ==> k < |mem.Recorded()| && stored.Recorded()[k] == mem.Recorded()[k]
    {
      var early: bool := *;
      if early && !calm {
        return;
      }
      if deleting {
        ReconcileDeleted();
      } else {
        var _ := ReconcileNormal();
      }
    }

    /** Reconcile for a server that is being deleted. */
    method ReconcileDeleted()
      requires Inv() && Working() && mem == stored && deleting
      modifies this`ports, this`nextPort, this`instances, this`nextInstance, this`history, this`mem, this`deleting, this`present, this`dirty
      ensures Inv() && Working() && old(history) <= history
      ensures mem.finalizer || !stored.finalizer || Cleaned()
      ensures Still() && deleting
      ensures calm && nPorts > 0 && UniqueFrom(old(ports), |old(mem).Recorded()|) ==> !mem.finalizer && Cleaned()
    {
      var err := false;
      if mem.NeedsNormal() {
        err := ReconcileNormal();
      }
      if !err {
        err := ReconcileDelete();
      }
    }

    /**
     * Convergence: two undisturbed reconciles, from any state in which no two unrecorded ports share a
     * name and a recorded instance is live, leave exactly one instance, recorded with its state, and
     * every port recorded; if the records were tidy, these are all the ports there are.
     */
    method Converge()
      requires Inv() && calm && present && !deleting && nPorts > 0 && !dirty
      requires UniqueFrom(ports, |stored.Recorded()|)
      requires stored.instanceID.Some? ==> stored.instanceID.value in instances
      modifies this
      ensures Inv() && old(history) <= history
      ensures stored.finalizer && Complete(stored.resolved) && |stored.Recorded()| == nPorts
      ensures stored.instanceID.Some? && instances == {stored.instanceID.value}
      ensures old(instances) != {} ==> instances == old(instances)
      ensures stored.instanceState.Some? && (stored.ready <==> stored.instanceState == Some(Active))
      ensures old(Tidy(ports, stored.Recorded())) ==> Tidy(ports, stored.Recorded()) && ports - Elems(stored.Recorded()) == map[]
    {
      Reconcile();
      Reconcile();
    }

    /** Every run: any number of reconciles and user actions, in any order. */
    method Run(steps: nat)
      requires Inv() && !dirty
      modifies this
      ensures Inv() && old(history) <= history
    {
      for i := 0 to steps
        invariant Inv() && (orderly && dirty ==> !present) && old(history) <= history
      {
        var reconcile: bool := *;
        if reconcile && present {
          Reconcile();
        } else {
          Interfere();
        }
      }
    }
  }
}
