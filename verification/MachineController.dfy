/**
 * The OpenStackMachine controller (controllers/openstackmachine_controller.go) for one machine,
 * running beside the cluster controller and the controller of the machine's OpenStackServer.
 */
module MachineController {
  import opened Common
  import opened Instances
  import opened MachineEvents

  /** What the machine reads of its OpenStackCluster: status.initialization.provisioned and whether status.network is set. */
  datatype ClusterStatus = ClusterStatus(provisioned: bool, hasNetwork: bool)

  datatype ProviderID = ProviderID(region: string, instanceID: nat)

  datatype Machine = Machine(finalizer: bool, providerID: Option<ProviderID>, provisioned: bool)

  /** An OpenStackServer of the machine's name; `uid` tells successive ones apart. */
  datatype Server = Server(uid: nat, status: ServerStatus, deleting: bool)

  datatype Snapshot = Snapshot(cluster: ClusterStatus, present: bool, machine: Machine, server: Option<Server>)

  /** A value written to spec.providerID, with the server it was taken from. */
  datatype Written = Written(uid: nat, providerID: ProviderID)

  /** The cluster reconcile: the network status is set before provisioned, and neither is ever reset. */
  ghost predicate ClusterEvolves(before: ClusterStatus, after: ClusterStatus) {
    && (before.provisioned ==> after.provisioned)
    && (before.hasNetwork ==> after.hasNetwork)
    && (after.provisioned ==> after.hasNetwork)
  }

  /** A server changes only as its own controller changes it: it never appears, and its status evolves. */
  ghost predicate ServerMoved(before: Option<Server>, after: Option<Server>) {
    after.Some? ==>
      && before.Some?
      && after.value.uid == before.value.uid
      && Evolves(before.value.status, after.value.status)
  }

  class Controller {
    const region: string
    /**
     * Nobody else acts while a reconcile is in progress, no call fails, and nothing that it waits for
     * (the owning machine, bootstrap data) is missing.
     */
    const calm: bool

    // API server
    var cluster: ClusterStatus
    var present: bool
    var deleting: bool
    var stored: Machine
    var server: Option<Server>
    var nextUID: nat

    // working copies of the cluster controller and of the machine controller
    var clusterMem: ClusterStatus
    var mem: Machine

    ghost var written: seq<Written>
    ghost var history: seq<Snapshot>

    /** The provider ID of the recorded instance of a server. */
    ghost function IDOf(server: Option<Server>): Option<ProviderID> {
      if server.Some? && server.value.status.instanceID.Some? then Some(ProviderID(region, server.value.status.instanceID.value))
      else None
    }

    /** The machine carries the provider ID of its server's instance. */
    ghost predicate Names(s: Snapshot) {
      s.machine.providerID.Some? && s.machine.providerID == IDOf(s.server)
    }

    ghost predicate SameServer(s: Snapshot, t: Snapshot) {
      s.server.Some? && t.server.Some? && s.server.value.uid == t.server.value.uid
    }

    /**
     * What a later state keeps of an earlier one: a machine once provisioned stays so, a provider ID
     * once set stays set, and while one server exists, its recorded instance and the provider ID that
     * names it stay what they are.
     */
    ghost predicate Follows(s: Snapshot, t: Snapshot) {
      && (s.machine.provisioned ==> t.machine.provisioned)
      && (s.machine.providerID.Some? ==> t.machine.providerID.Some?)
      && (SameServer(s, t) && IDOf(s.server).Some? ==> IDOf(t.server) == IDOf(s.server))
      && (SameServer(s, t) && Names(s) ==> t.machine.providerID == s.machine.providerID)
    }

    /** A new provider ID is the one of the server's instance, if there is a server. */
    ghost predicate RightChange(s: Snapshot, t: Snapshot) {
      t.machine.providerID != s.machine.providerID && t.server.Some? ==> Names(t)
    }

    /**
     * A server of the machine's name exists only under a machine that still has its finalizer, in a
     * provisioned cluster.
     */
    ghost predicate Safe(s: Snapshot) {
      && (s.server.Some? ==> s.present && s.machine.finalizer)
      && (s.server.Some? ==> s.cluster.provisioned && s.cluster.hasNetwork)
      && (s.server.Some? ==> StatusOK(s.server.value.status))
    }

    ghost function Current(): Snapshot
      reads this`cluster, this`present, this`stored, this`server
    {
      Snapshot(cluster, present, stored, server)
    }

    /** The world is in order, and so were all its earlier states. */
    ghost predicate World()
      reads this`cluster, this`present, this`stored, this`server, this`nextUID, this`history
    {
      && (forall i :: 0 <= i < |history| ==> Safe(history[i]))
      && Safe(Current())
      && (forall i :: 0 <= i < |history| && history[i].server.Some? ==> history[i].server.value.uid < nextUID)
      && (cluster.provisioned ==> cluster.hasNetwork)
      && (stored.finalizer ==> present)
      && (server.Some? ==> server.value.uid < nextUID)
    }

    /** Every provider ID taken from one server is the same, and names its recorded instance. */
    ghost predicate WrittenOK()
      reads this`server, this`nextUID, this`written
    {
      && (forall i :: 0 <= i < |written| ==> written[i].uid < nextUID)
      && (forall i, j :: 0 <= i < |written| && 0 <= j < |written| && written[i].uid == written[j].uid ==> written[i] == written[j])
      && (server.Some? ==> forall i :: 0 <= i < |written| && written[i].uid == server.value.uid ==>
            server.value.status.instanceID.Some?
            && written[i].providerID == ProviderID(region, server.value.status.instanceID.value))
    }

    /** Every recorded state follows from each one before it, and so does the present state. */
    ghost predicate Permanent()
      reads this`cluster, this`present, this`stored, this`server, this`history
    {
      && Lasting(history)
      && (forall i :: 0 <= i < |history| ==> Follows(history[i], Current()))
    }

    ghost predicate Lasting(h: seq<Snapshot>) {
      && (forall i, j :: 0 <= i <= j < |h| ==> Follows(h[i], h[j]))
      && (forall i :: 0 <= i < |h| - 1 ==> RightChange(h[i], h[i + 1]))
    }

    lemma LastingGrows(h: seq<Snapshot>, now: Snapshot)
      requires Lasting(h) && forall i :: 0 <= i < |h| ==> Follows(h[i], now)
      requires h != [] && RightChange(h[|h| - 1], now)
      ensures Lasting(h + [now])
    {
    }

    ghost predicate Inv()
      reads this`cluster, this`present, this`stored, this`server, this`nextUID, this`written, this`history
    {
      World() && WrittenOK() && Permanent() && history != [] && history[|history| - 1] == Current()
    }

    /** What the machine controller may persist: the provider ID as stored, or that of the server's instance. */
    ghost predicate MemOK()
      reads this`mem, this`stored, this`server
    {
      && (stored.provisioned ==> mem.provisioned)
      && (mem.providerID != stored.providerID ==>
            mem.providerID.Some? && (server.Some? ==> mem.providerID == IDOf(server)))
    }

    /** Every effect is recorded: the two records only grow. */
    twostate predicate Extends()
      reads this`history, this`written
    {
      old(history) <= history && old(written) <= written
    }

    constructor (region: string, calm: bool)
      ensures Inv() && written == [] && server.None? && present
    {
      this.region, this.calm := region, calm;
      cluster, clusterMem := ClusterStatus(false, false), ClusterStatus(false, false);
      present, deleting := true, false;
      stored, mem := Machine(false, None, false), Machine(false, None, false);
      server, nextUID := None, 0;
      written := [];
      history := [Snapshot(ClusterStatus(false, false), true, Machine(false, None, false), None)];
    }

    ghost method Record()
      requires World() && WrittenOK() && Permanent()
      requires history != [] && RightChange(history[|history| - 1], Current())
      modifies this`history
      ensures Inv() && history == old(history) + [Current()]
    {
      LastingGrows(history, Current());
      history := history + [Current()];
    }

    // -------------------------------------------------------------- the environment

    /**
     * The cluster controller: reconcileNetworkComponents comes before provisioned is set, any
     * call may fail, and the status is persisted as a whole or not at all.
     */
    method ReconcileCluster() returns (ok: bool)
      requires Inv()
      modifies this`cluster, this`clusterMem, this`history
      ensures Inv() && Extends() && ClusterEvolves(old(cluster), cluster)
      ensures ok ==> cluster == ClusterStatus(true, true)
    {
      clusterMem := cluster;
      ok := ReconcileClusterBody();
      var patched: bool := *;
      ok := ok && patched;
      if patched {
        WriteClusterStatus();
      }
    }

    method WriteClusterStatus()
      requires Inv() && ClusterEvolves(cluster, clusterMem)
      modifies this`cluster, this`history
      ensures Inv() && Extends() && cluster == clusterMem
    {
      cluster := clusterMem;
      Record();
    }

    method ReconcileClusterBody() returns (ok: bool)
      modifies this`clusterMem
      ensures ok ==> clusterMem == ClusterStatus(true, true)
      ensures old(clusterMem).hasNetwork ==> clusterMem.hasNetwork
      ensures old(clusterMem).provisioned ==> clusterMem.provisioned
      ensures clusterMem.provisioned ==> old(clusterMem).provisioned || clusterMem.hasNetwork
    {
      var finalizerMissing: bool := *;
      if finalizerMissing {
        return false;
      }
      var networkFails: bool := *;
      var networkKnown: bool := *;
      clusterMem := clusterMem.(hasNetwork := clusterMem.hasNetwork || !networkFails || networkKnown);
      var zonesFail: bool := *;
      ok := !networkFails && !zonesFail;
      if ok {
        clusterMem := clusterMem.(provisioned := true);
      }
    }

    /** The controller of the server updates its status, and removes it in the end. */
    method ReconcileServer()
      requires Inv()
      modifies this`server, this`history
      ensures Inv() && Extends() && ServerMoved(old(server), server)
    {
      var gone: bool := *;
      var next: ServerStatus := *;
      if server.Some? {
        if gone {
          server := None;
        } else if (next.ready ==> next.instanceState == Some(Active))
                  && (next.instanceState == Some(Active) ==> next.instanceID.Some?)
                  && (server.value.status.instanceID.Some? ==> next.instanceID == server.value.status.instanceID) {
          server := Some(server.value.(status := next));
        }
      }
      Record();
    }

    /** A user deletes the machine. */
    method DeleteMachine()
      requires Inv()
      modifies this`deleting, this`present, this`history
      ensures Inv() && Extends() && deleting
      ensures present == (old(present) && stored.finalizer)
    {
      deleting := true;
      if !stored.finalizer {
        present := false;
      }
      Record();
    }

    /** The other controllers, and users. */
    method Interfere()
      requires Inv()
      modifies this`cluster, this`clusterMem, this`server, this`deleting, this`present, this`history
      ensures Inv() && Extends() && ClusterEvolves(old(cluster), cluster)
      ensures ServerMoved(old(server), server)
      ensures old(deleting) ==> deleting
      ensures present ==> old(present)
    {
      var who: nat := *;
      if who == 0 {
        var _ := ReconcileCluster();
      } else if who == 1 {
        ReconcileServer();
      } else if who == 2 {
        DeleteMachine();
      }
    }

    /** What happens before a call of a reconcile. */
    method Meanwhile()
      requires Inv()
      modifies this`cluster, this`clusterMem, this`server, this`deleting, this`present, this`history
      ensures Inv() && Extends() && ClusterEvolves(old(cluster), cluster)
      ensures ServerMoved(old(server), server)
      ensures old(deleting) ==> deleting
      ensures present ==> old(present)
      ensures calm ==> Still() && server == old(server)
    {
      if !calm {
        Interfere();
      }
    }

    twostate predicate Still()
      reads this`cluster, this`deleting, this`present
    {
      cluster == old(cluster) && deleting == old(deleting) && present == old(present)
    }

    /** Client.Create of the OpenStackServer, under the rule that keeps servers and finalizers together. */
    method CreateServer() returns (ok: bool)
      requires Inv()
      requires stored.finalizer && cluster.provisioned
      modifies this`server, this`nextUID, this`history
      ensures Inv() && Extends()
      ensures ok ==> server.Some? && server.value.status == ServerStatus(None, None, false) && !server.value.deleting
      ensures if old(server).Some? then server == old(server) else calm ==> ok
    {
      ok := *;
      ok := ok || calm;
      var effect: bool := *;
      if server.Some? {
        ok := false;
      } else if ok || effect {
        server := Some(Server(nextUID, ServerStatus(None, None, false), false));
        nextUID := nextUID + 1;
        Record();
      }
    }

    // -------------------------------------------------------------- the controller

    /** Client.Delete of the OpenStackServer, which is marked until its own controller has cleaned up. */
    method DeleteServer()
      requires Inv()
      modifies this`server, this`history
      ensures Inv() && Extends() && ServerMoved(old(server), server)
      ensures server.Some? == old(server).Some?
      ensures calm && old(server).Some? ==> server == Some(old(server).value.(deleting := true))
    {
      var effect: bool := *;
      if (effect || calm) && server.Some? {
        server := Some(server.value.(deleting := true));
        Record();
      }
    }

    // What a reconcile that nothing disturbs or holds up gets done.

    /**
     * First the finalizer, then the server, then, once the server is ACTIVE, the provider ID of its
     * instance and provisioned. In any other state of the server, nothing.
     */
    ghost predicate NormalAdvances(m: Machine, provisioned: bool, s: Option<Server>, m': Machine, s': Option<Server>) {
      if !provisioned then m' == m && s' == s
      else if !m.finalizer then m' == m.(finalizer := true) && s' == s
      else if s.None? then m' == m && s'.Some? && s'.value.status == ServerStatus(None, None, false) && !s'.value.deleting
      else
        && s' == s
        && (s.value.status.instanceState != Some(Active) ==> m' == m)
        && (s.value.status.instanceState == Some(Active) ==>
              && s.value.status.instanceID.Some?
              && m' == m.(providerID := Some(ProviderID(region, s.value.status.instanceID.value)), provisioned := true))
    }

    /** First the server is marked; once it is gone, or if there never was one, the finalizer goes. */
    ghost predicate DeleteAdvances(m: Machine, provisioned: bool, s: Option<Server>, m': Machine, s': Option<Server>) {
      if provisioned && s.Some? then m' == m && s' == Some(s.value.(deleting := true))
      else m' == m.(finalizer := false) && s' == s
    }

    /** reconcileDelete, given the cluster as it was read at the start. */
    method ReconcileDelete(read: ClusterStatus)
      requires Inv() && deleting && mem.finalizer == stored.finalizer
      requires server.Some? ==> read.provisioned && read.hasNetwork
      modifies this`cluster, this`clusterMem, this`server, this`deleting, this`present, this`history, this`mem
      ensures Inv() && Extends() && deleting
      ensures mem == old(mem) || mem == old(mem).(finalizer := false)
      ensures old(mem) == stored ==> MemOK()
      ensures stored.finalizer && !mem.finalizer ==> server.None?
      ensures present ==> old(present)
      ensures calm && (read.provisioned ==> read.hasNetwork) ==>
                Still() && DeleteAdvances(old(mem), read.provisioned, old(server), mem, server)
    {
      if !read.provisioned || !read.hasNetwork {
        mem := mem.(finalizer := false);
        return;
      }
      DeleteMachineServer();
    }

    /** The part of reconcileDelete for a provisioned cluster. */
    method DeleteMachineServer()
      requires Inv() && deleting && mem.finalizer == stored.finalizer
      modifies this`cluster, this`clusterMem, this`server, this`deleting, this`present, this`history, this`mem
      ensures Inv() && Extends() && deleting
      ensures mem == old(mem) || mem == old(mem).(finalizer := false)
      ensures old(mem) == stored ==> MemOK()
      ensures stored.finalizer && !mem.finalizer ==> server.None?
      ensures present ==> old(present)
      ensures calm ==> Still() && DeleteAdvances(old(mem), true, old(server), mem, server)
    {
      Meanwhile();
      var getFails: bool := *;
      if getFails && !calm {
        return;
      }
      var found := server;
      var endpointFails: bool := *;
      Meanwhile();
      if endpointFails && !calm {
        return;
      }
      if found.Some? {
        DeleteServer();
        return;
      }
      mem := mem.(finalizer := false);
    }

    /** reconcileMachineState, for a server whose status was just read. */
    method ReconcileMachineState(s: Server) returns (r: Outcome)
      requires Inv() && StatusOK(s.status)
      requires server.Some? && server.value.uid == s.uid ==> Evolves(s.status, server.value.status)
      requires s.uid < nextUID
      requires forall i :: 0 <= i < |written| && written[i].uid == s.uid ==>
                 s.status.instanceID.Some? && written[i].providerID == ProviderID(region, s.status.instanceID.value)
      modifies this`mem, this`written
      ensures Inv() && Extends()
      ensures s.status.instanceState == Some(Active) ==>
                && r.Proceed? && s.status.instanceID.Some?
                && mem == old(mem).(providerID := Some(ProviderID(region, s.status.instanceID.value)), provisioned := true)
                && written == old(written) + [Written(s.uid, mem.providerID.value)]
      ensures s.status.instanceState == Some(Deleted) ==> r.Stop?
      ensures s.status.instanceState != Some(Active) && s.status.instanceState != Some(Deleted) ==> r.RequeueAfter?
      ensures s.status.instanceState != Some(Active) ==> mem == old(mem) && written == old(written)
      ensures r == MachineStateOutcome(s.status.instanceState)
    {
      match s.status.instanceState {
        case Some(Active) =>
          mem := mem.(providerID := Some(ProviderID(region, s.status.instanceID.value)), provisioned := true);
          written := written + [Written(s.uid, mem.providerID.value)];
          r := Proceed;
        case Some(Deleted) => r := Stop;
        case _ => r := RequeueAfter;
      }
    }

    /** reconcileNormal, given the cluster as it was read at the start. */
    method ReconcileNormal(read: ClusterStatus)
      requires Inv() && mem == stored
      requires read.provisioned ==> cluster.provisioned
      modifies this`cluster, this`clusterMem, this`server, this`nextUID, this`deleting, this`present, this`history, this`mem, this`written
      ensures Inv() && Extends() && (stored.finalizer ==> mem.finalizer) && MemOK()
      ensures present ==> old(present)
      ensures calm ==> Still() && NormalAdvances(old(mem), read.provisioned, old(server), mem, server)
    {
      if !read.provisioned {
        return;
      }
      var bootstrapMissing: bool := *;
      if bootstrapMissing && !calm {
        return;
      }
      if !mem.finalizer {
        mem := mem.(finalizer := true);
        return;
      }
      ReconcileServerState();
    }

    /** The part of reconcileNormal that runs with the finalizer stored. */
    method ReconcileServerState()
      requires Inv() && mem == stored && stored.finalizer && cluster.provisioned
      modifies this`cluster, this`clusterMem, this`server, this`nextUID, this`deleting, this`present, this`history, this`mem, this`written
      ensures Inv() && Extends() && mem.finalizer && MemOK()
      ensures present ==> old(present)
      ensures calm ==> Still() && NormalAdvances(old(mem), true, old(server), mem, server)
    {
      var machineServer := GetOrCreateMachineServer();
      if machineServer.None? {
        return;
      }
      Meanwhile();
      var _ := ReconcileMachineState(machineServer.value);
    }

    method GetOrCreateMachineServer() returns (machineServer: Option<Server>)
      requires Inv() && stored.finalizer && cluster.provisioned
      modifies this`cluster, this`clusterMem, this`server, this`nextUID, this`deleting, this`present, this`history
      ensures Inv() && Extends()
      ensures machineServer.Some? ==> machineServer == server
      ensures present ==> old(present)
      ensures calm ==> Still() && machineServer.Some?
      ensures calm ==> if old(server).Some? then server == old(server)
                       else server.value.status == ServerStatus(None, None, false) && !server.value.deleting
    {
      Meanwhile();
      var getFails: bool := *;
      if getFails && !calm {
        return None;
      }
      if server.None? {
        var specFails: bool := *;
        if specFails && !calm {
          return None;
        }
        var created := CreateServer();
        if !created {
          return None;
        }
      }
      machineServer := server;
    }

    /** Reconcile, with the deferred patch. */
    method Reconcile()
      requires Inv() && present
      modifies this
      ensures Inv() && Extends()
      ensures calm ==> cluster == old(cluster) && deleting == old(deleting) && (!deleting ==> present)
      ensures calm && !deleting ==> NormalAdvances(old(stored), cluster.provisioned, old(server), stored, server)
      ensures calm && deleting ==> DeleteAdvances(old(stored), cluster.provisioned, old(server), stored, server)
    {
      mem := stored;
      ReconcileBody();
      Patch();
    }

    method ReconcileBody()
      requires Inv() && mem == stored
      modifies this`cluster, this`clusterMem, this`server, this`nextUID, this`deleting, this`present, this`history, this`mem, this`written
      ensures Inv() && Extends() && MemOK()
      ensures stored.finalizer && !mem.finalizer ==> server.None?
      ensures calm ==> Still()
      ensures calm && !deleting ==> NormalAdvances(old(mem), cluster.provisioned, old(server), mem, server)
      ensures calm && deleting ==> DeleteAdvances(old(mem), cluster.provisioned, old(server), mem, server)
    {
      var wasDeleting := deleting;
      Meanwhile();
      var read := cluster;
      Meanwhile();
      var early: bool := *;
      if !early || calm {
        if wasDeleting {
          ReconcileDelete(read);
        } else {
          ReconcileNormal(read);
        }
      }
    }

    /** The deferred patch. Its two halves succeed or fail on their own. */
    method Patch()
      requires Inv() && MemOK()
      requires stored.finalizer && !mem.finalizer ==> server.None?
      modifies this`cluster, this`clusterMem, this`server, this`deleting, this`present, this`history, this`stored
      ensures Inv() && Extends()
      ensures calm ==> cluster == old(cluster) && deleting == old(deleting) && server == old(server)
      ensures calm && old(present) && !(deleting && mem.finalizer && !old(stored).finalizer) ==>
                stored == mem || (!present && deleting && stored == mem.(provisioned := old(stored).provisioned))
      ensures calm && old(present) && !present ==> deleting
    {
      Meanwhile();
      var metadata: bool := *;
      if (metadata || calm) && present {
        PatchSpec();
      }
      TryPatchStatus();
    }

    method TryPatchStatus()
      requires Inv() && MemOK()
      modifies this`cluster, this`clusterMem, this`server, this`deleting, this`present, this`history, this`stored
      ensures Inv() && Extends()
      ensures stored == old(stored) || stored == old(stored).(provisioned := mem.provisioned)
      ensures calm ==> Still() && server == old(server)
      ensures calm && present ==> stored == old(stored).(provisioned := mem.provisioned)
    {
      Meanwhile();
      var status: bool := *;
      if (status || calm) && present {
        PatchStatus();
      }
    }

    /** The half with metadata and spec; it is refused if it brings a new finalizer to an object that is being deleted. */
    method PatchSpec()
      requires Inv() && present && MemOK()
      requires stored.finalizer && !mem.finalizer ==> server.None?
      modifies this`stored, this`present, this`history
      ensures Inv() && Extends() && MemOK()
      ensures var refused := deleting && mem.finalizer && !old(stored).finalizer;
              stored == if refused then old(stored) else mem.(provisioned := old(stored).provisioned)
      ensures !present ==> deleting && !stored.finalizer
    {
      if deleting && mem.finalizer && !stored.finalizer {
        return;
      }
      stored := stored.(finalizer := mem.finalizer, providerID := mem.providerID);
      if deleting && !stored.finalizer {
        present := *;
      }
      Record();
    }

    /** The status half. */
    method PatchStatus()
      requires Inv() && MemOK()
      modifies this`stored, this`history
      ensures Inv() && Extends()
      ensures stored == old(stored).(provisioned := mem.provisioned)
    {
      stored := stored.(provisioned := mem.provisioned);
      Record();
    }

    // -------------------------------------------------------------- convergence

    /** No finalizer or a server that is going away, no server, a server not ACTIVE, nothing written yet, done. */
    ghost function Rank(): nat
      reads this`stored, this`server
    {
      if !stored.finalizer then 4
      else if server.None? then 3
      else if server.value.deleting then 4
      else if server.value.status.instanceState != Some(Active) then 2
      else if !(stored.provisioned && stored.providerID == IDOf(server)) then 1
      else 0
    }

    /** The server's controller gets its work done: a server is removed, or ACTIVE. */
    method ServerFinishes()
      requires Inv()
      modifies this`server, this`history
      ensures Inv() && Extends()
      ensures if old(server).None? || old(server).value.deleting then server.None?
              else
                && server.Some? && !server.value.deleting && server.value.status.instanceState == Some(Active)
                && (IDOf(old(server)).Some? ==> IDOf(server) == IDOf(old(server)))
    {
      if server.Some? {
        var instance: nat := *;
        server := if server.value.deleting then None
                  else Some(server.value.(status := ServerStatus(Some(server.value.status.instanceID.GetOr(instance)), Some(Active), true)));
        Record();
      }
    }

    method Round()
      requires Inv() && calm && present && !deleting && cluster.provisioned
      modifies this
      ensures Inv() && Extends() && present && !deleting && cluster.provisioned
      ensures Rank() < old(Rank()) || Rank() == 0
      ensures old(Rank()) == 3 ==> Rank() <= 1
    {
      Reconcile();
      ServerFinishes();
    }

    /**
     * Convergence: three undisturbed rounds, from any state, leave a machine of a provisioned cluster
     * provisioned, with the provider ID of its ACTIVE server.
     */
    method Converge()
      requires Inv() && calm && present && !deleting && cluster.provisioned
      modifies this
      ensures Inv() && Extends()
      ensures stored.finalizer && stored.provisioned && server.Some? && server.value.status.instanceState == Some(Active)
      ensures server.value.status.instanceID.Some?
      ensures stored.providerID == Some(ProviderID(region, server.value.status.instanceID.value))
    {
      Round();
      Round();
      Round();
    }

    /** Two undisturbed rounds, from any state, remove the server and the finalizer of a machine being deleted. */
    method TearDown()
      requires Inv() && calm && present && deleting
      modifies this
      ensures Inv() && Extends()
      ensures server.None? && !stored.finalizer
    {
      Reconcile();
      ServerFinishes();
      if present {
        Reconcile();
      }
    }

    /** Every run: any number of reconciles of the three controllers and user actions, interleaved. */
    method Run(steps: nat)
      requires Inv()
      modifies this
      ensures Inv() && Extends()
    {
      for i := 0 to steps
        invariant Inv() && Extends()
      {
        var reconcile: bool := *;
        if reconcile && present {
          Reconcile();
        } else {
          Interfere();
        }
      }
    }
  }
}
