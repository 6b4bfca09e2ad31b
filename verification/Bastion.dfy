/**
 * The bastion part of the OpenStackCluster controller: controllers/openstackcluster_controller.go.
 *
 * The controller keeps one OpenStackServer in line with the cluster's spec: it creates it, deletes
 * it when it is disabled or when its spec has changed, and gives it a floating IP. Every call may
 * fail; a write may take effect although it reports an error. Before every call users and the
 * server's own controller may act, unless the world is `quiet`.
 */
module Bastion {
  import opened Common
  import opened ServerSpecs

  type Address = string

  datatype BastionSpec = BastionSpec(
    enabled: Option<bool>,
    spec: Option<MachineSpec>,
    availabilityZone: Option<string>,
    floatingIP: Option<Address>)

  /** The bastion's OpenStackServer object. */
  datatype Server = Server(spec: ServerSpec, deleting: bool, hasFinalizer: bool, ready: bool, instanceID: Option<string>)

  datatype NodeAddress = NodeAddress(external: bool, address: Address)

  /** A floating IP that was deleted, and the one that the cluster's spec named at that moment. */
  datatype Deletion = Deletion(address: Address, named: Option<Address>)

  /** The rank of the bastion before and after a write of the controller to its server. */
  datatype Move = Move(before: nat, after: nat)

  /** The server changes only as users and its own controller change it: it never appears, and keeps its spec. */
  ghost predicate Descends(before: Option<Server>, after: Option<Server>) {
    after.Some? ==>
      && before.Some? && after.value.spec == before.value.spec
      && (before.value.deleting ==> after.value.deleting)
  }

  /** Equal for every reader: a bastion without a machine spec is read as one with an empty spec. */
  ghost predicate SameInputs(b: Option<BastionSpec>, b': Option<BastionSpec>) {
    b' == b || (b.Some? && b.value.spec.None? && b' == Some(b.value.(spec := Some(EMPTY_MACHINE_SPEC))))
  }

  class Controller {
    // What the controller reads of the cluster.
    const cluster: Cluster
    const tags: seq<string>
    const bastionGroup: Option<string>
    const enableExternalNetwork: Option<bool>
    var bastion: Option<BastionSpec>
    var clusterDeleting: bool
    /** Nobody else acts while a reconcile is in progress. */
    const quiet: bool
    /** No call fails, and no machine is left when the cluster is deleted. */
    const faultless: bool

    // The same two as the controller read them at the start of its reconcile.
    var mem: Option<BastionSpec>
    var going: bool

    // What it writes there: its finalizer, and the floating IP in Status.Bastion.
    var finalizer: bool
    var status: Option<Address>

    var server: Option<Server>

    // OpenStack: the existing floating IPs, and the one attached to the bastion's port.
    var floatingIPs: set<Address>
    var attached: Option<Address>
    /** The addresses of the bastion's instance. */
    var addresses: seq<NodeAddress>
    ghost var deletions: seq<Deletion>
    ghost var moves: seq<Move>

    ghost function Named(): Option<Address>
      reads this`mem
    {
      if mem.None? then None else mem.value.floatingIP
    }

    predicate Enabled()
      reads this`mem
    {
      mem.Some? && mem.value.enabled.GetOr(true)
    }

    /** The spec that the bastion's server should have. */
    ghost function Desired(): Result<ServerSpec>
      reads this`mem
    {
      var b := mem.GetOr(BastionSpec(None, None, None, None));
      ToServerSpec(b.spec.GetOr(EMPTY_MACHINE_SPEC), cluster, tags, b.availabilityZone.GetOr(""), None, bastionGroup)
    }

    /**
     * Wrong spec, being deleted, absent, not ready, ready; or for a bastion that is disabled or whose
     * cluster is being deleted: there, being deleted, gone.
     */
    ghost function Rank(): nat
      reads this`mem, this`going, this`server
    {
      if Enabled() && !going then
        if server.None? then 2
        else if server.value.deleting then 3
        else if Desired() != Ok(server.value.spec) then 4
        else if !server.value.ready then 1
        else 0
      else
        if server.None? then 0
        else if server.value.deleting then 1
        else 2
    }

    /**
     * No deletion hit the floating IP that the spec named, no write to the server raised the rank,
     * and a bastion exists only under the cluster's finalizer.
     */
    ghost predicate Inv()
      reads this`deletions, this`moves, this`server, this`finalizer
    {
      && (forall i :: 0 <= i < |deletions| ==> Some(deletions[i].address) != deletions[i].named)
      && (forall i :: 0 <= i < |moves| ==> moves[i].after <= moves[i].before)
      && (server.Some? ==> finalizer)
    }

    /** Every deletion and every write is recorded: the two records only grow. */
    twostate predicate Extends()
      reads this`deletions, this`moves
    {
      old(deletions) <= deletions && old(moves) <= moves
    }

    /** A cluster that the controller has not seen yet. */
    constructor (cluster: Cluster, tags: seq<string>, bastionGroup: Option<string>, enableExternalNetwork: Option<bool>,
                 bastion: Option<BastionSpec>, floatingIPs: set<Address>, quiet: bool, faultless: bool)
      ensures Inv() && server.None? && deletions == [] && this.bastion == bastion && this.floatingIPs == floatingIPs
    {
      this.cluster, this.tags, this.bastionGroup := cluster, tags, bastionGroup;
      this.quiet, this.faultless := quiet, faultless;
      this.enableExternalNetwork, this.bastion, this.floatingIPs := enableExternalNetwork, bastion, floatingIPs;
      clusterDeleting, finalizer, status, server := false, false, None, None;
      mem, going := None, false;
      attached, addresses, deletions, moves := None, [], [], [];
    }

    /** The floating IP named in the spec is still there, unless somebody else removed it. */
    twostate predicate KeepsNamed()
      reads this`floatingIPs
    {
      quiet && old(Named()).Some? && old(Named()).value in old(floatingIPs) ==> old(Named()).value in floatingIPs
    }

    // -------------------------------------------------------------- calls

    /** What happens before a call: the server's controller works on it, users delete it or change floating IPs. */
    method Meanwhile()
      requires Inv()
      modifies `server, `floatingIPs, `attached, `addresses
      ensures Inv() && Descends(old(server), server)
      ensures quiet ==> server == old(server) && floatingIPs == old(floatingIPs) && attached == old(attached) && addresses == old(addresses)
    {
      if !quiet {
        ServerStep();
        var ips: set<Address> := *;
        var a: Option<Address> := *;
        var remove: bool := *;
        var nodes: seq<NodeAddress> := *;
        floatingIPs, attached, addresses := ips, a, nodes;
        if remove && server.Some? {
          server := if server.value.hasFinalizer then Some(server.value.(deleting := true)) else None;
        }
      }
    }

    /** The server's own controller: registers its finalizer, reports, and finishes a deletion. */
    method ServerStep()
      modifies `server
      ensures Descends(old(server), server)
    {
      var ready: bool := *;
      var gone: bool := *;
      var instance: Option<string> := *;
      if server.Some? {
        if server.value.deleting && gone {
          server := None;
        } else {
          server := Some(server.value.(hasFinalizer := true, ready := ready, instanceID := instance));
        }
      }
    }

    method GetBastionServer() returns (r: Result<Option<Server>>)
      ensures r.Ok? ==> r.value == server
      ensures faultless ==> r.Ok?
    {
      var ok: bool := *;
      r := if ok || faultless then Ok(server) else Err;
    }

    method DeleteFloatingIP(address: Address) returns (ok: bool)
      requires Inv() && Some(address) != Named()
      modifies `server, `floatingIPs, `attached, `addresses, `deletions
      ensures Inv() && Descends(old(server), server) && (quiet ==> server == old(server))
      ensures deletions == old(deletions) || deletions == old(deletions) + [Deletion(address, Named())]
      ensures quiet ==> floatingIPs == if deletions == old(deletions) then old(floatingIPs) else old(floatingIPs) - {address}
      ensures ok ==> address !in floatingIPs
      ensures faultless ==> ok
      ensures quiet ==> addresses == old(addresses)
    {
      Meanwhile();
      ok := *;
      ok := ok || faultless;
      var done: bool := *;
      if (ok || done) && address in floatingIPs {
        floatingIPs := floatingIPs - {address};
        attached := if attached == Some(address) then None else attached;
        deletions := deletions + [Deletion(address, Named())];
      }
    }

    /**
     * Deletes the server object: it goes at once, or is marked if its own controller has to clean up
     * first. Never called on a server that should be there.
     */
    method DeleteServer() returns (ok: bool)
      requires Inv() && !ShouldStay(server)
      modifies `server, `floatingIPs, `attached, `addresses, `moves
      ensures Inv() && Extends() && Descends(old(server), server) && KeepsNamed()
      ensures quiet ==> server == old(server) || server.None? || server == Some(old(server).value.(deleting := true))
      ensures quiet && server != old(server) ==> moves == old(moves) + [Move(old(Rank()), Rank())]
      ensures ok ==> server.None? || server.value.deleting
      ensures faultless ==> ok
      ensures quiet ==> floatingIPs == old(floatingIPs)
      ensures quiet ==> addresses == old(addresses)
    {
      Meanwhile();
      ok := *;
      ok := ok || faultless;
      var done: bool := *;
      ghost var before := Rank();
      if (ok || done) && server.Some? {
        server := if server.value.hasFinalizer then Some(server.value.(deleting := true)) else None;
        moves := moves + [Move(before, Rank())];
      }
    }

    /** A server of the desired spec for a bastion that is wanted, not being deleted. */
    ghost predicate ShouldStay(s: Option<Server>)
      reads this`mem, this`going
    {
      Enabled() && !going && s.Some? && Desired() == Ok(s.value.spec)
    }

    method CreateServer(spec: ServerSpec) returns (ok: bool)
      requires Inv() && finalizer && server.None? && Enabled() && !going && Desired() == Ok(spec)
      modifies `server, `floatingIPs, `attached, `addresses, `moves
      ensures Inv() && Extends() && KeepsNamed()
      ensures server.None? || server == Some(Server(spec, false, false, false, None))
      ensures server.Some? ==> moves == old(moves) + [Move(old(Rank()), Rank())]
      ensures ok ==> server.Some?
      ensures faultless ==> ok
    {
      Meanwhile();
      ok := *;
      ok := ok || faultless;
      var done: bool := *;
      ghost var before := Rank();
      if ok || done {
        server := Some(Server(spec, false, false, false, None));
        moves := moves + [Move(before, Rank())];
      }
    }

    /**
     * networking.Service.GetOrCreateFloatingIP: reuses the wanted address, or allocates it, or any
     * new one. A call that fails may leave a new floating IP behind.
     */
    method GetOrCreateFloatingIP(wanted: Option<Address>) returns (r: Result<Address>)
      modifies `floatingIPs
      ensures old(floatingIPs) <= floatingIPs
      ensures r.Ok? ==> r.value in floatingIPs
      ensures r.Ok? && wanted.GetOr("") != "" ==> r.value == wanted.value
      ensures r.Ok? && wanted.GetOr("") == "" ==> r.value !in old(floatingIPs)
      ensures faultless ==> r.Ok?
    {
      var address: Address := *;
      var ok: bool := *;
      ok := ok || faultless;
      var done: bool := *;
      if wanted.GetOr("") != "" {
        address := wanted.value;
      } else if address in floatingIPs {
        if !faultless {
          return Err;
        }
        address := FreshText(floatingIPs);
      }
      if ok || done {
        floatingIPs := floatingIPs + {address};
      }
      r := if ok then Ok(address) else Err;
    }

    // -------------------------------------------------------------- deleteBastion

    /** The loop over the addresses of the bastion's instance. */
    method DeleteExternalAddresses(listed: seq<NodeAddress>) returns (ok: bool)
      requires Inv()
      modifies `server, `floatingIPs, `attached, `addresses, `deletions
      ensures Inv() && Extends() && KeepsNamed()
      ensures Descends(old(server), server) && (quiet ==> server == old(server))
      ensures faultless ==> ok
      ensures ok && quiet ==> forall i :: 0 <= i < |listed| && listed[i].external && Some(listed[i].address) != Named() ==>
                listed[i].address !in floatingIPs
      ensures quiet ==> floatingIPs <= old(floatingIPs)
      ensures quiet ==> addresses == old(addresses)
    {
      ok := true;
      for i := 0 to |listed|
        invariant quiet ==> floatingIPs <= old(floatingIPs) && addresses == old(addresses)
        invariant quiet ==> forall k :: 0 <= k < i && listed[k].external && Some(listed[k].address) != Named() ==>
                    listed[k].address !in floatingIPs
        invariant ok && Inv() && Extends() && KeepsNamed()
        invariant Descends(old(server), server) && (quiet ==> server == old(server))
      {
        if listed[i].external {
          if mem.Some? && mem.value.floatingIP.Some? && listed[i].address == mem.value.floatingIP.value {
            continue;
          }
          ok := DeleteFloatingIP(listed[i].address);
          if !ok {
            return;
          }
        }
      }
    }

    method DeleteStatusFloatingIP() returns (ok: bool)
      requires Inv()
      modifies `server, `floatingIPs, `attached, `addresses, `deletions
      ensures Inv() && Extends() && KeepsNamed()
      ensures Descends(old(server), server) && (quiet ==> server == old(server))
      ensures faultless ==> ok
      ensures ok && quiet && status.Some? && status.value != "" && status != Named() ==> status.value !in floatingIPs
      ensures quiet ==> floatingIPs <= old(floatingIPs)
      ensures quiet ==> addresses == old(addresses)
    {
      ok := true;
      var named := if mem.Some? then mem.value.floatingIP else None;
      if status.Some? && status.value != "" && (named.None? || status.value != named.value) {
        ok := DeleteFloatingIP(status.value);
      }
    }

    /** None of the instance's external addresses exists any more, save the one that the spec names. */
    ghost predicate ExternalGone()
      reads `mem, `addresses, `floatingIPs
    {
      forall i :: 0 <= i < |addresses| && addresses[i].external && Some(addresses[i].address) != Named() ==> addresses[i].address !in floatingIPs
    }

    /** The part of deleteBastion that gives up the floating IPs. */
    method DeleteFloatingIPs(found: Option<Server>) returns (ok: bool)
      requires Inv()
      modifies `server, `floatingIPs, `attached, `addresses, `deletions
      ensures Inv() && Extends() && KeepsNamed()
      ensures Descends(old(server), server) && (quiet ==> server == old(server))
      ensures faultless ==> ok
      ensures ok && quiet && status.Some? && status.value != "" && status != Named() ==> status.value !in floatingIPs
      ensures quiet ==> floatingIPs <= old(floatingIPs)
      ensures quiet ==> addresses == old(addresses)
      ensures ok && quiet && status.Some? && found.Some? && found.value.instanceID.Some? ==> ExternalGone()
    {
      ok := DeleteStatusFloatingIP();
      if ok && status.Some? && found.Some? && found.value.instanceID.Some? {
        var read: bool := *;
        if !read && !faultless {
          return false;
        }
        ok := DeleteExternalAddresses(addresses);
      }
    }

    method DeleteBastion() returns (ok: bool)
      requires Inv() && !ShouldStay(server)
      modifies `floatingIPs, `attached, `addresses, `deletions, `moves, `server, `status
      ensures Inv() && Extends() && KeepsNamed()
      ensures Descends(old(server), server)
      ensures quiet ==> server == old(server) || server.None? || server == Some(old(server).value.(deleting := true))
      ensures ok ==> (server.None? || server.value.deleting) && status.None?
      ensures faultless ==> ok
      ensures ok && quiet && old(status).Some? && old(status).value != "" && old(status) != Named() ==> old(status).value !in floatingIPs
      ensures ok && quiet && old(status).Some? && old(server).Some? && old(server).value.instanceID.Some? ==> ExternalGone()
    {
      var found := GetBastionServer();
      if found.Err? {
        return false;
      }
      ok := DeleteFloatingIPs(found.value);
      if ok {
        ok := DeleteServer();
      }
      if ok {
        status := None;
      }
    }

    // -------------------------------------------------------------- reconcileBastion

    /** bastionToOpenStackServerSpec, which writes an empty machine spec into the cluster where there is none. */
    method BastionToServerSpec() returns (r: Result<ServerSpec>)
      modifies `mem
      ensures r == old(Desired()) == Desired()
      ensures r.Ok? && mem.Some? && mem.value.spec.Some? ==>
                SpecMeans(r.value, mem.value.spec.value, cluster, tags,
                          if mem.value.availabilityZone.Some? then mem.value.availabilityZone.value else "", None, bastionGroup)
      ensures SameInputs(old(mem), mem)
    {
      var b := mem.GetOr(BastionSpec(None, None, None, None));
      if b.spec.None? {
        b := b.(spec := Some(EMPTY_MACHINE_SPEC));
        if mem.Some? {
          mem := Some(b);
        }
      }
      var ports := PortObjects(b.spec.value.ports);
      r := Translate(b.spec.value, ports, cluster, tags, b.availabilityZone.GetOr(""), None, bastionGroup);
    }

    method PortObjects(opts: seq<PortOpts>) returns (ports: seq<Port>)
      ensures Opts(ports) == opts
    {
      ports := [];
      for i := 0 to |opts|
        invariant |ports| == i && forall k :: 0 <= k < i ==> ports[k].Opts() == opts[k]
      {
        var p := new Port(opts[i]);
        ports := ports + [p];
      }
    }

    /** An enabled bastion: delete it if its spec is not the desired one, create it if it is not there. */
    method ReconcileEnabled(found: Option<Server>) returns (waiting: bool, ok: bool)
      requires Inv() && finalizer && Enabled() && !going && Descends(found, server) && (quiet ==> found == server)
      modifies `mem, `floatingIPs, `attached, `addresses, `deletions, `moves, `server, `status
      ensures Inv() && Extends() && KeepsNamed() && SameInputs(old(mem), mem)
      ensures quiet ==> Rank() <= old(Rank()) && (ok && old(Rank()) in {2, 4} ==> Rank() < old(Rank()))
      ensures ok && !waiting ==> found.Some? && found.value.ready && server == old(server) && Desired() == Ok(found.value.spec)
      ensures faultless && Desired().Ok? ==> ok
      ensures quiet && old(Rank()) == 0 && ok ==> !waiting && Rank() == 0
    {
      waiting := true;
      var desired := BastionToServerSpec();
      if desired.Err? {
        return true, false;
      }
      if found.None? {
        ok := CreateServer(desired.value);
      } else if found.value.spec != desired.value {
        ok := DeleteBastion();
      } else {
        waiting, ok := !found.value.ready, true;
      }
    }

    method ReconcileBastionServer() returns (found: Option<Server>, waiting: bool, ok: bool)
      requires Inv() && finalizer && !going
      modifies `mem, `floatingIPs, `attached, `addresses, `deletions, `moves, `server, `status
      ensures Inv() && Extends() && KeepsNamed() && SameInputs(old(mem), mem)
      ensures quiet ==> Rank() <= old(Rank()) && (ok && old(Rank()) in {2, 4} ==> Rank() < old(Rank()))
      ensures ok && !waiting && found.Some? ==> Enabled() && found.value.ready && Desired() == Ok(found.value.spec)
      ensures faultless && (Enabled() ==> Desired().Ok?) ==> ok
      ensures quiet && old(Rank()) == 0 && Enabled() && ok ==> !waiting && found.Some? && found == server == old(server)
      ensures ok && !waiting && found.Some? && quiet ==> found == old(server)
    {
      var r := GetBastionServer();
      found := None;
      if r.Err? {
        return None, true, false;
      }
      found := r.value;
      if Enabled() {
        waiting, ok := ReconcileEnabled(found);
      } else if found.None? {
        waiting, ok := false, true;
      } else {
        waiting := true;
        ok := DeleteBastion();
      }
    }

    /**
     * bastionAddFloatingIP. Without an attached address, the one in the status is reused, and after
     * it the one in the spec; only without either is a new one allocated.
     */
    method AddFloatingIP() returns (ok: bool)
      requires Enabled() && status.Some?
      modifies `status, `floatingIPs, `attached
      ensures status.Some? && old(floatingIPs) <= floatingIPs
      ensures ok ==> attached == status
      ensures ok && old(attached).Some? ==> attached == old(attached)
      ensures ok && old(attached).None? && old(status).value != "" ==> attached == old(status)
      ensures ok && old(attached).None? && old(status).value == "" && Named().GetOr("") != "" ==> attached == Named()
      ensures faultless ==> ok
    {
      ok := *;
      ok := ok || faultless;
      if !ok {
        return;
      }
      if attached.Some? {
        status := attached;
        return;
      }
      var wanted: Option<Address> := None;
      if status.value != "" {
        wanted := status;
      } else if mem.value.floatingIP.Some? {
        wanted := mem.value.floatingIP;
      }
      var r := GetOrCreateFloatingIP(wanted);
      if r.Err? {
        return false;
      }
      status := Some(r.value);
      ok := *;
      ok := ok || faultless;
      if ok {
        attached := Some(r.value);
      }
    }

    /** Nothing that the controller does can fail: no call does, the bastion has a desired spec, and a ready server has an instance. */
    ghost predicate Untroubled(s: Option<Server>)
      reads this`mem
    {
      faultless && (Enabled() ==> Desired().Ok?) && (s.Some? && s.value.ready ==> s.value.instanceID.Some?)
    }

    method ReconcileBastion() returns (ok: bool)
      requires Inv() && finalizer && !going
      modifies `mem, `floatingIPs, `attached, `addresses, `deletions, `moves, `server, `status
      ensures Inv() && Extends() && KeepsNamed() && SameInputs(old(mem), mem)
      ensures quiet ==> Rank() <= old(Rank()) && (ok && old(Rank()) in {2, 4} ==> Rank() < old(Rank()))
      ensures quiet && old(Rank()) == 0 && Enabled() && ok ==> Addressed()
      ensures quiet && Untroubled(old(server)) ==> ok
    {
      var found, waiting;
      found, waiting, ok := ReconcileBastionServer();
      if ok && !waiting && found.Some? {
        ok := FinishBastion(found.value);
      }
    }

    /** With an external network, the bastion's port has an address, and the status says which. */
    ghost predicate Addressed()
      reads `attached, `status
    {
      status.Some? && (enableExternalNetwork.GetOr(true) ==> attached.Some? && attached == status)
    }

    /** The part of reconcileBastion for a server that is ready. */
    method FinishBastion(found: Server) returns (ok: bool)
      requires Inv() && Enabled()
      modifies `server, `floatingIPs, `attached, `addresses, `status
      ensures Inv() && KeepsNamed() && (quiet ==> server == old(server))
      ensures ok ==> Addressed()
      ensures faultless && found.instanceID.Some? ==> ok
    {
      Meanwhile();
      var read: bool := *;
      if (!read && !faultless) || found.instanceID.None? {
        return false;
      }
      if status.None? {
        status := Some("");
      }
      ok := true;
      if enableExternalNetwork.GetOr(true) {
        Meanwhile();
        ok := AddFloatingIP();
      }
    }

    // -------------------------------------------------------------- reconcile

    /** The finalizer is registered before anything is created. */
    method ReconcileNormal() returns (ok: bool)
      requires Inv() && !going
      modifies `finalizer, `mem, `floatingIPs, `attached, `addresses, `deletions, `moves, `server, `status
      ensures Inv() && Extends() && KeepsNamed() && SameInputs(old(mem), mem)
      ensures quiet ==> Rank() <= old(Rank())
      ensures quiet && old(finalizer) && ok && old(Rank()) in {2, 4} ==> Rank() < old(Rank())
      ensures finalizer && (!old(finalizer) ==> server == old(server))
      ensures quiet && old(finalizer) && old(Rank()) == 0 && Enabled() && ok ==> Addressed()
      ensures quiet && Untroubled(old(server)) ==> ok
    {
      if !finalizer {
        finalizer := true;
        return true;
      }
      // Network components and availability zones come first and may fail.
      ok := *;
      ok := ok || faultless;
      if ok {
        ok := ReconcileBastion();
      }
    }

    /** The bastion part of the cluster's deletion; the finalizer goes only after its server has gone. */
    method ReconcileDelete() returns (ok: bool)
      requires Inv() && going
      modifies `finalizer, `floatingIPs, `attached, `addresses, `deletions, `moves, `server, `status
      ensures Inv() && Extends() && KeepsNamed()
      ensures old(finalizer) && !finalizer ==> server.None?
      ensures server.Some? ==> old(server).Some?
      ensures faultless ==> ok
      ensures quiet && faultless ==> (finalizer <==> old(finalizer) && server.Some?)
      ensures quiet && faultless && cluster.networkID.Some? && server.Some? ==> server.value.deleting
    {
      var machinesLeft: bool := *;
      ok := *;
      ok := ok || faultless;
      if !ok || (machinesLeft && !faultless) {
        return;
      }
      if cluster.networkID.Some? {
        ok := DeleteBastion();
        if !ok {
          return;
        }
      }
      var found := GetBastionServer();
      if found.Err? {
        return false;
      }
      if found.value.Some? {
        return;
      }
      // Load balancer, router, network and security groups follow and may fail.
      ok := *;
      ok := ok || faultless;
      if ok {
        finalizer := false;
      }
    }

    /**
     * A reconcile with its closing patch, which may be lost: then finalizer and status are as before.
     * What users change in the cluster meanwhile is seen by the next reconcile.
     */
    method Reconcile() returns (ok: bool)
      requires Inv()
      modifies `finalizer, `mem, `going, `bastion, `floatingIPs, `attached, `addresses, `deletions, `moves, `server, `status
      ensures Inv() && Extends()
      ensures mem == bastion && going == clusterDeleting && SameInputs(old(bastion), bastion)
      ensures old(Synced()) && !clusterDeleting && quiet ==>
                && Rank() <= old(Rank()) && KeepsNamed()
                && (old(finalizer) && ok && old(Rank()) in {2, 4} ==> Rank() < old(Rank()))
      ensures !clusterDeleting && old(finalizer) ==> finalizer
      ensures old(Synced()) && !clusterDeleting && quiet && old(finalizer) && old(Rank()) == 0 && Enabled() && ok ==> Addressed()
      ensures old(Synced()) && !clusterDeleting && quiet && old(Untroubled(server)) ==> ok
      ensures clusterDeleting && server.Some? ==> old(server).Some?
      ensures quiet && faultless && clusterDeleting ==> (finalizer <==> old(finalizer) && server.Some?)
      ensures quiet && faultless && clusterDeleting && cluster.networkID.Some? && server.Some? ==> server.value.deleting
    {
      mem, going := bastion, clusterDeleting;
      var finalizer0, status0 := finalizer, status;
      ok := ReconcileBody();
      var patched := Patch(finalizer0, status0);
      ok := ok && patched;
    }

    method Patch(finalizer0: bool, status0: Option<Address>) returns (patched: bool)
      requires Inv() && SameInputs(bastion, mem) && (server.Some? ==> finalizer0)
      modifies `finalizer, `status, `mem, `bastion
      ensures Inv() && mem == bastion && SameInputs(old(bastion), bastion) && SameInputs(bastion, old(mem))
      ensures if patched then finalizer == old(finalizer) && status == old(status) else finalizer == finalizer0 && status == status0
      ensures Rank() == old(Rank())
      ensures faultless ==> patched
    {
      patched := *;
      patched := patched || faultless;
      if patched {
        bastion := mem;
      } else {
        finalizer, status, mem := finalizer0, status0, bastion;
      }
    }

    method ReconcileBody() returns (ok: bool)
      requires Inv()
      modifies `finalizer, `mem, `floatingIPs, `attached, `addresses, `deletions, `moves, `server, `status
      ensures Inv() && Extends() && KeepsNamed() && SameInputs(old(mem), mem)
      ensures !going && quiet ==> Rank() <= old(Rank())
      ensures !going && quiet && old(finalizer) && ok && old(Rank()) in {2, 4} ==> Rank() < old(Rank())
      ensures !going && old(finalizer) ==> finalizer
      ensures server.Some? ==> old(finalizer)
      ensures !going && quiet && old(finalizer) && old(Rank()) == 0 && Enabled() && ok ==> Addressed()
      ensures quiet && !going && Untroubled(old(server)) ==> ok
      ensures going && server.Some? ==> old(server).Some?
      ensures quiet && faultless && going ==> ok && (finalizer <==> old(finalizer) && server.Some?)
      ensures quiet && faultless && going && cluster.networkID.Some? && server.Some? ==> server.value.deleting
    {
      if going {
        ok := ReconcileDelete();
      } else {
        ok := ReconcileNormal();
      }
    }

    /** Nobody has edited the cluster since the last reconcile. */
    ghost predicate Synced()
      reads this`mem, this`bastion, this`going, this`clusterDeleting
    {
      mem == bastion && going == clusterDeleting
    }

    // -------------------------------------------------------------- every run

    /** Users edit the bastion and delete the cluster. */
    method EditCluster()
      modifies `bastion, `clusterDeleting
    {
      var b: Option<BastionSpec> := *;
      var deleteCluster: bool := *;
      bastion := b;
      clusterDeleting := clusterDeleting || deleteCluster;
    }

    /**
     * Every run, with others acting before every call: no deletion ever hits the named floating IP,
     * no write of the controller raises the rank, and no finalizer goes before the bastion.
     */
    method Run(steps: nat)
      requires Inv()
      modifies this
      ensures Inv() && Extends()
    {
      for i := 0 to steps
        invariant Inv() && Extends()
      {
        var who: bool := *;
        if who {
          var _ := Reconcile();
        } else {
          Meanwhile();
          EditCluster();
        }
      }
    }

    /** The server's controller gets its work done. */
    method ServerFinishes()
      requires Inv()
      modifies `server
      ensures Inv()
      ensures Rank() <= old(Rank())
      ensures old(Rank()) in {1, 3} ==> Rank() < old(Rank())
      ensures server.Some? ==> server.value.ready && server.value.instanceID.Some?
      ensures old(server).None? || old(server).value.deleting ==> server.None?
    {
      if server.Some? {
        if server.value.deleting {
          server := None;
        } else {
          var id: string := *;
          server := Some(server.value.(hasFinalizer := true, ready := true, instanceID := Some(server.value.instanceID.GetOr(id))));
        }
      }
    }

    /**
     * Convergence: with fixed inputs that have a desired spec, and nobody interfering, three rounds
     * without error, in each of which the server's controller gets its work done, end with a ready
     * bastion of the desired spec that has its address, or with none if it is disabled; from any
     * state. If no call fails, there is no error.
     */
    method Converge() returns (ok: bool)
      requires Inv() && finalizer && !clusterDeleting && quiet && Synced() && (Enabled() ==> Desired().Ok?)
      modifies `finalizer, `mem, `going, `bastion, `floatingIPs, `attached, `addresses, `deletions, `moves, `server, `status
      ensures Inv() && Extends()
      ensures ok ==> Rank() == 0 && (Enabled() ==> Addressed())
      ensures old(Untroubled(server)) ==> ok
    {
      ok := Round();
      if !ok {
        return;
      }
      ok := Round();
      if ok {
        ok := Round();
      }
    }

    /** A reconcile, after which the server's controller gets its work done. */
    method Round() returns (ok: bool)
      requires Inv() && finalizer && !clusterDeleting && quiet && Synced() && (Enabled() ==> Desired().Ok?)
      modifies `finalizer, `mem, `going, `bastion, `floatingIPs, `attached, `addresses, `deletions, `moves, `server, `status
      ensures Inv() && Extends()
      ensures finalizer && Synced() && (Enabled() ==> Desired().Ok?) && SameInputs(old(mem), mem)
      ensures ok ==> Rank() == 0 || (old(Rank()) > 2 && Rank() <= 2)
      ensures ok && old(Rank()) == 0 && Enabled() ==> Addressed()
      ensures old(Untroubled(server)) ==> ok && Untroubled(server)
    {
      ok := Reconcile();
      if ok {
        ServerFinishes();
      }
    }

    /** Two rounds in which no call fails, from any state, remove the bastion and then the finalizer of a cluster being deleted. */
    method TearDown()
      requires Inv() && clusterDeleting && quiet && faultless && cluster.networkID.Some?
      modifies `finalizer, `mem, `going, `bastion, `floatingIPs, `attached, `addresses, `deletions, `moves, `server, `status
      ensures Inv() && Extends()
      ensures server.None? && !finalizer
    {
      var ok := Reconcile();
      ServerFinishes();
      ok := Reconcile();
    }
  }
}
