/**
 * Propagation of allowedAddressPairs from an OpenStackMachineTemplate to the Neutron ports of
 * existing machines: controllers/openstackmachinetemplate_controller.go.
 *
 * An annotation on each OpenStackMachine records the pairs that were applied last. The JSON
 * encoding is taken to be injective, so the annotation holds the encoded value itself; None stands
 * for no annotation, or one that encodes no list of pairs.
 */
module AddressPairs {
  import opened Common

  datatype AddressPair = AddressPair(ip: string, mac: Option<string>)
  datatype NeutronPair = NeutronPair(ip: string, mac: string)
  datatype OwnerReference = OwnerReference(kind: string, name: string)
  datatype MachineSet = MachineSet(name: string, infrastructureRef: string)
  datatype Machine = Machine(owners: seq<OwnerReference>, infrastructureRef: string)

  type PortID = string
  /** The allowedAddressPairs of each port of the template, in order. */
  type Desired = seq<seq<AddressPair>>

  function ToNeutron(pairs: seq<AddressPair>): seq<NeutronPair> {
    seq(|pairs|, i requires 0 <= i < |pairs| => NeutronPair(pairs[i].ip, pairs[i].mac.GetOr("")))
  }

  /** The port allows exactly the wanted pairs, in order, an absent MAC standing as empty. */
  ghost predicate Allows(world: map<PortID, seq<NeutronPair>>, port: PortID, pairs: seq<AddressPair>) {
    && port in world && |world[port]| == |pairs|
    && forall j :: 0 <= j < |pairs| ==>
         world[port][j].ip == pairs[j].ip && world[port][j].mac == if pairs[j].mac.Some? then pairs[j].mac.value else ""
  }

  /** The pairs of the first k ports of a list set to the first k wanted ones, in order. */
  function Applied(world: map<PortID, seq<NeutronPair>>, ports: seq<PortID>, want: Desired, k: nat): map<PortID, seq<NeutronPair>>
    requires k <= |ports| && k <= |want|
  {
    if k == 0 then world else Applied(world, ports, want, k - 1)[ports[k - 1] := ToNeutron(want[k - 1])]
  }

  /** How many ports of a list have a counterpart in the template. */
  function Matching(ports: seq<PortID>, want: Desired): nat {
    if |ports| <= |want| then |ports| else |want|
  }

  /** Every port that has a counterpart in the template allows exactly the wanted pairs. */
  ghost predicate PortsHave(world: map<PortID, seq<NeutronPair>>, ports: seq<PortID>, want: Desired) {
    forall i :: 0 <= i < Matching(ports, want) ==> ports[i] in world && world[ports[i]] == ToNeutron(want[i])
  }

  lemma {:induction false} AppliedFacts(world: map<PortID, seq<NeutronPair>>, ports: seq<PortID>, want: Desired, k: nat)
    requires k <= |ports| && k <= |want| && NoDup(ports)
    ensures var after := Applied(world, ports, want, k);
            && (forall i :: 0 <= i < k ==> ports[i] in after && after[ports[i]] == ToNeutron(want[i]))
            && (forall p :: p !in ports[..k] ==> (p in after <==> p in world) && (p in world ==> after[p] == world[p]))
  {
    if k > 0 {
      AppliedFacts(world, ports, want, k - 1);
      assert ports[..k] == ports[..k - 1] + [ports[k - 1]];
      var before, after := Applied(world, ports, want, k - 1), Applied(world, ports, want, k);
      assert after == before[ports[k - 1] := ToNeutron(want[k - 1])];
      forall i | 0 <= i < k ensures ports[i] in after && after[ports[i]] == ToNeutron(want[i]) {
        assert i < k - 1 ==> ports[i] != ports[k - 1];
      }
    }
  }

  ghost predicate OwnedBy(machine: Machine, ms: MachineSet) {
    exists k :: 0 <= k < |machine.owners| && machine.owners[k] == OwnerReference("MachineSet", ms.name)
  }

  method IsOwnedByMachineSet(machine: Machine, ms: MachineSet) returns (owned: bool)
    ensures owned <==> OwnedBy(machine, ms)
  {
    for k := 0 to |machine.owners|
      invariant forall k' :: 0 <= k' < k ==> machine.owners[k'] != OwnerReference("MachineSet", ms.name)
    {
      if machine.owners[k].kind == "MachineSet" && machine.owners[k].name == ms.name {
        return true;
      }
    }
    return false;
  }

  /** Port lists of servers share no port and repeat none. */
  predicate Disjoint(servers: map<string, seq<PortID>>) {
    && (forall name :: name in servers ==> NoDup(servers[name]))
    && (forall n, n', p :: n in servers && n' in servers && p in servers[n] && p in servers[n'] ==> n == n')
  }

  predicate AllIn(ports: seq<PortID>, pool: set<PortID>) {
    forall p :: p in ports ==> p in pool
  }

  predicate NoneIn(ports: seq<PortID>, pool: set<PortID>) {
    forall p :: p in ports ==> p !in pool
  }

  /** The annotation tells the truth about the ports of every listed machine. */
  ghost predicate Truthful(osms: map<string, Option<Desired>>, servers: map<string, seq<PortID>>,
                           world: map<PortID, seq<NeutronPair>>, want: Desired) {
    forall name :: name in osms && name in servers && osms[name] == Some(want) ==> PortsHave(world, servers[name], want)
  }

  ghost function ListsOf(servers: map<string, seq<PortID>>, portsOf: map<string, seq<PortID>>, unread: set<string>)
    : map<string, seq<PortID>>
  {
    map name | name in servers && name in portsOf && name !in unread :: portsOf[name]
  }

  function AllPorts(portsOf: map<string, seq<PortID>>): (r: set<PortID>)
    ensures AllUsed(portsOf, r)
  {
    set name, p | name in portsOf && p in portsOf[name] :: p
  }

  predicate AllUsed(portsOf: map<string, seq<PortID>>, used: set<PortID>) {
    forall name :: name in portsOf ==> AllIn(portsOf[name], used)
  }

  ghost predicate ReadingOf(name: string, ports: seq<PortID>, portsOf: map<string, seq<PortID>>, used: set<PortID>,
                            unread: set<string>)
  {
    && NoDup(ports) && AllIn(ports, used)
    && (forall n, p :: n in portsOf && n != name && p in portsOf[n] ==> p !in ports)
    && (name in portsOf && name !in unread ==> portsOf[name] == ports)
  }

  /** A server keeps its ports or gets ones that never were before. */
  predicate FreshPorts(portsOf: map<string, seq<PortID>>, used: set<PortID>, portsOf': map<string, seq<PortID>>) {
    forall name :: name in portsOf' ==> (name in portsOf && portsOf'[name] == portsOf[name]) || NoneIn(portsOf'[name], used)
  }

  /** The machines whose server appears or gets other ports. */
  ghost function Renewed(servers: map<string, seq<PortID>>, portsOf: map<string, seq<PortID>>,
                         servers': map<string, seq<PortID>>, portsOf': map<string, seq<PortID>>): set<string> {
    (set name | name in servers' && name !in servers)
    + (set name | name in portsOf' && (name !in portsOf || portsOf'[name] != portsOf[name]))
  }

  lemma ReadingStays(name: string, ports: seq<PortID>, portsOf: map<string, seq<PortID>>, used: set<PortID>, unread: set<string>,
                     portsOf': map<string, seq<PortID>>, used': set<PortID>, unread': set<string>)
    requires ReadingOf(name, ports, portsOf, used, unread) && FreshPorts(portsOf, used, portsOf')
    requires used <= used' && unread <= unread'
    requires forall n :: n in portsOf' && (n !in portsOf || portsOf'[n] != portsOf[n]) ==> n in unread'
    ensures ReadingOf(name, ports, portsOf', used', unread')
  {
  }

  /** With fewer claims and fewer lists, every annotation stays truthful. */
  lemma FewerStayTruthful(osms: map<string, Option<Desired>>, lists: map<string, seq<PortID>>, osms': map<string, Option<Desired>>,
                          lists': map<string, seq<PortID>>, world: map<PortID, seq<NeutronPair>>, want: Desired)
    requires Truthful(osms, lists, world, want)
    requires forall name :: name in osms' && osms'[name] == Some(want) ==> name in osms && osms[name] == Some(want)
    requires forall name :: name in lists' ==> name in lists && lists'[name] == lists[name]
    ensures Truthful(osms', lists', world, want)
  {
  }

  /** Updating a port of a machine that does not claim the pairs keeps every annotation truthful. */
  lemma UpdateKeepsTruthful(osms: map<string, Option<Desired>>, servers: map<string, seq<PortID>>,
                            world: map<PortID, seq<NeutronPair>>, want: Desired, name: string, p: PortID, pairs: seq<NeutronPair>)
    requires Truthful(osms, servers, world, want)
    requires name in osms ==> osms[name] != Some(want)
    requires forall n :: n in servers && n != name ==> p !in servers[n]
    ensures Truthful(osms, servers, world[p := pairs], want)
  {
    forall n | n in osms && n in servers && osms[n] == Some(want) ensures PortsHave(world[p := pairs], servers[n], want) {
      assert forall j :: 0 <= j < |servers[n]| ==> servers[n][j] in servers[n];
      assert PortsHave(world, servers[n], want);
    }
  }

  class Controller {
    const clusterName: string
    const templateName: string
    /** Nobody else acts while a run is in progress. */
    const quiet: bool
    /** No call fails. */
    const faultless: bool
    var template: Desired

    var machineSets: seq<MachineSet>
    var machines: seq<Machine>
    var osms: map<string, Option<Desired>>
    /** The ports in the status of each OpenStackServer; [] also when the status has none yet. */
    var servers: map<string, seq<PortID>>
    /** The ports that a server has once it has any. */
    var portsOf: map<string, seq<PortID>>
    /** Every port there has been; Neutron gives no ID out again. */
    var used: set<PortID>
    /** The machines whose server appeared, or got other ports, after a run last read its ports. */
    ghost var unread: set<string>

    var world: map<PortID, seq<NeutronPair>>
    var updates: seq<PortID>

    predicate Stable(servers: map<string, seq<PortID>>, portsOf: map<string, seq<PortID>>) {
      && Disjoint(portsOf)
      && forall name :: name in servers && servers[name] != [] ==> name in portsOf && portsOf[name] == servers[name]
    }

    /** The ports of the servers that are there and whose ports a run has read. */
    ghost function Lists(): map<string, seq<PortID>>
      reads `servers, `portsOf, `unread
    {
      ListsOf(servers, portsOf, unread)
    }

    /** No annotation lies about the ports of a server that is the one a run last read. */
    ghost predicate Inv()
      reads `template, `osms, `servers, `portsOf, `used, `unread, `world
    {
      && Stable(servers, portsOf)
      && AllUsed(portsOf, used)
      && Truthful(osms, Lists(), world, template)
    }

    /** The ports of a server as a run has read them: no other machine has one of them. */
    ghost predicate Reading(name: string, ports: seq<PortID>)
      reads `portsOf, `used, `unread
    {
      ReadingOf(name, ports, portsOf, used, unread)
    }

    /** Machines without the annotation, with any ports and pairs. */
    constructor (clusterName: string, templateName: string, quiet: bool, faultless: bool, template: Desired, machineNames: set<string>,
                 servers: map<string, seq<PortID>>, world: map<PortID, seq<NeutronPair>>)
      requires Disjoint(servers)
      ensures Inv() && this.template == template && this.servers == servers && this.world == world && updates == []
    {
      this.clusterName, this.templateName, this.template := clusterName, templateName, template;
      this.quiet, this.faultless := quiet, faultless;
      this.servers, portsOf, this.world := servers, servers, world;
      used := AllPorts(servers);
      unread := {};
      osms := map name | name in machineNames :: None;
      machineSets, machines, updates := [], [], [];
    }

    ghost predicate Target(ms: MachineSet, machine: Machine) {
      && ms.infrastructureRef == templateName
      && OwnedBy(machine, ms)
      && machine.infrastructureRef != ""
    }

    /** A machine with recorded ports carries the annotation. */
    ghost predicate Settled(name: string)
      reads `osms, `servers, `template
    {
      name in osms && name in servers && servers[name] != [] ==> osms[name] == Some(template)
    }

    ghost predicate RowSettled(ms: MachineSet, list: seq<Machine>)
      reads `osms, `servers, `template
    {
      forall machine :: machine in list && Target(ms, machine) ==> Settled(machine.infrastructureRef)
    }

    /** Every machine of the template, with recorded ports, carries the annotation. */
    ghost predicate AllSettled()
      reads `machineSets, `machines, `osms, `servers, `template
    {
      forall ms :: ms in machineSets ==> RowSettled(ms, machines)
    }

    /** What every part of a run may do; the updates of ports are all recorded. */
    twostate predicate Progress()
      reads `machineSets, `machines, `osms, `servers, `unread, `world, `updates, `template
    {
      && old(updates) <= updates
      && (updates == old(updates) ==> world == old(world))
      && (quiet ==> machineSets == old(machineSets) && machines == old(machines) && servers == old(servers)
                    && osms.Keys == old(osms).Keys && unread <= old(unread)
                    && forall name :: name in osms ==> osms[name] == old(osms)[name] || osms[name] == Some(template))
    }

    // -------------------------------------------------------------- others

    /**
     * What others may do to OpenStackMachines, their annotations and their servers at any time:
     * anything except claiming the current pairs for a machine. In particular, a server that is gone
     * may come back, and it then has new ports.
     */
    predicate Permitted(osms': map<string, Option<Desired>>, servers': map<string, seq<PortID>>, portsOf': map<string, seq<PortID>>)
      reads `osms, `template, `portsOf, `used
    {
      && Stable(servers', portsOf')
      && (forall name :: name in osms' && osms'[name] == Some(template) ==> name in osms && osms[name] == Some(template))
      && FreshPorts(portsOf, used, portsOf')
    }

    /** No machine claims the current pairs that did not claim them before. */
    twostate predicate NoNewClaims()
      reads `osms, `template
    {
      forall name :: name in osms && osms[name] == Some(template) ==> name in old(osms) && old(osms)[name] == Some(template)
    }

    /** What others do, applied. */
    method Change(osms': map<string, Option<Desired>>, servers': map<string, seq<PortID>>, portsOf': map<string, seq<PortID>>)
      requires Inv() && Permitted(osms', servers', portsOf')
      modifies `osms, `servers, `portsOf, `used, `unread
      ensures Inv() && NoNewClaims()
      ensures osms == osms' && servers == servers' && portsOf == portsOf'
      ensures unread == old(unread) + Renewed(old(servers), old(portsOf), servers, portsOf)
      ensures forall name, ports :: old(Reading(name, ports)) ==> Reading(name, ports)
    {
      ghost var lists := Lists();
      unread := unread + Renewed(servers, portsOf, servers', portsOf');
      used := used + AllPorts(portsOf');
      FewerStayTruthful(osms, lists, osms', ListsOf(servers', portsOf', unread), world, template);
      osms, servers, portsOf := osms', servers', portsOf';
      forall name, ports | old(Reading(name, ports)) ensures Reading(name, ports) {
        ReadingStays(name, ports, old(portsOf), old(used), old(unread), portsOf, used, unread);
      }
    }

    /** What happens before a call of a run. The pairs of ports are left alone. */
    method Meanwhile()
      requires Inv()
      modifies `machineSets, `machines, `osms, `servers, `portsOf, `used, `unread
      ensures Inv() && Progress() && NoNewClaims()
      ensures forall name, ports :: old(Reading(name, ports)) ==> Reading(name, ports)
    {
      if !quiet {
        var sets: seq<MachineSet> := *;
        var ms: seq<Machine> := *;
        machineSets, machines := sets, ms;
        var osms': map<string, Option<Desired>> := *;
        var servers': map<string, seq<PortID>> := *;
        var portsOf': map<string, seq<PortID>> := *;
        if Permitted(osms', servers', portsOf') {
          Change(osms', servers', portsOf');
        }
      }
    }

    /** Between runs others may also change the pairs of ports, except those of an annotated machine. */
    method EditPairs(world': map<PortID, seq<NeutronPair>>)
      requires Inv() && KeepsPairs(world')
      modifies `world
      ensures Inv() && world == world'
    {
      forall name | name in osms && name in Lists() && osms[name] == Some(template) ensures PortsHave(world', Lists()[name], template) {
        assert PortsHave(world, Lists()[name], template);
        assert forall i :: 0 <= i < |portsOf[name]| ==> portsOf[name][i] in portsOf[name];
      }
      world := world';
    }

    /** What others may do between runs. */
    method Interfere()
      requires Inv()
      modifies `machineSets, `machines, `osms, `servers, `portsOf, `used, `unread, `world
      ensures Inv()
    {
      var sets: seq<MachineSet> := *;
      var ms: seq<Machine> := *;
      machineSets, machines := sets, ms;
      var osms': map<string, Option<Desired>> := *;
      var servers': map<string, seq<PortID>> := *;
      var portsOf': map<string, seq<PortID>> := *;
      var world': map<PortID, seq<NeutronPair>> := *;
      if Permitted(osms', servers', portsOf') {
        Change(osms', servers', portsOf');
        if KeepsPairs(world') {
          EditPairs(world');
        }
      }
    }

    predicate KeepsPairs(world': map<PortID, seq<NeutronPair>>)
      reads `osms, `template, `servers, `portsOf, `world
    {
      forall name, p :: name in osms && osms[name] == Some(template) && name in servers && name in portsOf && p in portsOf[name] && p in world ==>
        p in world' && world'[p] == world[p]
    }

    // -------------------------------------------------------------- one run

    /** networking.Service.UpdateAllowedAddressPairs. The update may take effect although the call reports an error. */
    method UpdateAllowedAddressPairs(port: PortID, pairs: seq<AddressPair>) returns (ok: bool, ghost effect: bool)
      modifies `world, `updates
      ensures ok ==> effect
      ensures if effect then world == old(world)[port := ToNeutron(pairs)] && updates == old(updates) + [port]
              else world == old(world) && updates == old(updates)
      ensures effect ==> Allows(world, port, pairs)
      ensures faultless ==> ok
    {
      var converted: seq<NeutronPair> := [];
      for i := 0 to |pairs|
        invariant converted == ToNeutron(pairs[..i])
        invariant world == old(world) && updates == old(updates)
      {
        converted := converted + [NeutronPair(pairs[i].ip, pairs[i].mac.GetOr(""))];
      }
      assert pairs[..|pairs|] == pairs;
      ok := *;
      ok := ok || faultless;
      var reached: bool := *;
      effect := ok || reached;
      if ok || reached {
        world, updates := world[port := converted], updates + [port];
      }
    }

    /** A machine does not claim the current pairs. */
    ghost predicate Unclaimed(name: string)
      reads `osms, `template
    {
      name in osms ==> osms[name] != Some(template)
    }

    /** The body of the port loop. */
    method UpdatePort(name: string, ports: seq<PortID>, i: nat) returns (ok: bool, ghost effect: bool)
      requires Inv() && Reading(name, ports) && Unclaimed(name)
      requires i < |ports| && i < |template|
      modifies `machineSets, `machines, `osms, `servers, `portsOf, `used, `unread, `world, `updates
      ensures Inv() && Progress() && NoNewClaims() && Reading(name, ports)
      ensures ok ==> effect
      ensures if effect then world == old(world)[ports[i] := ToNeutron(template[i])] && updates == old(updates) + [ports[i]]
              else world == old(world) && updates == old(updates)
      ensures quiet ==> osms == old(osms)
      ensures faultless ==> ok
    {
      Meanwhile();
      assert ports[i] in ports;
      UpdateKeepsTruthful(osms, Lists(), world, template, name, ports[i], ToNeutron(template[i]));
      ok, effect := UpdateAllowedAddressPairs(ports[i], template[i]);
    }

    /**
     * The port loop. It stops at the first failure. The first k ports were updated: all of them on
     * success, otherwise those before the failing one, and that one if its update took effect.
     */
    method UpdatePorts(name: string, ports: seq<PortID>) returns (ghost k: nat, ok: bool)
      requires Inv() && Reading(name, ports) && Unclaimed(name)
      modifies `machineSets, `machines, `osms, `servers, `portsOf, `used, `unread, `world, `updates
      ensures Inv() && Progress() && NoNewClaims() && Reading(name, ports)
      ensures k <= Matching(ports, template)
      ensures ok ==> k == Matching(ports, template)
      ensures world == Applied(old(world), ports, template, k)
      ensures updates == old(updates) + ports[..k]
      ensures quiet ==> osms == old(osms)
      ensures faultless ==> ok
    {
      k := 0;
      for i := 0 to Matching(ports, template)
        invariant Inv() && Progress() && NoNewClaims() && Reading(name, ports) && (quiet ==> osms == old(osms))
        invariant k == i
        invariant world == Applied(old(world), ports, template, i)
        invariant updates == old(updates) + ports[..i]
      {
        ghost var effect;
        ok, effect := UpdatePort(name, ports, i);
        assert ports[..i + 1] == ports[..i] + [ports[i]];
        k := if effect then i + 1 else i;
        if !ok {
          return;
        }
      }
      ok := true;
    }

    /** Patches the annotation. The write may reach the server although the call reports an error. */
    method Annotate(name: string, ghost ports: seq<PortID>) returns (ok: bool)
      requires Inv() && Reading(name, ports) && PortsHave(world, ports, template)
      modifies `machineSets, `machines, `osms, `servers, `portsOf, `used, `unread
      ensures Inv() && Progress()
      ensures forall other :: other != name && other in osms && osms[other] == Some(template) ==>
                other in old(osms) && old(osms)[other] == Some(template)
      ensures quiet ==> osms == old(osms) || osms == old(osms)[name := Some(template)]
      ensures ok ==> name in osms && osms[name] == Some(template)
      ensures quiet && faultless && name in old(osms) ==> ok
    {
      Meanwhile();
      var written: bool := *;
      ok := *;
      ok := ok || faultless;
      if name !in osms {
        ok := false;
      } else if written || ok {
        osms := osms[name := Some(template)];
      }
    }

    /** The part of a run that handles one OpenStackMachine with an outdated annotation and recorded ports. */
    method ApplyTo(name: string, ports: seq<PortID>) returns (ok: bool)
      requires Inv() && Reading(name, ports) && Unclaimed(name)
      modifies `machineSets, `machines, `osms, `servers, `portsOf, `used, `unread, `world, `updates
      ensures Inv() && Progress()
      ensures ok ==> name in osms && osms[name] == Some(template)
      ensures quiet ==> forall other :: other != name && other in osms ==> osms[other] == old(osms)[other]
      ensures quiet && faultless && name in old(osms) ==> ok
    {
      ghost var k;
      k, ok := UpdatePorts(name, ports);
      if ok {
        AppliedFacts(old(world), ports, template, k);
        ok := Annotate(name, ports);
      }
    }

    /** The body of the inner loop. The networking service is created on first use. */
    method ReconcileMachine(name: string, service: bool) returns (ok: bool, service': bool)
      requires Inv()
      modifies `machineSets, `machines, `osms, `servers, `portsOf, `used, `unread, `world, `updates
      ensures Inv() && Progress()
      ensures quiet && ok ==> Settled(name)
      ensures quiet && old(Settled(name)) ==> osms == old(osms) && updates == old(updates)
      ensures quiet && faultless ==> ok
    {
      Meanwhile();
      ok, service' := *, service;
      ok := ok || faultless;
      if !ok || name !in osms || osms[name] == Some(template) {
        return;
      }
      var ports;
      ok, ports := ReadPorts(name);
      if ports == [] {
        return;
      }
      if !service' {
        ok := *;
      ok := ok || faultless;
        if !ok {
          return;
        }
        service' := true;
      }
      ok := ApplyTo(name, ports);
    }

    /** Reads the ports in the status of the machine's server, if it has any. */
    method ReadPorts(name: string) returns (ok: bool, ports: seq<PortID>)
      requires Inv() && Unclaimed(name)
      modifies `machineSets, `machines, `osms, `servers, `portsOf, `used, `unread
      ensures Inv() && Progress() && NoNewClaims() && (ports != [] ==> Reading(name, ports))
      ensures ports == (if ok && name in servers then servers[name] else [])
      ensures quiet ==> osms == old(osms) && updates == old(updates)
      ensures faultless ==> ok
    {
      Meanwhile();
      ok, ports := *, [];
      ok := ok || faultless;
      if ok && name in servers && servers[name] != [] {
        ports := servers[name];
        unread := unread - {name};
      }
    }

    /** The inner loop, over all machines of the cluster as they were listed. */
    method ReconcileMachineSet(ms: MachineSet, list: seq<Machine>, service: bool) returns (ok: bool, service': bool)
      requires Inv() && ms.infrastructureRef == templateName
      modifies `machineSets, `machines, `osms, `servers, `portsOf, `used, `unread, `world, `updates
      ensures Inv() && Progress()
      ensures quiet && ok ==> RowSettled(ms, list)
      ensures quiet && old(RowSettled(ms, list)) ==> osms == old(osms) && updates == old(updates)
      ensures quiet && faultless ==> ok
    {
      ok, service' := true, service;
      for j := 0 to |list|
        invariant ok && Inv() && Progress()
        invariant quiet ==> RowSettled(ms, list[..j])
        invariant quiet && old(RowSettled(ms, list)) ==> osms == old(osms) && updates == old(updates)
      {
        var owned := IsOwnedByMachineSet(list[j], ms);
        if owned && list[j].infrastructureRef != "" {
          assert Target(ms, list[j]);
          label before:
          ok, service' := ReconcileMachine(list[j].infrastructureRef, service');
          if !ok {
            return;
          }
          forall m | quiet && m in list[..j] && Target(ms, m) ensures Settled(m.infrastructureRef) {
            assert old@before(Settled(m.infrastructureRef));
          }
        }
        assert list[..j + 1] == list[..j] + [list[j]];
      }
      assert list[..|list|] == list;
    }

    /**
     * reconcileAllowedAddressPairs. Whatever fails and whatever others do meanwhile, no annotation
     * lies about its ports. Undisturbed, a run without error annotates every machine of the template
     * that has ports, and when they all are annotated already, a run changes nothing.
     */
    method ReconcileAllowedAddressPairs() returns (ok: bool)
      requires Inv()
      modifies `machineSets, `machines, `osms, `servers, `portsOf, `used, `unread, `world, `updates
      ensures Inv() && Progress()
      ensures quiet && ok && template != [] && clusterName != "" ==> AllSettled()
      ensures quiet && (old(AllSettled()) || template == [] || clusterName == "") ==>
                osms == old(osms) && world == old(world) && updates == old(updates)
      ensures quiet && faultless ==> ok
      ensures quiet && ok && template != [] && clusterName != "" ==> AllApplied()
    {
      ok := true;
      if |template| == 0 || clusterName == "" {
        return;
      }
      Meanwhile();
      var sets := machineSets;
      Meanwhile();
      var list := machines;
      ok := *;
      ok := ok || faultless;
      if ok {
        ok := ReconcileLists(sets, list);
        if quiet && ok {
          SettledIsApplied();
        }
      }
    }

    /** The ports of every machine of the template whose server is the one a run last read allow what the template says. */
    ghost predicate AllApplied()
      reads this
    {
      forall ms, machine :: ms in machineSets && machine in machines && Target(ms, machine) ==> AppliedTo(machine.infrastructureRef)
    }

    ghost predicate AppliedTo(name: string)
      reads this
    {
      name in osms && name in servers && name !in unread ==>
        forall i :: 0 <= i < |servers[name]| && i < |template| ==> Allows(world, servers[name][i], template[i])
    }

    lemma SettledIsApplied()
      requires Inv() && AllSettled()
      ensures AllApplied()
    {
      forall ms, machine | ms in machineSets && machine in machines && Target(ms, machine) ensures AppliedTo(machine.infrastructureRef) {
        var name := machine.infrastructureRef;
        assert RowSettled(ms, machines) && Settled(name);
        if name in osms && name in servers && name !in unread && servers[name] != [] {
          assert name in Lists() && Lists()[name] == servers[name] && PortsHave(world, servers[name], template);
        }
      }
    }

    /** The outer loop. */
    method ReconcileLists(sets: seq<MachineSet>, list: seq<Machine>) returns (ok: bool)
      requires Inv()
      modifies `machineSets, `machines, `osms, `servers, `portsOf, `used, `unread, `world, `updates
      ensures Inv() && Progress()
      ensures quiet && ok ==> forall ms :: ms in sets ==> RowSettled(ms, list)
      ensures quiet && old(forall ms :: ms in sets ==> RowSettled(ms, list)) ==> osms == old(osms) && updates == old(updates)
      ensures quiet && faultless ==> ok
    {
      ok := true;
      var service := false;
      for i := 0 to |sets|
        invariant ok && Inv() && Progress()
        invariant quiet ==> forall ms :: ms in sets[..i] ==> RowSettled(ms, list)
        invariant quiet && old(forall ms :: ms in sets ==> RowSettled(ms, list)) ==> osms == old(osms) && updates == old(updates)
      {
        label before:
        if sets[i].infrastructureRef == templateName {
          ok, service := ReconcileMachineSet(sets[i], list, service);
          if !ok {
            return;
          }
        }
        forall ms, m | quiet && ms in sets[..i] && m in list && Target(ms, m) ensures Settled(m.infrastructureRef) {
          assert old@before(RowSettled(ms, list)) && old@before(Settled(m.infrastructureRef));
        }
        assert sets[..i + 1] == sets[..i] + [sets[i]];
      }
      assert sets[..|sets|] == sets;
    }

    /** Undisturbed, after a run without error the next one makes no port update. */
    method RunTwice() returns (first: bool, between: seq<PortID>, second: bool)
      requires Inv()
      modifies `machineSets, `machines, `osms, `servers, `portsOf, `used, `unread, `world, `updates
      ensures Inv()
      ensures quiet && first ==> updates == between
      ensures quiet && first && template != [] && clusterName != "" ==> AllSettled()
    {
      first := ReconcileAllowedAddressPairs();
      between := updates;
      second := ReconcileAllowedAddressPairs();
    }

    // -------------------------------------------------------------- every run

    /** The template gets new pairs, which no machine claims to have. A run works with the template it has read. */
    method EditTemplate(template': Desired)
      requires Inv()
      requires forall name :: name in osms ==> osms[name] != Some(template')
      modifies `template
      ensures Inv() && template == template'
    {
      template := template';
    }

    /** Every run: any number of reconciles, outside changes and template edits, in any order. */
    method Run(steps: nat)
      requires Inv()
      modifies this
      ensures Inv() && old(updates) <= updates
    {
      for i := 0 to steps
        invariant Inv() && old(updates) <= updates
      {
        var reconcile: bool := *;
        if reconcile {
          var _ := ReconcileAllowedAddressPairs();
        } else {
          Interfere();
          var edited: Desired := *;
          if forall name :: name in osms ==> osms[name] != Some(edited) {
            EditTemplate(edited);
          }
        }
      }
    }
  }

  /**
   * A run that applies new pairs to k ports of a machine and fails leaves the old annotation. It
   * still tells the truth, should the template go back, exactly if those k ports got the pairs
   * they had.
   */
  lemma RevertTruthfulExactly(osms: map<string, Option<Desired>>, servers: map<string, seq<PortID>>,
                              world: map<PortID, seq<NeutronPair>>, before: Desired, after: Desired, name: string, k: nat)
    requires Disjoint(servers) && Truthful(osms, servers, world, before)
    requires name in osms && name in servers && osms[name] == Some(before) && k <= Matching(servers[name], after)
    ensures Truthful(osms, servers, Applied(world, servers[name], after, k), before)
            <==> forall i :: 0 <= i < k && i < |before| ==> ToNeutron(after[i]) == ToNeutron(before[i])
  {
    var ports := servers[name];
    var world' := Applied(world, ports, after, k);
    AppliedFacts(world, ports, after, k);
    assert PortsHave(world, ports, before);
    if PortsHave(world', ports, before) {
      forall i | 0 <= i < k && i < |before| ensures ToNeutron(after[i]) == ToNeutron(before[i]) {
        assert i < Matching(ports, before) && world'[ports[i]] == ToNeutron(before[i]);
      }
    }
    if forall i :: 0 <= i < k && i < |before| ==> ToNeutron(after[i]) == ToNeutron(before[i]) {
      forall n | n in osms && n in servers && osms[n] == Some(before) ensures PortsHave(world', servers[n], before) {
        OthersUntouched(servers, ports, name, n, k);
        assert PortsHave(world, servers[n], before);
      }
    }
  }

  lemma OthersUntouched(servers: map<string, seq<PortID>>, ports: seq<PortID>, name: string, n: string, k: nat)
    requires Disjoint(servers) && name in servers && ports == servers[name] && n in servers && k <= |ports|
    ensures forall i :: 0 <= i < |servers[n]| && (n != name || i >= k) ==> servers[n][i] !in ports[..k]
  {
    forall i | 0 <= i < |servers[n]| && (n != name || i >= k) ensures servers[n][i] !in ports[..k] {
      assert servers[n][i] in servers[n];
      assert forall p :: p in ports[..k] ==> p in ports;
    }
  }

  /** Two ports; the new pairs reach the first, the second update fails, the template goes back: the machine is now skipped. */
  lemma RevertAfterFailureIsSkipped()
    ensures var before: Desired := [[], []];
            var after: Desired := [[AddressPair("10.0.0.1", None)], []];
            var osms := map["m" := Some(before)];
            var servers: map<string, seq<PortID>> := map["m" := ["p0", "p1"]];
            var world: map<PortID, seq<NeutronPair>> := map["p0" := [], "p1" := []];
            && Truthful(osms, servers, world, before)
            && !Truthful(osms, servers, Applied(world, servers["m"], after, 1), before)
  {
    var before: Desired := [[], []];
    var after: Desired := [[AddressPair("10.0.0.1", None)], []];
    var osms := map["m" := Some(before)];
    var servers: map<string, seq<PortID>> := map["m" := ["p0", "p1"]];
    var world: map<PortID, seq<NeutronPair>> := map["p0" := [], "p1" := []];
    assert ToNeutron([]) == [];
    assert Truthful(osms, servers, world, before);
    RevertTruthfulExactly(osms, servers, world, before, after, "m", 1);
    assert |ToNeutron(after[0])| != |ToNeutron(before[0])|;
  }

  /**
   * A server that went away is created anew from the machine's own spec. The machine keeps its
   * annotation, which then tells the truth exactly if the new ports have the wanted pairs.
   */
  lemma RecreationTruthfulExactly(osms: map<string, Option<Desired>>, servers: map<string, seq<PortID>>,
                                  world: map<PortID, seq<NeutronPair>>, want: Desired, name: string, ports: seq<PortID>,
                                  world': map<PortID, seq<NeutronPair>>)
    requires Truthful(osms, servers, world, want)
    requires forall n, p :: n in servers && n != name && p in servers[n] && p in world ==> p in world' && world'[p] == world[p]
    ensures Truthful(osms, servers[name := ports], world', want)
            <==> (name in osms && osms[name] == Some(want) ==> PortsHave(world', ports, want))
  {
    forall n | n in osms && n in servers && n != name && osms[n] == Some(want) ensures PortsHave(world', servers[n], want) {
      assert PortsHave(world, servers[n], want);
      assert forall i :: 0 <= i < |servers[n]| ==> servers[n][i] in servers[n];
    }
  }

  /** The pairs of the template have reached the port of a machine; its server is made anew, with the machine's own pairs. */
  lemma RecreatedServerIsSkipped()
    ensures var want: Desired := [[AddressPair("10.0.0.1", None)]];
            var osms := map["m" := Some(want)];
            var servers: map<string, seq<PortID>> := map["m" := ["p0"]];
            var world: map<PortID, seq<NeutronPair>> := map["p0" := ToNeutron(want[0])];
            && Truthful(osms, servers, world, want)
            && !Truthful(osms, servers["m" := ["p1"]], map["p1" := []], want)
  {
    var want: Desired := [[AddressPair("10.0.0.1", None)]];
    var osms := map["m" := Some(want)];
    var servers: map<string, seq<PortID>> := map["m" := ["p0"]];
    var world: map<PortID, seq<NeutronPair>> := map["p0" := ToNeutron(want[0])];
    var world': map<PortID, seq<NeutronPair>> := map["p1" := []];
    RecreationTruthfulExactly(osms, servers, world, want, "m", ["p1"], world');
    assert ["p1"][0] in world' && |ToNeutron(want[0])| == 1;
  }
}
