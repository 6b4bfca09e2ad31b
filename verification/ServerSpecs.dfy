/**
 * Translation of a machine's spec into the spec of its OpenStackServer:
 * controllers/openstackmachine_controller.go, openStackMachineSpecToOpenStackServerSpec.
 *
 * `other` stands for the fields that are copied as they are. Ports are heap objects, because the
 * code fills in copies of them while the originals are still the baseline of a pending patch.
 */
module ServerSpecs {
  import opened Common

  type SubnetParam = string
  datatype NetworkParam = NetworkParam(id: Option<string>, filter: string)
  datatype FixedIP = FixedIP(subnet: Option<SubnetParam>, ipAddress: string)
  datatype SecurityGroupParam = SecurityGroupParam(id: Option<string>, filter: string)

  datatype PortOpts = PortOpts(
    network: Option<NetworkParam>,
    fixedIPs: seq<FixedIP>,
    securityGroups: seq<SecurityGroupParam>,
    enablePortSecurity: Option<bool>,
    other: string)

  /** The port that is used when the machine lists none. */
  const EMPTY_PORT := PortOpts(None, [], [], None, "")

  datatype MachineSpec = MachineSpec(
    flavorID: Option<string>,
    flavorName: Option<string>,
    ports: seq<PortOpts>,
    securityGroups: seq<SecurityGroupParam>,
    trunk: bool,
    other: string)

  const EMPTY_MACHINE_SPEC := MachineSpec(None, None, [], [], false, "")

  datatype ServerSpec = ServerSpec(
    flavorID: Option<string>,
    flavor: Option<string>,
    tags: seq<string>,
    availabilityZone: Option<string>,
    userDataRef: Option<string>,
    trunk: Option<bool>,
    ports: seq<PortOpts>,
    other: string)

  /** The parts of the OpenStackCluster that the translation reads. */
  datatype Cluster = Cluster(networkID: Option<string>, primarySubnet: Option<SubnetParam>, subnets: seq<SubnetParam>)

  // ---------------------------------------------------------------- what the translation means

  function ClusterSubnets(c: Cluster): seq<FixedIP> {
    if c.primarySubnet.Some? then [FixedIP(c.primarySubnet, "")]
    else seq(|c.subnets|, i requires 0 <= i < |c.subnets| => FixedIP(Some(c.subnets[i]), ""))
  }

  /** The default network goes into this port. */
  predicate Injected(p: PortOpts, c: Cluster) {
    p.network.None? && c.networkID.GetOr("") != ""
  }

  function OwnGroups(p: PortOpts, defaultGroup: Option<string>): seq<SecurityGroupParam> {
    if p.securityGroups == [] && p.enablePortSecurity.GetOr(true) && defaultGroup.Some?
    then [SecurityGroupParam(defaultGroup, "")]
    else p.securityGroups
  }

  function ServerPort(p: PortOpts, c: Cluster, defaultGroup: Option<string>, groups: seq<SecurityGroupParam>): PortOpts {
    PortOpts(
      if Injected(p, c) then Some(NetworkParam(c.networkID, "")) else p.network,
      if Injected(p, c) then ClusterSubnets(c) else p.fixedIPs,
      OwnGroups(p, defaultGroup) + groups,
      p.enablePortSecurity,
      p.other)
  }

  function ServerPorts(ports: seq<PortOpts>, c: Cluster, defaultGroup: Option<string>, groups: seq<SecurityGroupParam>): seq<PortOpts> {
    if ports == [] then [ServerPort(EMPTY_PORT, c, defaultGroup, groups)]
    else seq(|ports|, i requires 0 <= i < |ports| => ServerPort(ports[i], c, defaultGroup, groups))
  }

  function ToServerSpec(m: MachineSpec, c: Cluster, tags: seq<string>, failureDomain: string, userDataRef: Option<string>,
                        defaultGroup: Option<string>): Result<ServerSpec> {
    if c.networkID.GetOr("") == "" && m.ports == [] then Err
    else Ok(ServerSpec(m.flavorID, m.flavorName, tags, if failureDomain == "" then None else Some(failureDomain), userDataRef,
                       if m.trunk then Some(true) else None, ServerPorts(m.ports, c, defaultGroup, m.securityGroups), m.other))
  }

  /**
   * What a port of the server has to do with the one it is made of. The network of the cluster goes
   * into a port that names none, with the primary subnet alone or all subnets; the default group is
   * for ports that list no group and have port security; the machine's groups come last.
   */
  ghost predicate PortMeans(p: PortOpts, q: PortOpts, c: Cluster, defaultGroup: Option<string>, groups: seq<SecurityGroupParam>) {
    && (if p.network.None? && c.networkID.Some? && c.networkID.value != ""
        then
          && q.network == Some(NetworkParam(c.networkID, ""))
          && (c.primarySubnet.Some? ==> q.fixedIPs == [FixedIP(c.primarySubnet, "")])
          && (c.primarySubnet.None? ==>
                && |q.fixedIPs| == |c.subnets|
                && forall k :: 0 <= k < |c.subnets| ==> q.fixedIPs[k] == FixedIP(Some(c.subnets[k]), ""))
        else q.network == p.network && q.fixedIPs == p.fixedIPs)
    && (p.securityGroups != [] ==> q.securityGroups == p.securityGroups + groups)
    && (p.securityGroups == [] ==>
          if p.enablePortSecurity != Some(false) && defaultGroup.Some?
          then q.securityGroups == [SecurityGroupParam(defaultGroup, "")] + groups
          else q.securityGroups == groups)
    && q.enablePortSecurity == p.enablePortSecurity && q.other == p.other
  }

  /** What a server spec has to do with the machine and the cluster it is made of. */
  ghost predicate SpecMeans(r: ServerSpec, m: MachineSpec, c: Cluster, tags: seq<string>, failureDomain: string,
                            userDataRef: Option<string>, defaultGroup: Option<string>)
  {
    && r.flavorID == m.flavorID && r.flavor == m.flavorName && r.other == m.other
    && r.tags == tags && r.userDataRef == userDataRef
    && (failureDomain == "" ==> r.availabilityZone.None?)
    && (failureDomain != "" ==> r.availabilityZone == Some(failureDomain))
    && (m.trunk ==> r.trunk == Some(true)) && (!m.trunk ==> r.trunk.None?)
    && (m.ports == [] ==> |r.ports| == 1 && PortMeans(PortOpts(None, [], [], None, ""), r.ports[0], c, defaultGroup, m.securityGroups))
    && (m.ports != [] ==>
          && |r.ports| == |m.ports|
          && forall i :: 0 <= i < |m.ports| ==> PortMeans(m.ports[i], r.ports[i], c, defaultGroup, m.securityGroups))
  }

  lemma PortTranslates(p: PortOpts, c: Cluster, group: Option<string>, groups: seq<SecurityGroupParam>)
    ensures PortMeans(p, ServerPort(p, c, group, groups), c, group, groups)
  {
    assert [] + groups == groups;
  }

  /** Every field of the translation, for every machine and cluster. It fails exactly if there is no port to make and no network for one. */
  lemma TranslationMeans(m: MachineSpec, c: Cluster, tags: seq<string>, fd: string, ud: Option<string>, group: Option<string>)
    ensures var r := ToServerSpec(m, c, tags, fd, ud, group);
            && (r.Err? <==> m.ports == [] && (c.networkID.None? || c.networkID == Some("")))
            && (r.Ok? ==> SpecMeans(r.value, m, c, tags, fd, ud, group))
  {
    PortTranslates(EMPTY_PORT, c, group, m.securityGroups);
    forall i | 0 <= i < |m.ports|
      ensures PortMeans(m.ports[i], ServerPorts(m.ports, c, group, m.securityGroups)[i], c, group, m.securityGroups)
    {
      PortTranslates(m.ports[i], c, group, m.securityGroups);
    }
  }

  /** A translated port is left without a network exactly if neither it nor the cluster names one. */
  lemma WithoutNetworkExactly(m: MachineSpec, c: Cluster, tags: seq<string>, fd: string, ud: Option<string>, group: Option<string>)
    ensures var r := ToServerSpec(m, c, tags, fd, ud, group);
            r.Ok? ==>
              ((exists i :: 0 <= i < |r.value.ports| && r.value.ports[i].network.None?)
               <==> c.networkID.GetOr("") == "" && exists i :: 0 <= i < |m.ports| && m.ports[i].network.None?)
  {
    var r := ToServerSpec(m, c, tags, fd, ud, group);
    if r.Ok? && m.ports != [] {
      assert forall i :: 0 <= i < |m.ports| ==> r.value.ports[i] == ServerPort(m.ports[i], c, group, m.securityGroups);
    }
  }

  /** The condition of the webhooks for machines and servers: no port without port security lists groups. */
  ghost predicate Admitted(ports: seq<PortOpts>) {
    forall i :: 0 <= i < |ports| ==> !(ports[i].enablePortSecurity == Some(false) && ports[i].securityGroups != [])
  }

  /**
   * The webhook for OpenStackMachine admits a machine by its ports alone. The server made of it is
   * refused by the webhook for OpenStackServer exactly if the machine lists groups of its own and has
   * a port without port security.
   */
  lemma ServerRefusedExactly(m: MachineSpec, c: Cluster, tags: seq<string>, fd: string, ud: Option<string>, group: Option<string>)
    requires Admitted(m.ports)
    ensures var r := ToServerSpec(m, c, tags, fd, ud, group);
            r.Ok? ==>
              (!Admitted(r.value.ports)
               <==> m.securityGroups != [] && exists i :: 0 <= i < |m.ports| && m.ports[i].enablePortSecurity == Some(false))
  {
    var r := ToServerSpec(m, c, tags, fd, ud, group);
    if r.Ok? && m.ports != [] {
      assert forall i :: 0 <= i < |m.ports| ==> r.value.ports[i] == ServerPort(m.ports[i], c, group, m.securityGroups);
    }
  }

  /** A machine that is admitted, and whose server is refused. */
  lemma AdmittedMachineIsStuck()
    ensures var port := PortOpts(Some(NetworkParam(Some("net"), "")), [], [], Some(false), "");
            var m := MachineSpec(None, Some("m1.small"), [port], [SecurityGroupParam(Some("group"), "")], false, "");
            var r := ToServerSpec(m, Cluster(Some("net"), None, []), [], "", None, None);
            Admitted(m.ports) && r.Ok? && !Admitted(r.value.ports)
  {
    var port := PortOpts(Some(NetworkParam(Some("net"), "")), [], [], Some(false), "");
    var m := MachineSpec(None, Some("m1.small"), [port], [SecurityGroupParam(Some("group"), "")], false, "");
    assert m.ports[0].enablePortSecurity == Some(false);
    ServerRefusedExactly(m, Cluster(Some("net"), None, []), [], "", None, None);
  }

  /** Translating translated ports again, with the machine's groups already merged in, changes nothing. */
  lemma ServerPortsIdempotent(ports: seq<PortOpts>, c: Cluster, defaultGroup: Option<string>, groups: seq<SecurityGroupParam>)
    ensures var once := ServerPorts(ports, c, defaultGroup, groups);
            |once| == (if ports == [] then 1 else |ports|) && ServerPorts(once, c, defaultGroup, []) == once
  {
    var once := ServerPorts(ports, c, defaultGroup, groups);
    var given := if ports == [] then [EMPTY_PORT] else ports;
    assert |once| == |given| && forall i :: 0 <= i < |given| ==> once[i] == ServerPort(given[i], c, defaultGroup, groups);
    forall i | 0 <= i < |once| ensures ServerPorts(once, c, defaultGroup, [])[i] == once[i] {
      PortIdempotent(given[i], c, defaultGroup, groups);
    }
  }

  lemma PortIdempotent(p: PortOpts, c: Cluster, defaultGroup: Option<string>, groups: seq<SecurityGroupParam>)
    ensures ServerPort(ServerPort(p, c, defaultGroup, groups), c, defaultGroup, []) == ServerPort(p, c, defaultGroup, groups)
  {
    var once := ServerPort(p, c, defaultGroup, groups);
    assert once.securityGroups + [] == once.securityGroups;
  }

  // ---------------------------------------------------------------- the code

  class Port {
    var network: Option<NetworkParam>
    var fixedIPs: seq<FixedIP>
    var securityGroups: seq<SecurityGroupParam>
    var enablePortSecurity: Option<bool>
    var other: string

    constructor (p: PortOpts)
      ensures Opts() == p
    {
      network, fixedIPs, securityGroups := p.network, p.fixedIPs, p.securityGroups;
      enablePortSecurity, other := p.enablePortSecurity, p.other;
    }

    function Opts(): PortOpts
      reads this
    {
      PortOpts(network, fixedIPs, securityGroups, enablePortSecurity, other)
    }
  }

  function Opts(ports: seq<Port>): seq<PortOpts>
    reads ports
  {
    seq(|ports|, i requires 0 <= i < |ports| reads ports => ports[i].Opts())
  }

  /** The objects that the loop below fills in; `given` is what the originals hold. */
  method CopyPorts(ports: seq<Port>, ghost given: seq<PortOpts>) returns (copies: seq<Port>)
    requires given == Opts(ports)
    ensures |copies| == if given == [] then 1 else |given|
    ensures forall i :: 0 <= i < |copies| ==> fresh(copies[i])
    ensures forall i, j :: 0 <= i < j < |copies| ==> copies[i] != copies[j]
    ensures forall i :: 0 <= i < |copies| ==> copies[i].Opts() == if given == [] then EMPTY_PORT else given[i]
  {
    if |ports| == 0 {
      var p := new Port(EMPTY_PORT);
      return [p];
    }
    copies := [];
    for i := 0 to |ports|
      invariant |copies| == i
      invariant forall k :: 0 <= k < i ==> fresh(copies[k]) && copies[k].Opts() == given[k]
      invariant forall k, j :: 0 <= k < j < i ==> copies[k] != copies[j]
    {
      assert ports[i].Opts() == given[i];
      var p := new Port(ports[i].Opts());
      copies := copies + [p];
    }
  }

  method SubnetsOf(c: Cluster) returns (fixed: seq<FixedIP>)
    ensures fixed == ClusterSubnets(c)
  {
    fixed := [];
    if c.primarySubnet.Some? {
      fixed := [FixedIP(c.primarySubnet, "")];
    } else if |c.subnets| > 0 {
      for i := 0 to |c.subnets|
        invariant |fixed| == i && forall k :: 0 <= k < i ==> fixed[k] == FixedIP(Some(c.subnets[k]), "")
      {
        fixed := fixed + [FixedIP(Some(c.subnets[i]), "")];
      }
    }
  }

  /** The body of the loop over the copied ports. */
  method FillPort(port: Port, c: Cluster, subnets: seq<FixedIP>, defaultGroup: Option<string>, groups: seq<SecurityGroupParam>)
    requires subnets == ClusterSubnets(c)
    modifies port
    ensures port.Opts() == ServerPort(old(port.Opts()), c, defaultGroup, groups)
  {
    if port.network.None? && c.networkID.GetOr("") != "" {
      port.network := Some(NetworkParam(c.networkID, ""));
      port.fixedIPs := subnets;
    }
    var portSecurityEnabled := port.enablePortSecurity.None? || port.enablePortSecurity.value;
    if portSecurityEnabled && |port.securityGroups| == 0 && defaultGroup.Some? {
      port.securityGroups := [SecurityGroupParam(defaultGroup, "")];
    }
    if |groups| > 0 {
      port.securityGroups := port.securityGroups + groups;
    }
  }

  /** Fills in copies; the ports of the machine are in no modifies clause and stay as they are. */
  method TranslatePorts(ports: seq<Port>, ghost given: seq<PortOpts>, c: Cluster, defaultGroup: Option<string>,
                        groups: seq<SecurityGroupParam>) returns (out: seq<Port>)
    requires given == Opts(ports)
    ensures forall p :: p in out ==> fresh(p)
    ensures Opts(out) == ServerPorts(given, c, defaultGroup, groups)
  {
    out := CopyPorts(ports, given);
    ghost var copied := if given == [] then [EMPTY_PORT] else given;
    var subnets := SubnetsOf(c);
    for i := 0 to |out|
      invariant forall k :: 0 <= k < |out| ==> fresh(out[k])
      invariant forall k :: 0 <= k < i ==> out[k].Opts() == ServerPort(copied[k], c, defaultGroup, groups)
      invariant forall k :: i <= k < |out| ==> out[k].Opts() == copied[k]
    {
      FillPort(out[i], c, subnets, defaultGroup, groups);
    }
    assert forall k :: 0 <= k < |out| ==> Opts(out)[k] == ServerPorts(given, c, defaultGroup, groups)[k];
  }

  /**
   * openStackMachineSpecToOpenStackServerSpec: `m` holds everything but the ports, which are the
   * objects `ports`.
   */
  method Translate(m: MachineSpec, ports: seq<Port>, c: Cluster, tags: seq<string>, failureDomain: string, userDataRef: Option<string>,
                   defaultGroup: Option<string>) returns (r: Result<ServerSpec>)
    requires m.ports == Opts(ports)
    ensures r == ToServerSpec(m, c, tags, failureDomain, userDataRef, defaultGroup)
    ensures r.Ok? ==> SpecMeans(r.value, m, c, tags, failureDomain, userDataRef, defaultGroup)
  {
    TranslationMeans(m, c, tags, failureDomain, userDataRef, defaultGroup);
    if c.networkID.GetOr("") == "" && |ports| == 0 {
      return Err;
    }
    var spec := ServerSpec(m.flavorID, m.flavorName, [], None, None, None, [], m.other);
    if |tags| > 0 {
      spec := spec.(tags := tags);
    }
    if failureDomain != "" {
      spec := spec.(availabilityZone := Some(failureDomain));
    }
    if userDataRef.Some? {
      spec := spec.(userDataRef := userDataRef);
    }
    if m.trunk {
      spec := spec.(trunk := Some(true));
    }
    var out := TranslatePorts(ports, m.ports, c, defaultGroup, m.securityGroups);
    r := Ok(spec.(ports := Opts(out)));
  }
}
