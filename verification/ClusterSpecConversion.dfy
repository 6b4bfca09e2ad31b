/**
 * Conversion of OpenStackClusterSpec between v1beta1 (the spoke) and v1beta2 (the hub):
 * api/v1beta1/conversion.go and the generated converters it calls.
 *
 * Go lists are sequences, so a nil list and an empty one are the same here. `other` stands for the
 * fields that are copied or cast as they are. One of them does not have the same form in both
 * versions: the subnets of a load balancer are cast by pointer, so that their ipVersion is read as
 * int32 in v1beta2 although it is an int in v1beta1. In memory the value comes back; once the v1beta2
 * form has been stored, only its low 32 bits are left.
 */
module ClusterSpecConversion {
  import opened Common

  type int64 = x: int | -0x8000_0000_0000_0000 <= x < 0x8000_0000_0000_0000
  type int32 = x: int | -0x8000_0000 <= x < 0x8000_0000

  /** Go's conversion int32(x): the low 32 bits in two's complement. */
  function ToInt32(x: int64): int32 {
    (x + 0x8000_0000) % 0x1_0000_0000 - 0x8000_0000
  }

  predicate Fits(x: int64) {
    -0x8000_0000 <= x < 0x8000_0000
  }

  // ---------------------------------------------------------------- v1beta1

  datatype SpokeSubnet = SpokeSubnet(id: Option<string>, filterIPVersion: Option<int64>, other: string)
  datatype SpokeExternalIP = SpokeExternalIP(fixedIP: string, subnet: SpokeSubnet)
  datatype SpokeMonitor = SpokeMonitor(delay: int64, timeout: int64, maxRetries: int64, maxRetriesDown: int64)
  datatype SpokeLoadBalancer = SpokeLoadBalancer(enabled: Option<bool>, additionalPorts: seq<int64>, monitor: Option<SpokeMonitor>, other: string)
  datatype SpokeRule = SpokeRule(portRangeMin: Option<int64>, portRangeMax: Option<int64>, other: string)
  datatype SpokeSecurityGroups = SpokeSecurityGroups(allNodes: seq<SpokeRule>, controlPlane: seq<SpokeRule>, worker: seq<SpokeRule>, allowAll: bool)
  datatype SpokeFixedIP = SpokeFixedIP(subnet: Option<SpokeSubnet>, ipAddress: Option<string>)
  datatype SpokePort = SpokePort(fixedIPs: seq<SpokeFixedIP>, disablePortSecurity: Option<bool>, other: string)
  /** A root volume or an additional block device. */
  datatype SpokeVolume = SpokeVolume(sizeGiB: int64, other: string)
  datatype SpokeHint = SpokeHint(number: Option<int64>, other: string)
  datatype SpokeMachineSpec = SpokeMachineSpec(
    flavor: Option<string>,
    flavorID: Option<string>,
    ports: seq<SpokePort>,
    rootVolume: Option<SpokeVolume>,
    blockDevices: seq<SpokeVolume>,
    schedulerHints: seq<SpokeHint>,
    other: string)
  datatype SpokeBastion = SpokeBastion(enabled: Option<bool>, spec: Option<SpokeMachineSpec>, other: string)
  datatype SpokeSpec = SpokeSpec(
    subnets: seq<SpokeSubnet>,
    primarySubnet: Option<SpokeSubnet>,
    networkMTU: Option<int64>,
    disablePortSecurity: Option<bool>,
    disableExternalNetwork: Option<bool>,
    externalRouterIPs: seq<SpokeExternalIP>,
    apiServerLoadBalancer: Option<SpokeLoadBalancer>,
    disableAPIServerFloatingIP: Option<bool>,
    apiServerFloatingIP: Option<string>,
    apiServerFixedIP: Option<string>,
    apiServerPort: Option<nat>,
    managedSecurityGroups: Option<SpokeSecurityGroups>,
    bastion: Option<SpokeBastion>,
    other: string)

  // ---------------------------------------------------------------- v1beta2

  datatype HubSubnet = HubSubnet(id: Option<string>, filterIPVersion: Option<int32>, other: string)
  datatype HubExternalIP = HubExternalIP(fixedIP: string, subnet: HubSubnet)
  datatype HubMonitor = HubMonitor(delay: int32, timeout: int32, maxRetries: int32, maxRetriesDown: int32)
  datatype HubLoadBalancer = HubLoadBalancer(enabled: Option<bool>, additionalPorts: seq<int32>, monitor: Option<HubMonitor>, other: string)
  datatype HubRule = HubRule(portRangeMin: Option<int32>, portRangeMax: Option<int32>, other: string)
  datatype HubSecurityGroups = HubSecurityGroups(clusterNodes: seq<HubRule>, controlPlane: seq<HubRule>, worker: seq<HubRule>, allowAll: bool)
  datatype HubFixedIP = HubFixedIP(subnet: Option<HubSubnet>, ipAddress: Option<string>)
  datatype HubPort = HubPort(fixedIPs: seq<HubFixedIP>, enablePortSecurity: Option<bool>, other: string)
  datatype HubVolume = HubVolume(sizeGiB: int32, other: string)
  datatype HubHint = HubHint(number: Option<int32>, other: string)
  /** FlavorParam; filter is the name of the flavor filter, itself optional. */
  datatype FlavorParam = FlavorParam(id: Option<string>, filter: Option<Option<string>>)
  datatype HubMachineSpec = HubMachineSpec(
    flavor: FlavorParam,
    ports: seq<HubPort>,
    rootVolume: Option<HubVolume>,
    blockDevices: seq<HubVolume>,
    schedulerHints: seq<HubHint>,
    other: string)
  datatype HubBastion = HubBastion(enabled: Option<bool>, spec: Option<HubMachineSpec>, other: string)
  datatype ManagedNetwork = ManagedNetwork(mtu: Option<int32>, enablePortSecurity: Option<bool>)
  datatype APIServer = APIServer(
    port: Option<nat>,
    fixedIP: Option<string>,
    floatingIP: Option<string>,
    enableFloatingIP: Option<bool>,
    managedLoadBalancer: Option<HubLoadBalancer>)
  datatype HubSpec = HubSpec(
    subnets: seq<HubSubnet>,
    primarySubnet: Option<HubSubnet>,
    managedRouter: Option<seq<HubExternalIP>>,
    managedNetwork: Option<ManagedNetwork>,
    enableExternalNetwork: Option<bool>,
    apiServer: Option<APIServer>,
    managedSecurityGroups: Option<HubSecurityGroups>,
    bastion: Option<HubBastion>,
    other: string)

  // ---------------------------------------------------------------- spoke to hub

  function Map<A, B>(f: A -> B, s: seq<A>): seq<B> {
    seq(|s|, i requires 0 <= i < |s| => f(s[i]))
  }

  function MapOption<A, B>(f: A -> B, o: Option<A>): Option<B> {
    if o.None? then None else Some(f(o.value))
  }

  function Not(b: Option<bool>): Option<bool> {
    MapOption(v => !v, b)
  }

  function SubnetToHub(s: SpokeSubnet): HubSubnet {
    HubSubnet(s.id, MapOption(ToInt32, s.filterIPVersion), s.other)
  }

  function ExternalIPToHub(e: SpokeExternalIP): HubExternalIP {
    HubExternalIP(e.fixedIP, SubnetToHub(e.subnet))
  }

  function MonitorToHub(m: SpokeMonitor): HubMonitor {
    HubMonitor(ToInt32(m.delay), ToInt32(m.timeout), ToInt32(m.maxRetries), ToInt32(m.maxRetriesDown))
  }

  function LoadBalancerToHub(lb: SpokeLoadBalancer): HubLoadBalancer {
    HubLoadBalancer(lb.enabled, Map(ToInt32, lb.additionalPorts), MapOption(MonitorToHub, lb.monitor), lb.other)
  }

  function RuleToHub(r: SpokeRule): HubRule {
    HubRule(MapOption(ToInt32, r.portRangeMin), MapOption(ToInt32, r.portRangeMax), r.other)
  }

  function SecurityGroupsToHub(g: SpokeSecurityGroups): HubSecurityGroups {
    HubSecurityGroups(Map(RuleToHub, g.allNodes), Map(RuleToHub, g.controlPlane), Map(RuleToHub, g.worker), g.allowAll)
  }

  function FixedIPToHub(f: SpokeFixedIP): HubFixedIP {
    HubFixedIP(MapOption(SubnetToHub, f.subnet), f.ipAddress)
  }

  function PortToHub(p: SpokePort): HubPort {
    HubPort(Map(FixedIPToHub, p.fixedIPs), Not(p.disablePortSecurity), p.other)
  }

  function VolumeToHub(v: SpokeVolume): HubVolume {
    HubVolume(ToInt32(v.sizeGiB), v.other)
  }

  function HintToHub(h: SpokeHint): HubHint {
    HubHint(MapOption(ToInt32, h.number), h.other)
  }

  /** optional.Convert_string_To_optional_String: the empty string becomes nil. */
  function NonEmpty(s: string): Option<string> {
    if s == "" then None else Some(s)
  }

  function FlavorToHub(flavor: Option<string>, flavorID: Option<string>): FlavorParam {
    if flavorID.Some? then FlavorParam(NonEmpty(flavorID.value), None)
    else if flavor.Some? then FlavorParam(None, Some(NonEmpty(flavor.value)))
    else FlavorParam(None, None)
  }

  function MachineSpecToHub(m: SpokeMachineSpec): HubMachineSpec {
    HubMachineSpec(FlavorToHub(m.flavor, m.flavorID), Map(PortToHub, m.ports), MapOption(VolumeToHub, m.rootVolume),
                   Map(VolumeToHub, m.blockDevices), Map(HintToHub, m.schedulerHints), m.other)
  }

  function BastionToHub(b: SpokeBastion): HubBastion {
    HubBastion(b.enabled, MapOption(MachineSpecToHub, b.spec), b.other)
  }

  function ToHub(s: SpokeSpec): HubSpec {
    HubSpec(
      Map(SubnetToHub, s.subnets),
      MapOption(SubnetToHub, s.primarySubnet),
      if s.externalRouterIPs == [] then None else Some(Map(ExternalIPToHub, s.externalRouterIPs)),
      if s.networkMTU.None? && s.disablePortSecurity.None? then None
      else Some(ManagedNetwork(MapOption(ToInt32, s.networkMTU), Not(s.disablePortSecurity))),
      Not(s.disableExternalNetwork),
      if s.apiServerLoadBalancer.None? && s.disableAPIServerFloatingIP.None? && s.apiServerFloatingIP.None?
         && s.apiServerFixedIP.None? && s.apiServerPort.None? then None
      else Some(APIServer(s.apiServerPort, s.apiServerFixedIP, s.apiServerFloatingIP, Not(s.disableAPIServerFloatingIP),
                          MapOption(LoadBalancerToHub, s.apiServerLoadBalancer))),
      MapOption(SecurityGroupsToHub, s.managedSecurityGroups),
      MapOption(BastionToHub, s.bastion),
      s.other)
  }

  // ---------------------------------------------------------------- hub to spoke

  function SubnetToSpoke(s: HubSubnet): SpokeSubnet {
    SpokeSubnet(s.id, MapOption((v: int32) => v as int64, s.filterIPVersion), s.other)
  }

  function ExternalIPToSpoke(e: HubExternalIP): SpokeExternalIP {
    SpokeExternalIP(e.fixedIP, SubnetToSpoke(e.subnet))
  }

  function MonitorToSpoke(m: HubMonitor): SpokeMonitor {
    SpokeMonitor(m.delay, m.timeout, m.maxRetries, m.maxRetriesDown)
  }

  function LoadBalancerToSpoke(lb: HubLoadBalancer): SpokeLoadBalancer {
    SpokeLoadBalancer(lb.enabled, Map((v: int32) => v as int64, lb.additionalPorts), MapOption(MonitorToSpoke, lb.monitor), lb.other)
  }

  function RuleToSpoke(r: HubRule): SpokeRule {
    SpokeRule(MapOption((v: int32) => v as int64, r.portRangeMin), MapOption((v: int32) => v as int64, r.portRangeMax), r.other)
  }

  function SecurityGroupsToSpoke(g: HubSecurityGroups): SpokeSecurityGroups {
    SpokeSecurityGroups(Map(RuleToSpoke, g.clusterNodes), Map(RuleToSpoke, g.controlPlane), Map(RuleToSpoke, g.worker), g.allowAll)
  }

  function FixedIPToSpoke(f: HubFixedIP): SpokeFixedIP {
    SpokeFixedIP(MapOption(SubnetToSpoke, f.subnet), f.ipAddress)
  }

  function PortToSpoke(p: HubPort): SpokePort {
    SpokePort(Map(FixedIPToSpoke, p.fixedIPs), Not(p.enablePortSecurity), p.other)
  }

  function VolumeToSpoke(v: HubVolume): SpokeVolume {
    SpokeVolume(v.sizeGiB, v.other)
  }

  function HintToSpoke(h: HubHint): SpokeHint {
    SpokeHint(MapOption((v: int32) => v as int64, h.number), h.other)
  }

  /** What a flavor becomes: a name, an ID, or nothing. */
  function FlavorToSpoke(f: FlavorParam): (Option<string>, Option<string>) {
    if f.id.GetOr("") != "" then (None, f.id)
    else if f.filter.GetOr(None).GetOr("") != "" then (f.filter.value, None)
    else (None, None)
  }

  function MachineSpecToSpoke(m: HubMachineSpec): SpokeMachineSpec {
    SpokeMachineSpec(FlavorToSpoke(m.flavor).0, FlavorToSpoke(m.flavor).1, Map(PortToSpoke, m.ports), MapOption(VolumeToSpoke, m.rootVolume),
                     Map(VolumeToSpoke, m.blockDevices), Map(HintToSpoke, m.schedulerHints), m.other)
  }

  function BastionToSpoke(b: HubBastion): SpokeBastion {
    SpokeBastion(b.enabled, MapOption(MachineSpecToSpoke, b.spec), b.other)
  }

  function ToSpoke(h: HubSpec): SpokeSpec {
    var network := h.managedNetwork.GetOr(ManagedNetwork(None, None));
    var api := h.apiServer.GetOr(APIServer(None, None, None, None, None));
    SpokeSpec(
      Map(SubnetToSpoke, h.subnets),
      MapOption(SubnetToSpoke, h.primarySubnet),
      MapOption((v: int32) => v as int64, network.mtu),
      Not(network.enablePortSecurity),
      Not(h.enableExternalNetwork),
      Map(ExternalIPToSpoke, h.managedRouter.GetOr([])),
      MapOption(LoadBalancerToSpoke, api.managedLoadBalancer),
      Not(api.enableFloatingIP),
      api.floatingIP,
      api.fixedIP,
      api.port,
      MapOption(SecurityGroupsToSpoke, h.managedSecurityGroups),
      MapOption(BastionToSpoke, h.bastion),
      h.other)
  }

  // ---------------------------------------------------------------- round trips

  predicate SubnetFits(s: SpokeSubnet) {
    s.filterIPVersion.Some? ==> Fits(s.filterIPVersion.value)
  }

  predicate RuleFits(r: SpokeRule) {
    && (r.portRangeMin.Some? ==> Fits(r.portRangeMin.value))
    && (r.portRangeMax.Some? ==> Fits(r.portRangeMax.value))
  }

  predicate MonitorFits(m: SpokeMonitor) {
    Fits(m.delay) && Fits(m.timeout) && Fits(m.maxRetries) && Fits(m.maxRetriesDown)
  }

  predicate LoadBalancerFits(lb: SpokeLoadBalancer) {
    && (forall i :: 0 <= i < |lb.additionalPorts| ==> Fits(lb.additionalPorts[i]))
    && (lb.monitor.Some? ==> MonitorFits(lb.monitor.value))
  }

  predicate SecurityGroupsFit(g: SpokeSecurityGroups) {
    && (forall i :: 0 <= i < |g.allNodes| ==> RuleFits(g.allNodes[i]))
    && (forall i :: 0 <= i < |g.controlPlane| ==> RuleFits(g.controlPlane[i]))
    && (forall i :: 0 <= i < |g.worker| ==> RuleFits(g.worker[i]))
  }

  predicate FixedIPFits(f: SpokeFixedIP) {
    f.subnet.Some? ==> SubnetFits(f.subnet.value)
  }

  predicate PortFits(p: SpokePort) {
    forall i :: 0 <= i < |p.fixedIPs| ==> FixedIPFits(p.fixedIPs[i])
  }

  predicate VolumeFits(v: SpokeVolume) {
    Fits(v.sizeGiB)
  }

  predicate HintFits(h: SpokeHint) {
    h.number.Some? ==> Fits(h.number.value)
  }

  predicate MachineSpecFits(m: SpokeMachineSpec) {
    && (forall i :: 0 <= i < |m.ports| ==> PortFits(m.ports[i]))
    && (m.rootVolume.Some? ==> VolumeFits(m.rootVolume.value))
    && (forall i :: 0 <= i < |m.blockDevices| ==> VolumeFits(m.blockDevices[i]))
    && (forall i :: 0 <= i < |m.schedulerHints| ==> HintFits(m.schedulerHints[i]))
  }

  predicate BastionFits(b: SpokeBastion) {
    b.spec.Some? ==> MachineSpecFits(b.spec.value)
  }

  /** Every integer of the spec is in the range of int32. */
  predicate SpecFits(s: SpokeSpec) {
    && (forall i :: 0 <= i < |s.subnets| ==> SubnetFits(s.subnets[i]))
    && (s.primarySubnet.Some? ==> SubnetFits(s.primarySubnet.value))
    && (s.networkMTU.Some? ==> Fits(s.networkMTU.value))
    && (forall i :: 0 <= i < |s.externalRouterIPs| ==> SubnetFits(s.externalRouterIPs[i].subnet))
    && (s.apiServerLoadBalancer.Some? ==> LoadBalancerFits(s.apiServerLoadBalancer.value))
    && (s.managedSecurityGroups.Some? ==> SecurityGroupsFit(s.managedSecurityGroups.value))
    && (s.bastion.Some? ==> BastionFits(s.bastion.value))
  }

  /** The bastion names its flavor in at most one way, and not by the empty string. */
  predicate FlavorUnambiguous(m: SpokeMachineSpec) {
    && !(m.flavor.Some? && m.flavorID.Some?)
    && m.flavor != Some("") && m.flavorID != Some("")
  }

  predicate BastionFlavorUnambiguous(s: SpokeSpec) {
    s.bastion.Some? && s.bastion.value.spec.Some? ==> FlavorUnambiguous(s.bastion.value.spec.value)
  }

  /** If each element comes back exactly when P holds of it, the list comes back exactly when P holds throughout. */
  lemma MapRoundTrip<A, B>(f: A -> B, g: B -> A, s: seq<A>, P: A -> bool)
    requires forall i :: 0 <= i < |s| ==> (g(f(s[i])) == s[i] <==> P(s[i]))
    ensures Map(g, Map(f, s)) == s <==> forall i :: 0 <= i < |s| ==> P(s[i])
  {
    var t := Map(g, Map(f, s));
    assert forall i :: 0 <= i < |s| ==> t[i] == g(f(s[i]));
    if t == s {
      forall i | 0 <= i < |s| ensures P(s[i]) {
        assert t[i] == s[i];
      }
    }
  }

  lemma SubnetRoundTrip(s: SpokeSubnet)
    ensures SubnetToSpoke(SubnetToHub(s)) == s <==> SubnetFits(s)
  {
  }

  lemma RulesRoundTrip(s: seq<SpokeRule>)
    ensures Map(RuleToSpoke, Map(RuleToHub, s)) == s <==> forall i :: 0 <= i < |s| ==> RuleFits(s[i])
  {
    MapRoundTrip(RuleToHub, RuleToSpoke, s, RuleFits);
  }

  lemma LoadBalancerRoundTrip(lb: SpokeLoadBalancer)
    ensures LoadBalancerToSpoke(LoadBalancerToHub(lb)) == lb <==> LoadBalancerFits(lb)
  {
    MapRoundTrip(ToInt32, (v: int32) => v as int64, lb.additionalPorts, Fits);
  }

  lemma SecurityGroupsRoundTrip(g: SpokeSecurityGroups)
    ensures SecurityGroupsToSpoke(SecurityGroupsToHub(g)) == g <==> SecurityGroupsFit(g)
  {
    RulesRoundTrip(g.allNodes);
    RulesRoundTrip(g.controlPlane);
    RulesRoundTrip(g.worker);
  }

  lemma FixedIPRoundTrip(f: SpokeFixedIP)
    ensures FixedIPToSpoke(FixedIPToHub(f)) == f <==> FixedIPFits(f)
  {
    if f.subnet.Some? {
      SubnetRoundTrip(f.subnet.value);
    }
  }

  lemma PortRoundTrip(p: SpokePort)
    ensures PortToSpoke(PortToHub(p)) == p <==> PortFits(p)
  {
    forall i | 0 <= i < |p.fixedIPs| ensures FixedIPToSpoke(FixedIPToHub(p.fixedIPs[i])) == p.fixedIPs[i] <==> FixedIPFits(p.fixedIPs[i]) {
      FixedIPRoundTrip(p.fixedIPs[i]);
    }
    MapRoundTrip(FixedIPToHub, FixedIPToSpoke, p.fixedIPs, FixedIPFits);
  }

  lemma PortsRoundTrip(ports: seq<SpokePort>)
    ensures Map(PortToSpoke, Map(PortToHub, ports)) == ports <==> forall i :: 0 <= i < |ports| ==> PortFits(ports[i])
  {
    forall i | 0 <= i < |ports| ensures PortToSpoke(PortToHub(ports[i])) == ports[i] <==> PortFits(ports[i]) {
      PortRoundTrip(ports[i]);
    }
    MapRoundTrip(PortToHub, PortToSpoke, ports, PortFits);
  }

  lemma VolumesRoundTrip(volumes: seq<SpokeVolume>)
    ensures Map(VolumeToSpoke, Map(VolumeToHub, volumes)) == volumes <==> forall i :: 0 <= i < |volumes| ==> VolumeFits(volumes[i])
  {
    MapRoundTrip(VolumeToHub, VolumeToSpoke, volumes, VolumeFits);
  }

  lemma HintsRoundTrip(hints: seq<SpokeHint>)
    ensures Map(HintToSpoke, Map(HintToHub, hints)) == hints <==> forall i :: 0 <= i < |hints| ==> HintFits(hints[i])
  {
    MapRoundTrip(HintToHub, HintToSpoke, hints, HintFits);
  }

  lemma FlavorRoundTrip(m: SpokeMachineSpec)
    ensures FlavorToSpoke(FlavorToHub(m.flavor, m.flavorID)) == (m.flavor, m.flavorID) <==> FlavorUnambiguous(m)
  {
  }

  lemma MachineSpecRoundTrip(m: SpokeMachineSpec)
    ensures MachineSpecToSpoke(MachineSpecToHub(m)) == m <==> FlavorUnambiguous(m) && MachineSpecFits(m)
  {
    FlavorRoundTrip(m);
    PortsRoundTrip(m.ports);
    VolumesRoundTrip(m.blockDevices);
    HintsRoundTrip(m.schedulerHints);
    var t := MachineSpecToSpoke(MachineSpecToHub(m));
    assert t.rootVolume == m.rootVolume <==> (m.rootVolume.Some? ==> VolumeFits(m.rootVolume.value));
  }

  lemma BastionRoundTrip(b: SpokeBastion)
    ensures BastionToSpoke(BastionToHub(b)) == b <==> BastionFits(b) && (b.spec.Some? ==> FlavorUnambiguous(b.spec.value))
  {
    if b.spec.Some? {
      MachineSpecRoundTrip(b.spec.value);
    }
  }

  lemma ExternalIPsRoundTrip(s: seq<SpokeExternalIP>)
    ensures Map(ExternalIPToSpoke, Map(ExternalIPToHub, s)) == s <==> forall i :: 0 <= i < |s| ==> SubnetFits(s[i].subnet)
  {
    MapRoundTrip(ExternalIPToHub, ExternalIPToSpoke, s, (e: SpokeExternalIP) => SubnetFits(e.subnet));
  }

  lemma SubnetsRoundTrip(s: SpokeSpec)
    ensures var t := ToSpoke(ToHub(s));
            && (t.subnets == s.subnets <==> forall i :: 0 <= i < |s.subnets| ==> SubnetFits(s.subnets[i]))
            && (t.primarySubnet == s.primarySubnet <==> (s.primarySubnet.Some? ==> SubnetFits(s.primarySubnet.value)))
            && (t.externalRouterIPs == s.externalRouterIPs <==>
                  forall i :: 0 <= i < |s.externalRouterIPs| ==> SubnetFits(s.externalRouterIPs[i].subnet))
  {
    MapRoundTrip(SubnetToHub, SubnetToSpoke, s.subnets, SubnetFits);
    ExternalIPsRoundTrip(s.externalRouterIPs);
  }

  lemma NetworkRoundTrip(s: SpokeSpec)
    ensures var t := ToSpoke(ToHub(s));
            && (t.networkMTU == s.networkMTU <==> (s.networkMTU.Some? ==> Fits(s.networkMTU.value)))
            && t.disablePortSecurity == s.disablePortSecurity
            && t.disableExternalNetwork == s.disableExternalNetwork
            && t.other == s.other
  {
  }

  lemma APIServerRoundTrip(s: SpokeSpec)
    ensures var t := ToSpoke(ToHub(s));
            && (t.apiServerLoadBalancer == s.apiServerLoadBalancer <==>
                  (s.apiServerLoadBalancer.Some? ==> LoadBalancerFits(s.apiServerLoadBalancer.value)))
            && t.disableAPIServerFloatingIP == s.disableAPIServerFloatingIP
            && t.apiServerFloatingIP == s.apiServerFloatingIP
            && t.apiServerFixedIP == s.apiServerFixedIP
            && t.apiServerPort == s.apiServerPort
  {
    if s.apiServerLoadBalancer.Some? {
      LoadBalancerRoundTrip(s.apiServerLoadBalancer.value);
    }
  }

  lemma GroupsAndBastionRoundTrip(s: SpokeSpec)
    ensures var t := ToSpoke(ToHub(s));
            && (t.managedSecurityGroups == s.managedSecurityGroups <==>
                  (s.managedSecurityGroups.Some? ==> SecurityGroupsFit(s.managedSecurityGroups.value)))
            && (t.bastion == s.bastion <==> BastionFlavorUnambiguous(s) && (s.bastion.Some? ==> BastionFits(s.bastion.value)))
  {
    if s.managedSecurityGroups.Some? {
      SecurityGroupsRoundTrip(s.managedSecurityGroups.value);
    }
    if s.bastion.Some? {
      BastionRoundTrip(s.bastion.value);
    }
  }

  /**
   * v1beta1 to v1beta2 and back is the identity exactly for the specs whose integers fit int32 and
   * whose bastion names its flavor unambiguously.
   */
  lemma SpokeRoundTripExactly(s: SpokeSpec)
    ensures ToSpoke(ToHub(s)) == s <==> SpecFits(s) && BastionFlavorUnambiguous(s)
  {
    SubnetsRoundTrip(s);
    NetworkRoundTrip(s);
    APIServerRoundTrip(s);
    GroupsAndBastionRoundTrip(s);
  }

  const EMPTY_SPOKE_SPEC := SpokeSpec([], None, None, None, None, [], None, None, None, None, None, None, None, "")

  function WithBastion(m: SpokeMachineSpec): SpokeSpec {
    EMPTY_SPOKE_SPEC.(bastion := Some(SpokeBastion(Some(true), Some(m), "")))
  }

  /** A bastion that names its flavor and also gives its ID comes back without the name. */
  lemma FlavorNameIsLost()
    ensures var s := WithBastion(SpokeMachineSpec(Some("m1.small"), Some("42"), [], None, [], [], ""));
            SpecFits(s) && ToSpoke(ToHub(s)) == WithBastion(SpokeMachineSpec(None, Some("42"), [], None, [], [], ""))
  {
    var m := SpokeMachineSpec(Some("m1.small"), Some("42"), [], None, [], [], "");
    assert MachineSpecToSpoke(MachineSpecToHub(m)) == m.(flavor := None);
  }

  /** A root volume of 2^32 GiB comes back as one of none. */
  lemma VolumeSizeIsLost()
    ensures var s := WithBastion(SpokeMachineSpec(Some("m1.small"), None, [], Some(SpokeVolume(0x1_0000_0000, "")), [], [], ""));
            && BastionFlavorUnambiguous(s)
            && ToSpoke(ToHub(s)) == WithBastion(SpokeMachineSpec(Some("m1.small"), None, [], Some(SpokeVolume(0, "")), [], [], ""))
  {
    var m := SpokeMachineSpec(Some("m1.small"), None, [], Some(SpokeVolume(0x1_0000_0000, "")), [], [], "");
    assert MachineSpecToSpoke(MachineSpecToHub(m)) == m.(rootVolume := Some(SpokeVolume(0, "")));
  }

  // The nil-safe getters of v1beta2 (api/v1beta2/openstackcluster_types.go)

  function GetManagedLoadBalancer(h: HubSpec): Option<HubLoadBalancer> {
    if h.apiServer.None? then None else h.apiServer.value.managedLoadBalancer
  }

  function GetEnableFloatingIP(h: HubSpec): Option<bool> {
    if h.apiServer.None? then None else h.apiServer.value.enableFloatingIP
  }

  function GetFloatingIP(h: HubSpec): Option<string> {
    if h.apiServer.None? then None else h.apiServer.value.floatingIP
  }

  function GetFixedIP(h: HubSpec): Option<string> {
    if h.apiServer.None? then None else h.apiServer.value.fixedIP
  }

  function GetPort(h: HubSpec): Option<nat> {
    if h.apiServer.None? then None else h.apiServer.value.port
  }

  /** What the controllers read of the regrouped fields and of the inverted booleans. */
  ghost predicate SameMeaning(h: HubSpec, h': HubSpec) {
    && GetManagedLoadBalancer(h') == GetManagedLoadBalancer(h)
    && GetEnableFloatingIP(h') == GetEnableFloatingIP(h)
    && GetFloatingIP(h') == GetFloatingIP(h)
    && GetFixedIP(h') == GetFixedIP(h)
    && GetPort(h') == GetPort(h)
    && h'.enableExternalNetwork == h.enableExternalNetwork
    && h'.managedNetwork.GetOr(ManagedNetwork(None, None)) == h.managedNetwork.GetOr(ManagedNetwork(None, None))
    && h'.managedRouter.GetOr([]) == h.managedRouter.GetOr([])
    && h'.subnets == h.subnets && h'.primarySubnet == h.primarySubnet
    && h'.managedSecurityGroups == h.managedSecurityGroups
    && h'.bastion.Some? == h.bastion.Some?
    && (h.bastion.Some? ==>
          && h'.bastion.value.enabled == h.bastion.value.enabled
          && h'.bastion.value.spec.Some? == h.bastion.value.spec.Some?
          && (h.bastion.value.spec.Some? ==>
                h'.bastion.value.spec.value.(flavor := h.bastion.value.spec.value.flavor) == h.bastion.value.spec.value))
    && h'.other == h.other
  }

  /** FlavorParam as ConvertTo writes it: one non-empty name, or none. */
  predicate FlavorCanonical(f: FlavorParam) {
    || (f.id.Some? && f.id.value != "" && f.filter.None?)
    || (f.id.None? && f.filter.Some? && f.filter.value.Some? && f.filter.value.value != "")
    || (f.id.None? && f.filter.None?)
  }

  /** No group of fields is present but empty, and the bastion's flavor is canonical. */
  predicate Canonical(h: HubSpec) {
    && h.managedRouter != Some([])
    && h.managedNetwork != Some(ManagedNetwork(None, None))
    && h.apiServer != Some(APIServer(None, None, None, None, None))
    && (h.bastion.Some? && h.bastion.value.spec.Some? ==> FlavorCanonical(h.bastion.value.spec.value.flavor))
  }

  lemma HubLoadBalancerRoundTrip(lb: HubLoadBalancer)
    ensures LoadBalancerToHub(LoadBalancerToSpoke(lb)) == lb
  {
    MapRoundTrip((v: int32) => v as int64, ToInt32, lb.additionalPorts, p => true);
  }

  lemma HubRulesRoundTrip(s: seq<HubRule>)
    ensures Map(RuleToHub, Map(RuleToSpoke, s)) == s
  {
    MapRoundTrip(RuleToSpoke, RuleToHub, s, r => true);
  }

  lemma HubPortRoundTrip(p: HubPort)
    ensures PortToHub(PortToSpoke(p)) == p
  {
    MapRoundTrip(FixedIPToSpoke, FixedIPToHub, p.fixedIPs, f => true);
  }

  lemma HubMachineListsRoundTrip(m: HubMachineSpec)
    ensures MachineSpecToHub(MachineSpecToSpoke(m)).(flavor := m.flavor) == m
  {
    forall i | 0 <= i < |m.ports| ensures PortToHub(PortToSpoke(m.ports[i])) == m.ports[i] {
      HubPortRoundTrip(m.ports[i]);
    }
    MapRoundTrip(PortToSpoke, PortToHub, m.ports, p => true);
    MapRoundTrip(VolumeToSpoke, VolumeToHub, m.blockDevices, v => true);
    MapRoundTrip(HintToSpoke, HintToHub, m.schedulerHints, h => true);
  }

  lemma HubBastionRoundTrip(b: HubBastion)
    ensures var b' := BastionToHub(BastionToSpoke(b));
            && b'.enabled == b.enabled && b'.other == b.other && b'.spec.Some? == b.spec.Some?
            && (b.spec.Some? ==> b'.spec.value.(flavor := b.spec.value.flavor) == b.spec.value)
            && (b.spec.Some? ==> (b'.spec.value.flavor == b.spec.value.flavor <==> FlavorCanonical(b.spec.value.flavor)))
  {
    if b.spec.Some? {
      HubMachineListsRoundTrip(b.spec.value);
    }
  }

  lemma HubListsRoundTrip(h: HubSpec)
    ensures var h' := ToHub(ToSpoke(h));
            && h'.subnets == h.subnets && h'.primarySubnet == h.primarySubnet
            && h'.managedRouter.GetOr([]) == h.managedRouter.GetOr([])
            && (h'.managedRouter == h.managedRouter <==> h.managedRouter != Some([]))
            && h'.managedSecurityGroups == h.managedSecurityGroups
  {
    MapRoundTrip(SubnetToSpoke, SubnetToHub, h.subnets, s => true);
    MapRoundTrip(ExternalIPToSpoke, ExternalIPToHub, h.managedRouter.GetOr([]), e => true);
    if h.managedSecurityGroups.Some? {
      HubRulesRoundTrip(h.managedSecurityGroups.value.clusterNodes);
      HubRulesRoundTrip(h.managedSecurityGroups.value.controlPlane);
      HubRulesRoundTrip(h.managedSecurityGroups.value.worker);
    }
  }

  lemma HubGroupsRoundTrip(h: HubSpec)
    ensures var h' := ToHub(ToSpoke(h));
            && GetManagedLoadBalancer(h') == GetManagedLoadBalancer(h)
            && GetEnableFloatingIP(h') == GetEnableFloatingIP(h)
            && GetFloatingIP(h') == GetFloatingIP(h)
            && GetFixedIP(h') == GetFixedIP(h)
            && GetPort(h') == GetPort(h)
            && (h'.apiServer == h.apiServer <==> h.apiServer != Some(APIServer(None, None, None, None, None)))
            && h'.enableExternalNetwork == h.enableExternalNetwork
            && h'.managedNetwork.GetOr(ManagedNetwork(None, None)) == h.managedNetwork.GetOr(ManagedNetwork(None, None))
            && (h'.managedNetwork == h.managedNetwork <==> h.managedNetwork != Some(ManagedNetwork(None, None)))
  {
    if GetManagedLoadBalancer(h).Some? {
      HubLoadBalancerRoundTrip(GetManagedLoadBalancer(h).value);
    }
  }

  /**
   * v1beta2 to v1beta1 and back keeps every getter and the meaning of every inverted boolean, and
   * is the identity exactly on the canonical specs.
   */
  lemma HubRoundTrip(h: HubSpec)
    ensures SameMeaning(h, ToHub(ToSpoke(h)))
    ensures ToHub(ToSpoke(h)) == h <==> Canonical(h)
  {
    HubListsRoundTrip(h);
    HubGroupsRoundTrip(h);
    if h.bastion.Some? {
      HubBastionRoundTrip(h.bastion.value);
    }
  }
}
