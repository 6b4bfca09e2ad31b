/**
 * Conversion of OpenStackClusterTemplate between v1beta1 (spoke) and v1beta2 (hub):
 * api/v1beta1/conversion.go, ConvertTo and ConvertFrom.
 *
 * Fields that only one version has survive in the conversion-data annotation. The generated
 * converter copies ObjectMeta by value, so source and destination share one annotation map; it is
 * a heap object here.
 */
module ClusterTemplateConversion {
  import opened Common
  import opened ClusterSpecConversion
  import opened ClusterSpecMeaning

  // ---------------------------------------------------------------- the stash

  /** utilconversion.DataAnnotation. */
  const DATA_ANNOTATION := "cluster.x-k8s.io/conversion-data"

  /** spec.template.metadata, which only the hub has. */
  type TemplateMeta = string

  const NO_META: TemplateMeta := ""

  /**
   * The value of an annotation: free text, or the JSON form of a template of either version without
   * its own metadata, hence without annotations.
   */
  datatype Value = Text(text: string) | SpokeStash(spoke: SpokeSpec) | HubStash(meta: TemplateMeta, hub: HubSpec)

  class Annotations {
    var data: map<string, Value>

    constructor (data: map<string, Value>)
      ensures this.data == data
    {
      this.data := data;
    }
  }

  class SpokeTemplate {
    var annotations: Annotations?
    var spec: SpokeSpec

    constructor (annotations: Annotations?, spec: SpokeSpec)
      ensures this.annotations == annotations && this.spec == spec
    {
      this.annotations, this.spec := annotations, spec;
    }
  }

  class HubTemplate {
    var annotations: Annotations?
    var meta: TemplateMeta
    var spec: HubSpec

    constructor (annotations: Annotations?, meta: TemplateMeta, spec: HubSpec)
      ensures this.annotations == annotations && this.meta == meta && this.spec == spec
    {
      this.annotations, this.meta, this.spec := annotations, meta, spec;
    }
  }

  /** GetAnnotations of an object, reading a nil map as an empty one. */
  ghost function Read(a: Annotations?): map<string, Value>
    reads a
  {
    if a == null then map[] else a.data
  }

  ghost function Stash(a: map<string, Value>): Option<Value> {
    if DATA_ANNOTATION in a then Some(a[DATA_ANNOTATION]) else None
  }

  // ---------------------------------------------------------------- reading JSON over an existing value

  // A field that the JSON text leaves out keeps the value it had; nil pointers, empty lists, empty
  // strings and zeros are left out. Lists are read element by element over the old elements.

  function OverlayScalar<T>(stash: Option<T>, base: Option<T>): Option<T> {
    if stash.None? then base else stash
  }

  function OverlayText(stash: string, base: string): string {
    if stash == "" then base else stash
  }

  function OverlayInt(stash: int64, base: int64): int64 {
    if stash == 0 then base else stash
  }

  function OverlayStruct<T>(over: (T, T) -> T, stash: Option<T>, base: Option<T>): Option<T> {
    if stash.None? then base
    else if base.None? then stash
    else Some(over(stash.value, base.value))
  }

  function OverlayList<T>(over: (T, T) -> T, stash: seq<T>, base: seq<T>): seq<T> {
    if stash == [] then base
    else seq(|stash|, i requires 0 <= i < |stash| => if i < |base| then over(stash[i], base[i]) else stash[i])
  }

  function OverlaySubnet(stash: SpokeSubnet, base: SpokeSubnet): SpokeSubnet {
    SpokeSubnet(OverlayScalar(stash.id, base.id), OverlayStruct(OverlayInt, stash.filterIPVersion, base.filterIPVersion),
                OverlayText(stash.other, base.other))
  }

  function OverlayExternalIP(stash: SpokeExternalIP, base: SpokeExternalIP): SpokeExternalIP {
    SpokeExternalIP(OverlayText(stash.fixedIP, base.fixedIP), OverlaySubnet(stash.subnet, base.subnet))
  }

  function OverlayMonitor(stash: SpokeMonitor, base: SpokeMonitor): SpokeMonitor {
    SpokeMonitor(OverlayInt(stash.delay, base.delay), OverlayInt(stash.timeout, base.timeout),
                 OverlayInt(stash.maxRetries, base.maxRetries), OverlayInt(stash.maxRetriesDown, base.maxRetriesDown))
  }

  /** The field enabled is written even when it is nil. */
  function OverlayLoadBalancer(stash: SpokeLoadBalancer, base: SpokeLoadBalancer): SpokeLoadBalancer {
    SpokeLoadBalancer(stash.enabled, OverlayList((s: int64, b: int64) => s, stash.additionalPorts, base.additionalPorts),
                      OverlayStruct(OverlayMonitor, stash.monitor, base.monitor), OverlayText(stash.other, base.other))
  }

  function OverlayRule(stash: SpokeRule, base: SpokeRule): SpokeRule {
    SpokeRule(OverlayScalar(stash.portRangeMin, base.portRangeMin), OverlayScalar(stash.portRangeMax, base.portRangeMax),
              OverlayText(stash.other, base.other))
  }

  /** The field allowAllInClusterTraffic is always written. */
  function OverlaySecurityGroups(stash: SpokeSecurityGroups, base: SpokeSecurityGroups): SpokeSecurityGroups {
    SpokeSecurityGroups(OverlayList(OverlayRule, stash.allNodes, base.allNodes),
                        OverlayList(OverlayRule, stash.controlPlane, base.controlPlane),
                        OverlayList(OverlayRule, stash.worker, base.worker), stash.allowAll)
  }

  function OverlayFixedIP(stash: SpokeFixedIP, base: SpokeFixedIP): SpokeFixedIP {
    SpokeFixedIP(OverlayStruct(OverlaySubnet, stash.subnet, base.subnet), OverlayScalar(stash.ipAddress, base.ipAddress))
  }

  function OverlayPort(stash: SpokePort, base: SpokePort): SpokePort {
    SpokePort(OverlayList(OverlayFixedIP, stash.fixedIPs, base.fixedIPs), OverlayScalar(stash.disablePortSecurity, base.disablePortSecurity),
              OverlayText(stash.other, base.other))
  }

  /** The field sizeGiB is always written. */
  function OverlayVolume(stash: SpokeVolume, base: SpokeVolume): SpokeVolume {
    SpokeVolume(stash.sizeGiB, OverlayText(stash.other, base.other))
  }

  function OverlayHint(stash: SpokeHint, base: SpokeHint): SpokeHint {
    SpokeHint(OverlayScalar(stash.number, base.number), OverlayText(stash.other, base.other))
  }

  function OverlayMachineSpec(stash: SpokeMachineSpec, base: SpokeMachineSpec): SpokeMachineSpec {
    SpokeMachineSpec(OverlayScalar(stash.flavor, base.flavor), OverlayScalar(stash.flavorID, base.flavorID),
                     OverlayList(OverlayPort, stash.ports, base.ports), OverlayStruct(OverlayVolume, stash.rootVolume, base.rootVolume),
                     OverlayList(OverlayVolume, stash.blockDevices, base.blockDevices),
                     OverlayList(OverlayHint, stash.schedulerHints, base.schedulerHints), OverlayText(stash.other, base.other))
  }

  function OverlayBastion(stash: SpokeBastion, base: SpokeBastion): SpokeBastion {
    SpokeBastion(OverlayScalar(stash.enabled, base.enabled), OverlayStruct(OverlayMachineSpec, stash.spec, base.spec),
                 OverlayText(stash.other, base.other))
  }

  function Overlay(stash: SpokeSpec, base: SpokeSpec): SpokeSpec {
    SpokeSpec(
      OverlayList(OverlaySubnet, stash.subnets, base.subnets),
      OverlayStruct(OverlaySubnet, stash.primarySubnet, base.primarySubnet),
      OverlayScalar(stash.networkMTU, base.networkMTU),
      OverlayScalar(stash.disablePortSecurity, base.disablePortSecurity),
      OverlayScalar(stash.disableExternalNetwork, base.disableExternalNetwork),
      OverlayList(OverlayExternalIP, stash.externalRouterIPs, base.externalRouterIPs),
      OverlayStruct(OverlayLoadBalancer, stash.apiServerLoadBalancer, base.apiServerLoadBalancer),
      OverlayScalar(stash.disableAPIServerFloatingIP, base.disableAPIServerFloatingIP),
      OverlayScalar(stash.apiServerFloatingIP, base.apiServerFloatingIP),
      OverlayScalar(stash.apiServerFixedIP, base.apiServerFixedIP),
      OverlayScalar(stash.apiServerPort, base.apiServerPort),
      OverlayStruct(OverlaySecurityGroups, stash.managedSecurityGroups, base.managedSecurityGroups),
      OverlayStruct(OverlayBastion, stash.bastion, base.bastion),
      OverlayText(stash.other, base.other))
  }

  // ---------------------------------------------------------------- reading the stash back restores it

  lemma OverlayListRestores<T>(over: (T, T) -> T, s: seq<T>, t: seq<T>)
    requires |t| == |s|
    requires forall i :: 0 <= i < |s| ==> over(s[i], t[i]) == s[i]
    ensures OverlayList(over, s, t) == s
  {
    if s == [] {
      assert t == s;
    }
  }

  lemma SubnetRestores(s: SpokeSubnet)
    ensures OverlaySubnet(s, SubnetToSpoke(SubnetToHub(s))) == s
  {
  }

  lemma LoadBalancerRestores(lb: SpokeLoadBalancer)
    ensures OverlayLoadBalancer(lb, LoadBalancerToSpoke(LoadBalancerToHub(lb))) == lb
  {
    var t := LoadBalancerToSpoke(LoadBalancerToHub(lb));
    OverlayListRestores((s: int64, b: int64) => s, lb.additionalPorts, t.additionalPorts);
    assert OverlayStruct(OverlayMonitor, lb.monitor, t.monitor) == lb.monitor;
  }

  lemma RulesRestore(s: seq<SpokeRule>)
    ensures OverlayList(OverlayRule, s, Map(RuleToSpoke, Map(RuleToHub, s))) == s
  {
    OverlayListRestores(OverlayRule, s, Map(RuleToSpoke, Map(RuleToHub, s)));
  }

  lemma PortRestores(p: SpokePort)
    ensures OverlayPort(p, PortToSpoke(PortToHub(p))) == p
  {
    var back := Map(FixedIPToSpoke, Map(FixedIPToHub, p.fixedIPs));
    forall i | 0 <= i < |p.fixedIPs| ensures OverlayFixedIP(p.fixedIPs[i], back[i]) == p.fixedIPs[i] {
      assert back[i] == FixedIPToSpoke(FixedIPToHub(p.fixedIPs[i]));
      if p.fixedIPs[i].subnet.Some? {
        SubnetRestores(p.fixedIPs[i].subnet.value);
      }
    }
    OverlayListRestores(OverlayFixedIP, p.fixedIPs, back);
  }

  lemma PortsRestore(ports: seq<SpokePort>)
    ensures OverlayList(OverlayPort, ports, Map(PortToSpoke, Map(PortToHub, ports))) == ports
  {
    var back := Map(PortToSpoke, Map(PortToHub, ports));
    forall i | 0 <= i < |ports| ensures OverlayPort(ports[i], back[i]) == ports[i] {
      assert back[i] == PortToSpoke(PortToHub(ports[i]));
      PortRestores(ports[i]);
    }
    OverlayListRestores(OverlayPort, ports, back);
  }

  lemma MachineSpecRestores(m: SpokeMachineSpec)
    ensures OverlayMachineSpec(m, MachineSpecToSpoke(MachineSpecToHub(m))) == m
  {
    PortsRestore(m.ports);
    OverlayListRestores(OverlayVolume, m.blockDevices, Map(VolumeToSpoke, Map(VolumeToHub, m.blockDevices)));
    OverlayListRestores(OverlayHint, m.schedulerHints, Map(HintToSpoke, Map(HintToHub, m.schedulerHints)));
  }

  lemma SubnetsRestore(subnets: seq<SpokeSubnet>)
    ensures OverlayList(OverlaySubnet, subnets, Map(SubnetToSpoke, Map(SubnetToHub, subnets))) == subnets
  {
    var back := Map(SubnetToSpoke, Map(SubnetToHub, subnets));
    forall i | 0 <= i < |subnets| ensures OverlaySubnet(subnets[i], back[i]) == subnets[i] {
      assert back[i] == SubnetToSpoke(SubnetToHub(subnets[i]));
      SubnetRestores(subnets[i]);
    }
    OverlayListRestores(OverlaySubnet, subnets, back);
  }

  lemma ExternalIPsRestore(ips: seq<SpokeExternalIP>)
    ensures OverlayList(OverlayExternalIP, ips, Map(ExternalIPToSpoke, Map(ExternalIPToHub, ips))) == ips
  {
    var back := Map(ExternalIPToSpoke, Map(ExternalIPToHub, ips));
    forall i | 0 <= i < |ips| ensures OverlayExternalIP(ips[i], back[i]) == ips[i] {
      assert back[i] == ExternalIPToSpoke(ExternalIPToHub(ips[i]));
      SubnetRestores(ips[i].subnet);
    }
    OverlayListRestores(OverlayExternalIP, ips, back);
  }

  lemma ListsRestore(s: SpokeSpec)
    ensures var t := Overlay(s, ToSpoke(ToHub(s)));
            t.subnets == s.subnets && t.primarySubnet == s.primarySubnet && t.externalRouterIPs == s.externalRouterIPs
  {
    SubnetsRestore(s.subnets);
    if s.primarySubnet.Some? {
      SubnetRestores(s.primarySubnet.value);
    }
    ExternalIPsRestore(s.externalRouterIPs);
    assert ToSpoke(ToHub(s)).externalRouterIPs == Map(ExternalIPToSpoke, Map(ExternalIPToHub, s.externalRouterIPs));
  }

  lemma GroupsRestore(s: SpokeSpec)
    ensures var t := Overlay(s, ToSpoke(ToHub(s)));
            && t.apiServerLoadBalancer == s.apiServerLoadBalancer
            && t.managedSecurityGroups == s.managedSecurityGroups
            && t.bastion == s.bastion
  {
    if s.apiServerLoadBalancer.Some? {
      LoadBalancerRestores(s.apiServerLoadBalancer.value);
    }
    if s.managedSecurityGroups.Some? {
      RulesRestore(s.managedSecurityGroups.value.allNodes);
      RulesRestore(s.managedSecurityGroups.value.controlPlane);
      RulesRestore(s.managedSecurityGroups.value.worker);
    }
    if s.bastion.Some? && s.bastion.value.spec.Some? {
      MachineSpecRestores(s.bastion.value.spec.value);
    }
  }

  /**
   * Reading a stashed spec over its own conversion gives it back, for every spec: also for those
   * that the plain round trip changes (integers beyond int32, two names for one flavor).
   */
  lemma OverlayRestores(s: SpokeSpec)
    ensures Overlay(s, ToSpoke(ToHub(s))) == s
  {
    ListsRestore(s);
    GroupsRestore(s);
    NetworkRoundTrip(s);
    APIServerRoundTrip(s);
  }

  // ---------------------------------------------------------------- a hub object that no longer is what was stashed

  /**
   * If the hub object's spec is not the one made of the stash, the converted spec agrees with it in a
   * flag or scalar exactly if the stash leaves it out or agrees with it there as well.
   */
  lemma EditShowsExactly(stash: SpokeSpec, h: HubSpec)
    ensures var t := Overlay(stash, ToSpoke(h));
            && (FlagAgrees(t.disableExternalNetwork, h.enableExternalNetwork) <==>
                  stash.disableExternalNetwork.None? || FlagAgrees(stash.disableExternalNetwork, h.enableExternalNetwork))
            && (FlagAgrees(t.disableAPIServerFloatingIP, GetEnableFloatingIP(h)) <==>
                  stash.disableAPIServerFloatingIP.None? || FlagAgrees(stash.disableAPIServerFloatingIP, GetEnableFloatingIP(h)))
            && (t.apiServerFixedIP == GetFixedIP(h) <==> stash.apiServerFixedIP.None? || stash.apiServerFixedIP == GetFixedIP(h))
            && (t.apiServerFloatingIP == GetFloatingIP(h) <==>
                  stash.apiServerFloatingIP.None? || stash.apiServerFloatingIP == GetFloatingIP(h))
            && (t.apiServerPort == GetPort(h) <==> stash.apiServerPort.None? || stash.apiServerPort == GetPort(h))
    ensures var t := Overlay(stash, ToSpoke(h));
            var network := if h.managedNetwork.Some? then h.managedNetwork.value else ManagedNetwork(None, None);
            && (FlagAgrees(t.disablePortSecurity, network.enablePortSecurity) <==>
                  stash.disablePortSecurity.None? || FlagAgrees(stash.disablePortSecurity, network.enablePortSecurity))
            && (NumberAgrees(t.networkMTU, network.mtu) <==> stash.networkMTU.None? || NumberAgrees(stash.networkMTU, network.mtu))
  {
  }

  /** A list that the stash leaves out is the hub object's; any other keeps the stash's length. */
  lemma EditedListsExactly(stash: SpokeSpec, h: HubSpec)
    ensures var t := Overlay(stash, ToSpoke(h));
            && (|t.subnets| == |h.subnets| <==> stash.subnets == [] || |stash.subnets| == |h.subnets|)
            && (stash.subnets == [] ==> EachAgrees(SubnetAgrees, t.subnets, h.subnets))
            && (forall i :: 0 <= i < |stash.subnets| && stash.subnets[i].id.Some? ==> t.subnets[i].id == stash.subnets[i].id)
            && (forall i :: 0 <= i < |stash.subnets| && i < |h.subnets| && stash.subnets[i].id.None? ==> t.subnets[i].id == h.subnets[i].id)
    ensures stash.externalRouterIPs == [] ==>
              EachAgrees(ExternalIPAgrees, Overlay(stash, ToSpoke(h)).externalRouterIPs, h.managedRouter.GetOr([]))
  {
    NetworkToSpokeAgrees(h);
    var base := ToSpoke(h).subnets;
    forall i | 0 <= i < |stash.subnets|
      ensures stash.subnets[i].id.Some? ==> Overlay(stash, ToSpoke(h)).subnets[i].id == stash.subnets[i].id
      ensures stash.subnets[i].id.None? && i < |h.subnets| ==> Overlay(stash, ToSpoke(h)).subnets[i].id == h.subnets[i].id
    {
      assert Overlay(stash, ToSpoke(h)).subnets[i] == if i < |base| then OverlaySubnet(stash.subnets[i], base[i]) else stash.subnets[i];
      assert i < |h.subnets| ==> SubnetAgrees(base[i], h.subnets[i]);
    }
  }

  /**
   * Inside lists and structs as well: a field that the stash has is the stash's, one that it leaves
   * out is the hub object's.
   */
  lemma NestedFieldsOverlay(sr: SpokeRule, r: SpokeRule, sf: SpokeFixedIP, f: SpokeFixedIP, sp: SpokePort, p: SpokePort,
                            sm: SpokeMachineSpec, m: SpokeMachineSpec, sb: SpokeBastion, b: SpokeBastion)
    ensures var t := OverlayRule(sr, r);
            && t.portRangeMin == (if sr.portRangeMin.Some? then sr.portRangeMin else r.portRangeMin)
            && t.portRangeMax == (if sr.portRangeMax.Some? then sr.portRangeMax else r.portRangeMax)
            && t.other == (if sr.other != "" then sr.other else r.other)
    ensures var t := OverlayFixedIP(sf, f);
            && t.ipAddress == (if sf.ipAddress.Some? then sf.ipAddress else f.ipAddress)
            && (sf.subnet.None? ==> t.subnet == f.subnet) && (f.subnet.None? ==> t.subnet == sf.subnet)
    ensures var t := OverlayPort(sp, p);
            && t.disablePortSecurity == (if sp.disablePortSecurity.Some? then sp.disablePortSecurity else p.disablePortSecurity)
            && (sp.fixedIPs == [] ==> t.fixedIPs == p.fixedIPs) && (sp.fixedIPs != [] ==> |t.fixedIPs| == |sp.fixedIPs|)
            && t.other == (if sp.other != "" then sp.other else p.other)
    ensures var t := OverlayMachineSpec(sm, m);
            && t.flavor == (if sm.flavor.Some? then sm.flavor else m.flavor)
            && t.flavorID == (if sm.flavorID.Some? then sm.flavorID else m.flavorID)
            && (sm.ports == [] ==> t.ports == m.ports) && (sm.ports != [] ==> |t.ports| == |sm.ports|)
            && (sm.rootVolume.None? ==> t.rootVolume == m.rootVolume)
            && (sm.rootVolume.Some? ==> t.rootVolume.Some? && t.rootVolume.value.sizeGiB == sm.rootVolume.value.sizeGiB)
            && (sm.blockDevices == [] ==> t.blockDevices == m.blockDevices)
            && (sm.schedulerHints == [] ==> t.schedulerHints == m.schedulerHints)
    ensures var t := OverlayBastion(sb, b);
            && t.enabled == (if sb.enabled.Some? then sb.enabled else b.enabled)
            && (sb.spec.None? ==> t.spec == b.spec) && (b.spec.None? ==> t.spec == sb.spec)
  {
  }

  /** An object that was converted with an MTU of 1500, copied with its stash and given an MTU of 9000, reads 1500 in v1beta1. */
  lemma StaleStashHidesEdit()
    ensures var stash := EMPTY_SPOKE_SPEC.(networkMTU := Some(1500));
            var h := ToHub(stash).(managedNetwork := Some(ManagedNetwork(Some(9000), None)));
            Overlay(stash, ToSpoke(h)).networkMTU == Some(1500)
  {
  }

  // ---------------------------------------------------------------- the converters

  /** utilconversion.MarshalData(src, dst) with the JSON text already built. */
  method MarshalToHub(stash: Value, dst: HubTemplate)
    modifies dst`annotations, dst.annotations
    ensures dst.annotations != null
    ensures old(dst.annotations) != null ==> dst.annotations == old(dst.annotations)
    ensures old(dst.annotations) == null ==> fresh(dst.annotations)
    ensures dst.annotations.data == old(Read(dst.annotations))[DATA_ANNOTATION := stash]
  {
    if dst.annotations == null {
      dst.annotations := new Annotations(map[]);
    }
    dst.annotations.data := dst.annotations.data[DATA_ANNOTATION := stash];
  }

  method MarshalToSpoke(stash: Value, dst: SpokeTemplate)
    modifies dst`annotations, dst.annotations
    ensures dst.annotations != null
    ensures old(dst.annotations) != null ==> dst.annotations == old(dst.annotations)
    ensures old(dst.annotations) == null ==> fresh(dst.annotations)
    ensures dst.annotations.data == old(Read(dst.annotations))[DATA_ANNOTATION := stash]
  {
    if dst.annotations == null {
      dst.annotations := new Annotations(map[]);
    }
    dst.annotations.data := dst.annotations.data[DATA_ANNOTATION := stash];
  }

  /**
   * v1beta1 to v1beta2. A stash of the other kind may or may not parse as a hub template; if it
   * does, it carries no template metadata. Free text does not parse.
   */
  method ConvertTo(src: SpokeTemplate, dst: HubTemplate) returns (ok: bool)
    modifies dst, src.annotations
    ensures ok ==> dst.spec == ToHub(src.spec)
    ensures ok ==> dst.annotations != null && dst.annotations.data == old(Read(src.annotations))[DATA_ANNOTATION := SpokeStash(src.spec)]
    ensures ok && src.annotations != null ==> dst.annotations == src.annotations
    ensures ok && src.annotations == null ==> fresh(dst.annotations)
    ensures match old(Stash(Read(src.annotations)))
            case None => ok && dst.meta == old(dst.meta)
            case Some(HubStash(meta, _)) => ok && dst.meta == meta
            case Some(SpokeStash(_)) => ok ==> dst.meta == NO_META
            case Some(Text(_)) => !ok
    ensures !ok ==> old(src.annotations) == src.annotations && Read(src.annotations) == old(Read(src.annotations))
  {
    dst.annotations := src.annotations;
    dst.spec := ToHub(src.spec);
    if src.annotations != null && DATA_ANNOTATION in src.annotations.data {
      var value := src.annotations.data[DATA_ANNOTATION];
      var parses: bool := *;
      if value.Text? || (value.SpokeStash? && !parses) {
        return false;
      }
      src.annotations.data := src.annotations.data - {DATA_ANNOTATION};
      dst.meta := if value.HubStash? then value.meta else NO_META;
    }
    MarshalToHub(SpokeStash(src.spec), dst);
    ok := true;
  }

  /**
   * v1beta2 to v1beta1. What a stash of the other kind leaves in the spec when it parses is not
   * determined here.
   */
  method ConvertFrom(dst: SpokeTemplate, src: HubTemplate) returns (ok: bool)
    modifies dst, src.annotations
    ensures ok ==> dst.annotations != null && dst.annotations.data == old(Read(src.annotations))[DATA_ANNOTATION := HubStash(src.meta, src.spec)]
    ensures ok && src.annotations != null ==> dst.annotations == src.annotations
    ensures ok && src.annotations == null ==> fresh(dst.annotations)
    ensures match old(Stash(Read(src.annotations)))
            case None => ok && dst.spec == ToSpoke(src.spec)
            case Some(SpokeStash(stash)) => ok && dst.spec == Overlay(stash, ToSpoke(src.spec))
            case Some(HubStash(_, _)) => true
            case Some(Text(_)) => !ok
    ensures !ok ==> Read(src.annotations) == old(Read(src.annotations))
  {
    dst.annotations := src.annotations;
    dst.spec := ToSpoke(src.spec);
    if src.annotations != null && DATA_ANNOTATION in src.annotations.data {
      var value := src.annotations.data[DATA_ANNOTATION];
      var parses: bool := *;
      if value.Text? || (value.HubStash? && !parses) {
        return false;
      }
      if value.SpokeStash? {
        dst.spec := Overlay(value.spoke, dst.spec);
      } else {
        dst.spec := *;
      }
      src.annotations.data := src.annotations.data - {DATA_ANNOTATION};
    }
    MarshalToSpoke(HubStash(src.meta, src.spec), dst);
    ok := true;
  }

  // ---------------------------------------------------------------- any number of round trips

  /** What a reader of a converted object sees. */
  datatype SpokeView = SpokeView(spec: SpokeSpec, data: map<string, Value>)
  datatype HubView = HubView(meta: TemplateMeta, spec: HubSpec, data: map<string, Value>)

  /** The spoke spec that the first conversion of a hub object yields. */
  function FirstSpoke(stash: Option<Value>, h: HubSpec): SpokeSpec {
    if stash.Some? && stash.value.SpokeStash? then Overlay(stash.value.spoke, ToSpoke(h)) else ToSpoke(h)
  }

  /** One trip from the hub to the spoke and back. */
  method RoundTrip(hub: HubTemplate) returns (spoke: SpokeView, next: HubTemplate)
    requires match Stash(Read(hub.annotations)) case None => true case Some(value) => value.SpokeStash?
    modifies hub.annotations
    ensures var data := old(Read(hub.annotations));
            var s := FirstSpoke(Stash(data), hub.spec);
            && spoke == SpokeView(s, data[DATA_ANNOTATION := HubStash(hub.meta, hub.spec)])
            && next.meta == hub.meta && next.spec == ToHub(s)
            && next.annotations != null && next.annotations.data == data[DATA_ANNOTATION := SpokeStash(s)]
    ensures fresh(next) && (next.annotations == hub.annotations || fresh(next.annotations))
  {
    var converted := new SpokeTemplate(null, ToSpoke(hub.spec));
    var ok := ConvertFrom(converted, hub);
    spoke := SpokeView(converted.spec, converted.annotations.data);
    next := new HubTemplate(null, NO_META, ToHub(spoke.spec));
    ok := ConvertTo(converted, next);
  }

  /** A trip of a hub object that came from the spoke spec s: it leads back to s and to the same hub object. */
  method RoundTripSettled(hub: HubTemplate, ghost s: SpokeSpec) returns (spoke: SpokeView, next: HubTemplate)
    requires hub.spec == ToHub(s) && Stash(Read(hub.annotations)) == Some(SpokeStash(s))
    modifies hub.annotations
    ensures var data := old(Read(hub.annotations));
            && spoke == SpokeView(s, data[DATA_ANNOTATION := HubStash(hub.meta, hub.spec)])
            && next.meta == hub.meta && next.spec == hub.spec
            && next.annotations != null && next.annotations.data == data
    ensures fresh(next) && (next.annotations == hub.annotations || fresh(next.annotations))
  {
    OverlayRestores(s);
    spoke, next := RoundTrip(hub);
  }

  method AlternateSettled(hub: HubTemplate, ghost s: SpokeSpec, n: nat) returns (spokes: seq<SpokeView>, hubs: seq<HubView>)
    requires hub.spec == ToHub(s) && Stash(Read(hub.annotations)) == Some(SpokeStash(s))
    modifies hub.annotations
    ensures |spokes| == |hubs| == n
    ensures var data := old(Read(hub.annotations));
            && (forall i :: 0 <= i < n ==> spokes[i] == SpokeView(s, data[DATA_ANNOTATION := HubStash(hub.meta, hub.spec)]))
            && (forall i :: 0 <= i < n ==> hubs[i] == HubView(hub.meta, hub.spec, data))
  {
    ghost var data := Read(hub.annotations);
    spokes, hubs := [], [];
    var current := hub;
    for i := 0 to n
      invariant |spokes| == |hubs| == i
      invariant current.annotations == hub.annotations || fresh(current.annotations)
      invariant current.meta == hub.meta && current.spec == hub.spec && Read(current.annotations) == data
      invariant forall k :: 0 <= k < i ==> spokes[k] == SpokeView(s, data[DATA_ANNOTATION := HubStash(hub.meta, hub.spec)])
      invariant forall k :: 0 <= k < i ==> hubs[k] == HubView(hub.meta, hub.spec, data)
    {
      var spoke, next := RoundTripSettled(current, s);
      spokes := spokes + [spoke];
      hubs := hubs + [HubView(next.meta, next.spec, next.annotations.data)];
      current := next;
    }
  }

  /**
   * Converts a hub object to the spoke and back n times, unedited. Every spoke seen holds the same
   * spec and stashes one hub object; every hub seen holds the original metadata and stashes that
   * one spec; no other annotation changes.
   */
  method Alternate(hub: HubTemplate, n: nat) returns (spokes: seq<SpokeView>, hubs: seq<HubView>)
    requires match Stash(Read(hub.annotations)) case None => true case Some(value) => value.SpokeStash?
    modifies hub.annotations
    ensures |spokes| == n && |hubs| == n + 1
    ensures hubs[0] == HubView(hub.meta, hub.spec, old(Read(hub.annotations)))
    ensures var s := FirstSpoke(Stash(hubs[0].data), hub.spec);
            && (forall i :: 0 <= i < n ==> spokes[i] == SpokeView(s, hubs[0].data[DATA_ANNOTATION := HubStash(hub.meta, hubs[i].spec)]))
            && (forall i :: 1 <= i <= n ==> hubs[i] == HubView(hub.meta, ToHub(s), hubs[0].data[DATA_ANNOTATION := SpokeStash(s)]))
  {
    spokes, hubs := [], [HubView(hub.meta, hub.spec, if hub.annotations == null then map[] else hub.annotations.data)];
    if n == 0 {
      return;
    }
    ghost var data := Read(hub.annotations);
    ghost var s := FirstSpoke(Stash(data), hub.spec);
    var spoke, next := RoundTrip(hub);
    var settled := HubView(next.meta, next.spec, next.annotations.data);
    var moreSpokes, moreHubs := AlternateSettled(next, s, n - 1);
    assert settled.data[DATA_ANNOTATION := HubStash(hub.meta, settled.spec)] == data[DATA_ANNOTATION := HubStash(hub.meta, settled.spec)];
    spokes, hubs := [spoke] + moreSpokes, hubs + [settled] + moreHubs;
  }

  /** A hub object that never was a spoke keeps its metadata and the meaning of its spec, and its spec itself if canonical. */
  method FromHub(hub: HubTemplate, n: nat) returns (spokes: seq<SpokeView>, hubs: seq<HubView>)
    requires Stash(Read(hub.annotations)).None?
    modifies hub.annotations
    ensures |spokes| == n && |hubs| == n + 1
    ensures forall i :: 0 <= i < n ==> spokes[i].spec == ToSpoke(hub.spec)
    ensures forall i :: 0 <= i <= n ==> hubs[i].meta == hub.meta && SameMeaning(hub.spec, hubs[i].spec)
    ensures Canonical(hub.spec) ==> forall i :: 0 <= i <= n ==> hubs[i].spec == hub.spec
  {
    spokes, hubs := Alternate(hub, n);
    HubRoundTrip(hub.spec);
  }

  /** The hub object that ConvertTo makes of a spoke, then alternated, gives that spoke back each time. */
  method FromSpoke(spoke: SpokeTemplate, n: nat) returns (spokes: seq<SpokeView>, hubs: seq<HubView>)
    requires match Stash(Read(spoke.annotations)) case None => true case Some(value) => value.HubStash?
    modifies spoke.annotations
    ensures |spokes| == n && |hubs| == n + 1
    ensures forall i :: 0 <= i < n ==> spokes[i].spec == spoke.spec
    ensures forall i :: 0 <= i <= n ==> hubs[i] == hubs[0] && hubs[i].spec == ToHub(spoke.spec)
    ensures var stash := old(Stash(Read(spoke.annotations)));
            forall i :: 0 <= i <= n ==> hubs[i].meta == (if stash.Some? then stash.value.meta else NO_META)
    ensures forall i :: 0 <= i <= n ==> hubs[i].data == old(Read(spoke.annotations))[DATA_ANNOTATION := SpokeStash(spoke.spec)]
  {
    var hub := new HubTemplate(null, NO_META, ToHub(spoke.spec));
    var ok := ConvertTo(spoke, hub);
    OverlayRestores(spoke.spec);
    spokes, hubs := Alternate(hub, n);
  }

  /**
   * Because the annotation map is shared, converting the same spoke object a second time no longer
   * finds the template metadata.
   */
  method SecondConversionLosesMetadata(spoke: SpokeTemplate, first: HubTemplate, second: HubTemplate) returns (ok: bool)
    requires spoke.annotations != null && Stash(spoke.annotations.data).Some? && spoke.annotations.data[DATA_ANNOTATION].HubStash?
    requires first != second && first.annotations == null && second.annotations == null
    modifies spoke.annotations, first, second
    ensures first.meta == old(spoke.annotations.data[DATA_ANNOTATION].meta)
    ensures ok ==> second.meta == NO_META
  {
    ok := ConvertTo(spoke, first);
    ok := ConvertTo(spoke, second);
  }
}
