/**
 * What a cluster spec of v1beta1 and one of v1beta2 have to do with each other, field by field and
 * without the converters: and each converter alone keeps that.
 */
module ClusterSpecMeaning {
  import opened Common
  import opened ClusterSpecConversion

  /** The same low 32 bits. */
  predicate Low32(x: int64, y: int32) {
    (x - y) % 0x1_0000_0000 == 0
  }

  predicate NumberAgrees(x: Option<int64>, y: Option<int32>) {
    x.Some? == y.Some? && (x.Some? ==> Low32(x.value, y.value))
  }

  /** A disable flag of v1beta1 and an enable flag of v1beta2, each read with its own default. */
  predicate FlagAgrees(disable: Option<bool>, enable: Option<bool>) {
    disable.Some? == enable.Some? && (disable.GetOr(false) <==> !enable.GetOr(true))
  }

  ghost predicate EachAgrees<A(!new), B(!new)>(P: (A, B) -> bool, s: seq<A>, h: seq<B>) {
    |s| == |h| && forall i :: 0 <= i < |s| ==> P(s[i], h[i])
  }

  predicate OptionAgrees<A, B>(P: (A, B) -> bool, s: Option<A>, h: Option<B>) {
    s.Some? == h.Some? && (s.Some? ==> P(s.value, h.value))
  }

  predicate SubnetAgrees(s: SpokeSubnet, h: HubSubnet) {
    s.id == h.id && s.other == h.other && NumberAgrees(s.filterIPVersion, h.filterIPVersion)
  }

  predicate ExternalIPAgrees(s: SpokeExternalIP, h: HubExternalIP) {
    s.fixedIP == h.fixedIP && SubnetAgrees(s.subnet, h.subnet)
  }

  predicate MonitorAgrees(s: SpokeMonitor, h: HubMonitor) {
    && Low32(s.delay, h.delay) && Low32(s.timeout, h.timeout)
    && Low32(s.maxRetries, h.maxRetries) && Low32(s.maxRetriesDown, h.maxRetriesDown)
  }

  ghost predicate LoadBalancerAgrees(s: SpokeLoadBalancer, h: HubLoadBalancer) {
    && s.enabled == h.enabled && s.other == h.other
    && EachAgrees(Low32, s.additionalPorts, h.additionalPorts)
    && OptionAgrees(MonitorAgrees, s.monitor, h.monitor)
  }

  predicate RuleAgrees(s: SpokeRule, h: HubRule) {
    && s.other == h.other
    && NumberAgrees(s.portRangeMin, h.portRangeMin) && NumberAgrees(s.portRangeMax, h.portRangeMax)
  }

  /** The rules for all nodes are those for cluster nodes; the others keep their names. */
  ghost predicate SecurityGroupsAgree(s: SpokeSecurityGroups, h: HubSecurityGroups) {
    && EachAgrees(RuleAgrees, s.allNodes, h.clusterNodes)
    && EachAgrees(RuleAgrees, s.controlPlane, h.controlPlane)
    && EachAgrees(RuleAgrees, s.worker, h.worker)
    && s.allowAll == h.allowAll
  }

  predicate FixedIPAgrees(s: SpokeFixedIP, h: HubFixedIP) {
    s.ipAddress == h.ipAddress && OptionAgrees(SubnetAgrees, s.subnet, h.subnet)
  }

  ghost predicate PortAgrees(s: SpokePort, h: HubPort) {
    && EachAgrees(FixedIPAgrees, s.fixedIPs, h.fixedIPs)
    && FlagAgrees(s.disablePortSecurity, h.enablePortSecurity)
    && s.other == h.other
  }

  predicate VolumeAgrees(s: SpokeVolume, h: HubVolume) {
    Low32(s.sizeGiB, h.sizeGiB) && s.other == h.other
  }

  predicate HintAgrees(s: SpokeHint, h: HubHint) {
    NumberAgrees(s.number, h.number) && s.other == h.other
  }

  /** One side names a flavor by an ID, or without one by a name, exactly if the other does. */
  ghost predicate FlavorAgrees(flavor: Option<string>, flavorID: Option<string>, f: FlavorParam) {
    && (forall id :: id != "" ==> (flavorID == Some(id) <==> f.id == Some(id)))
    && (forall name :: name != "" ==>
          (flavorID.None? && flavor == Some(name) <==> f.id.GetOr("") == "" && f.filter == Some(Some(name))))
  }

  ghost predicate MachineSpecAgrees(s: SpokeMachineSpec, h: HubMachineSpec) {
    && FlavorAgrees(s.flavor, s.flavorID, h.flavor)
    && |s.ports| == |h.ports| && (forall i :: 0 <= i < |s.ports| ==> PortAgrees(s.ports[i], h.ports[i]))
    && OptionAgrees(VolumeAgrees, s.rootVolume, h.rootVolume)
    && EachAgrees(VolumeAgrees, s.blockDevices, h.blockDevices)
    && EachAgrees(HintAgrees, s.schedulerHints, h.schedulerHints)
    && s.other == h.other
  }

  ghost predicate BastionAgrees(s: SpokeBastion, h: HubBastion) {
    && s.enabled == h.enabled && s.other == h.other
    && s.spec.Some? == h.spec.Some? && (s.spec.Some? ==> MachineSpecAgrees(s.spec.value, h.spec.value))
  }

  ghost predicate NetworkAgrees(s: SpokeSpec, h: HubSpec) {
    && EachAgrees(SubnetAgrees, s.subnets, h.subnets)
    && OptionAgrees(SubnetAgrees, s.primarySubnet, h.primarySubnet)
    && EachAgrees(ExternalIPAgrees, s.externalRouterIPs, h.managedRouter.GetOr([]))
    && NumberAgrees(s.networkMTU, if h.managedNetwork.Some? then h.managedNetwork.value.mtu else None)
    && FlagAgrees(s.disablePortSecurity, if h.managedNetwork.Some? then h.managedNetwork.value.enablePortSecurity else None)
    && FlagAgrees(s.disableExternalNetwork, h.enableExternalNetwork)
  }

  ghost predicate APIServerAgrees(s: SpokeSpec, h: HubSpec) {
    && s.apiServerFixedIP == GetFixedIP(h)
    && s.apiServerFloatingIP == GetFloatingIP(h)
    && s.apiServerPort == GetPort(h)
    && FlagAgrees(s.disableAPIServerFloatingIP, GetEnableFloatingIP(h))
    && s.apiServerLoadBalancer.Some? == GetManagedLoadBalancer(h).Some?
    && (s.apiServerLoadBalancer.Some? ==> LoadBalancerAgrees(s.apiServerLoadBalancer.value, GetManagedLoadBalancer(h).value))
  }

  ghost predicate SpecAgrees(s: SpokeSpec, h: HubSpec) {
    && NetworkAgrees(s, h) && APIServerAgrees(s, h)
    && s.managedSecurityGroups.Some? == h.managedSecurityGroups.Some?
    && (s.managedSecurityGroups.Some? ==> SecurityGroupsAgree(s.managedSecurityGroups.value, h.managedSecurityGroups.value))
    && s.bastion.Some? == h.bastion.Some? && (s.bastion.Some? ==> BastionAgrees(s.bastion.value, h.bastion.value))
    && s.other == h.other
  }

  // ---------------------------------------------------------------- v1beta1 to v1beta2

  lemma MapAgrees<A(!new), B(!new)>(P: (A, B) -> bool, f: A -> B, s: seq<A>)
    requires forall i :: 0 <= i < |s| ==> P(s[i], f(s[i]))
    ensures EachAgrees(P, s, Map(f, s))
  {
  }

  lemma PortToHubAgrees(s: SpokePort)
    ensures PortAgrees(s, PortToHub(s))
  {
    MapAgrees(FixedIPAgrees, FixedIPToHub, s.fixedIPs);
  }

  lemma MachineSpecToHubAgrees(s: SpokeMachineSpec)
    ensures MachineSpecAgrees(s, MachineSpecToHub(s))
  {
    var h := MachineSpecToHub(s);
    forall i | 0 <= i < |s.ports| ensures PortAgrees(s.ports[i], h.ports[i]) {
      PortToHubAgrees(s.ports[i]);
    }
    MapAgrees(VolumeAgrees, VolumeToHub, s.blockDevices);
    MapAgrees(HintAgrees, HintToHub, s.schedulerHints);
  }

  lemma SecurityGroupsToHubAgree(s: SpokeSecurityGroups)
    ensures SecurityGroupsAgree(s, SecurityGroupsToHub(s))
  {
    MapAgrees(RuleAgrees, RuleToHub, s.allNodes);
    MapAgrees(RuleAgrees, RuleToHub, s.controlPlane);
    MapAgrees(RuleAgrees, RuleToHub, s.worker);
  }

  lemma SubnetsToHubAgree(subnets: seq<SpokeSubnet>)
    ensures EachAgrees(SubnetAgrees, subnets, Map(SubnetToHub, subnets))
  {
    MapAgrees(SubnetAgrees, SubnetToHub, subnets);
  }

  lemma ExternalIPsToHubAgree(ips: seq<SpokeExternalIP>)
    ensures EachAgrees(ExternalIPAgrees, ips, Map(ExternalIPToHub, ips))
  {
    MapAgrees(ExternalIPAgrees, ExternalIPToHub, ips);
  }

  lemma NetworkToHubAgrees(s: SpokeSpec)
    ensures NetworkAgrees(s, ToHub(s))
  {
    SubnetsToHubAgree(s.subnets);
    ExternalIPsToHubAgree(s.externalRouterIPs);
  }

  lemma LoadBalancerToHubAgrees(s: SpokeLoadBalancer)
    ensures LoadBalancerAgrees(s, LoadBalancerToHub(s))
  {
    MapAgrees(Low32, ToInt32, s.additionalPorts);
  }

  lemma APIServerToHubAgrees(s: SpokeSpec)
    ensures APIServerAgrees(s, ToHub(s))
  {
    if s.apiServerLoadBalancer.Some? {
      LoadBalancerToHubAgrees(s.apiServerLoadBalancer.value);
    }
  }

  /** Conversion to v1beta2 yields, for every spec, one that agrees with it, and groups of fields only where one is set. */
  lemma ToHubAgrees(s: SpokeSpec)
    ensures SpecAgrees(s, ToHub(s))
    ensures ToHub(s).managedRouter.Some? <==> s.externalRouterIPs != []
    ensures ToHub(s).managedNetwork.Some? <==> s.networkMTU.Some? || s.disablePortSecurity.Some?
    ensures ToHub(s).apiServer.Some? <==>
              || s.apiServerLoadBalancer.Some? || s.disableAPIServerFloatingIP.Some? || s.apiServerFloatingIP.Some?
              || s.apiServerFixedIP.Some? || s.apiServerPort.Some?
  {
    NetworkToHubAgrees(s);
    APIServerToHubAgrees(s);
    if s.managedSecurityGroups.Some? {
      SecurityGroupsToHubAgree(s.managedSecurityGroups.value);
    }
    if s.bastion.Some? && s.bastion.value.spec.Some? {
      MachineSpecToHubAgrees(s.bastion.value.spec.value);
    }
  }

  // ---------------------------------------------------------------- v1beta2 to v1beta1

  lemma MapAgreesBack<A(!new), B(!new)>(P: (A, B) -> bool, fits: A -> bool, g: B -> A, h: seq<B>)
    requires forall i :: 0 <= i < |h| ==> P(g(h[i]), h[i]) && fits(g(h[i]))
    ensures EachAgrees(P, Map(g, h), h)
    ensures forall i :: 0 <= i < |h| ==> fits(Map(g, h)[i])
  {
  }

  lemma PortToSpokeAgrees(h: HubPort)
    ensures PortAgrees(PortToSpoke(h), h) && PortFits(PortToSpoke(h))
  {
    MapAgreesBack(FixedIPAgrees, FixedIPFits, FixedIPToSpoke, h.fixedIPs);
  }

  lemma MachineSpecToSpokeAgrees(h: HubMachineSpec)
    ensures MachineSpecAgrees(MachineSpecToSpoke(h), h) && MachineSpecFits(MachineSpecToSpoke(h))
  {
    var s := MachineSpecToSpoke(h);
    forall i | 0 <= i < |h.ports| ensures PortAgrees(s.ports[i], h.ports[i]) && PortFits(s.ports[i]) {
      PortToSpokeAgrees(h.ports[i]);
    }
    MapAgreesBack(VolumeAgrees, VolumeFits, VolumeToSpoke, h.blockDevices);
    MapAgreesBack(HintAgrees, HintFits, HintToSpoke, h.schedulerHints);
  }

  lemma SecurityGroupsToSpokeAgree(h: HubSecurityGroups)
    ensures SecurityGroupsAgree(SecurityGroupsToSpoke(h), h) && SecurityGroupsFit(SecurityGroupsToSpoke(h))
  {
    MapAgreesBack(RuleAgrees, RuleFits, RuleToSpoke, h.clusterNodes);
    MapAgreesBack(RuleAgrees, RuleFits, RuleToSpoke, h.controlPlane);
    MapAgreesBack(RuleAgrees, RuleFits, RuleToSpoke, h.worker);
  }

  lemma LoadBalancerToSpokeAgrees(h: HubLoadBalancer)
    ensures LoadBalancerAgrees(LoadBalancerToSpoke(h), h) && LoadBalancerFits(LoadBalancerToSpoke(h))
  {
    MapAgreesBack(Low32, Fits, (v: int32) => v as int64, h.additionalPorts);
  }

  lemma NetworkToSpokeAgrees(h: HubSpec)
    ensures var s := ToSpoke(h);
            && NetworkAgrees(s, h)
            && (forall i :: 0 <= i < |s.subnets| ==> SubnetFits(s.subnets[i]))
            && (forall i :: 0 <= i < |s.externalRouterIPs| ==> SubnetFits(s.externalRouterIPs[i].subnet))
  {
    MapAgreesBack(SubnetAgrees, SubnetFits, SubnetToSpoke, h.subnets);
    MapAgreesBack(ExternalIPAgrees, (e: SpokeExternalIP) => SubnetFits(e.subnet), ExternalIPToSpoke, h.managedRouter.GetOr([]));
  }

  lemma APIServerToSpokeAgrees(h: HubSpec)
    ensures var s := ToSpoke(h);
            && APIServerAgrees(s, h)
            && (s.apiServerLoadBalancer.Some? ==> LoadBalancerFits(s.apiServerLoadBalancer.value))
  {
    if GetManagedLoadBalancer(h).Some? {
      LoadBalancerToSpokeAgrees(GetManagedLoadBalancer(h).value);
    }
  }

  /** Conversion to v1beta1 yields, for every spec, one that agrees with it and whose integers are all in range. */
  lemma ToSpokeAgrees(h: HubSpec)
    ensures SpecAgrees(ToSpoke(h), h)
    ensures SpecFits(ToSpoke(h))
  {
    NetworkToSpokeAgrees(h);
    APIServerToSpokeAgrees(h);
    if h.managedSecurityGroups.Some? {
      SecurityGroupsToSpokeAgree(h.managedSecurityGroups.value);
    }
    if h.bastion.Some? && h.bastion.value.spec.Some? {
      MachineSpecToSpokeAgrees(h.bastion.value.spec.value);
    }
  }

  // ---------------------------------------------------------------- how much agreement says

  lemma EachDetermined<A(!new), B(!new)>(P: (A, B) -> bool, s: seq<A>, h: seq<B>, h': seq<B>)
    requires EachAgrees(P, s, h) && EachAgrees(P, s, h')
    requires forall i :: 0 <= i < |s| && P(s[i], h[i]) && P(s[i], h'[i]) ==> h[i] == h'[i]
    ensures h == h'
  {
  }

  lemma PortDetermined(s: SpokePort, h: HubPort, h': HubPort)
    requires PortAgrees(s, h) && PortAgrees(s, h')
    ensures h == h'
  {
    EachDetermined(FixedIPAgrees, s.fixedIPs, h.fixedIPs, h'.fixedIPs);
  }

  lemma MachineSpecDetermined(s: SpokeMachineSpec, h: HubMachineSpec, h': HubMachineSpec)
    requires MachineSpecAgrees(s, h) && MachineSpecAgrees(s, h')
    ensures h'.(flavor := h.flavor) == h
    ensures FlavorToSpoke(h'.flavor) == FlavorToSpoke(h.flavor)
  {
    forall i | 0 <= i < |s.ports| ensures h.ports[i] == h'.ports[i] {
      PortDetermined(s.ports[i], h.ports[i], h'.ports[i]);
    }
    EachDetermined(VolumeAgrees, s.blockDevices, h.blockDevices, h'.blockDevices);
    EachDetermined(HintAgrees, s.schedulerHints, h.schedulerHints, h'.schedulerHints);
    FlavorDetermined(s.flavor, s.flavorID, h.flavor, h'.flavor);
  }

  lemma FlavorDetermined(flavor: Option<string>, flavorID: Option<string>, f: FlavorParam, f': FlavorParam)
    requires FlavorAgrees(flavor, flavorID, f) && FlavorAgrees(flavor, flavorID, f')
    ensures FlavorToSpoke(f') == FlavorToSpoke(f)
  {
    var id, id' := f.id.GetOr(""), f'.id.GetOr("");
    var name, name' := f.filter.GetOr(None).GetOr(""), f'.filter.GetOr(None).GetOr("");
    assert id != "" ==> flavorID == Some(id);
    assert id' != "" ==> flavorID == Some(id');
    assert id == "" && name != "" ==> flavorID.None? && flavor == Some(name);
    assert id' == "" && name' != "" ==> flavorID.None? && flavor == Some(name');
  }

  lemma SecurityGroupsDetermined(s: SpokeSecurityGroups, h: HubSecurityGroups, h': HubSecurityGroups)
    requires SecurityGroupsAgree(s, h) && SecurityGroupsAgree(s, h')
    ensures h == h'
  {
    EachDetermined(RuleAgrees, s.allNodes, h.clusterNodes, h'.clusterNodes);
    EachDetermined(RuleAgrees, s.controlPlane, h.controlPlane, h'.controlPlane);
    EachDetermined(RuleAgrees, s.worker, h.worker, h'.worker);
  }

  lemma NetworkDetermined(s: SpokeSpec, h: HubSpec, h': HubSpec)
    requires NetworkAgrees(s, h) && NetworkAgrees(s, h')
    ensures h'.subnets == h.subnets && h'.primarySubnet == h.primarySubnet
    ensures h'.managedRouter.GetOr([]) == h.managedRouter.GetOr([])
    ensures h'.managedNetwork.GetOr(ManagedNetwork(None, None)) == h.managedNetwork.GetOr(ManagedNetwork(None, None))
    ensures h'.enableExternalNetwork == h.enableExternalNetwork
  {
    EachDetermined(SubnetAgrees, s.subnets, h.subnets, h'.subnets);
    EachDetermined(ExternalIPAgrees, s.externalRouterIPs, h.managedRouter.GetOr([]), h'.managedRouter.GetOr([]));
  }

  lemma Low32Unique(x: int64, y: int32, y': int32)
    requires Low32(x, y) && Low32(x, y')
    ensures y == y'
  {
  }

  lemma MonitorDetermined(s: SpokeMonitor, h: HubMonitor, h': HubMonitor)
    requires MonitorAgrees(s, h) && MonitorAgrees(s, h')
    ensures h == h'
  {
    Low32Unique(s.delay, h.delay, h'.delay);
    Low32Unique(s.timeout, h.timeout, h'.timeout);
    Low32Unique(s.maxRetries, h.maxRetries, h'.maxRetries);
    Low32Unique(s.maxRetriesDown, h.maxRetriesDown, h'.maxRetriesDown);
  }

  lemma NumbersDetermined(s: seq<int64>, h: seq<int32>, h': seq<int32>)
    requires EachAgrees(Low32, s, h) && EachAgrees(Low32, s, h')
    ensures h == h'
  {
    forall i | 0 <= i < |s| ensures h[i] == h'[i] {
      Low32Unique(s[i], h[i], h'[i]);
    }
  }

  lemma LoadBalancerDetermined(s: SpokeLoadBalancer, h: HubLoadBalancer, h': HubLoadBalancer)
    requires LoadBalancerAgrees(s, h) && LoadBalancerAgrees(s, h')
    ensures h == h'
  {
    NumbersDetermined(s.additionalPorts, h.additionalPorts, h'.additionalPorts);
    if s.monitor.Some? {
      MonitorDetermined(s.monitor.value, h.monitor.value, h'.monitor.value);
    }
  }

  lemma APIServerDetermined(s: SpokeSpec, h: HubSpec, h': HubSpec)
    requires APIServerAgrees(s, h) && APIServerAgrees(s, h')
    ensures GetManagedLoadBalancer(h') == GetManagedLoadBalancer(h)
    ensures GetEnableFloatingIP(h') == GetEnableFloatingIP(h)
  {
    if s.apiServerLoadBalancer.Some? {
      LoadBalancerDetermined(s.apiServerLoadBalancer.value, GetManagedLoadBalancer(h).value, GetManagedLoadBalancer(h').value);
    }
  }

  /** Whatever agrees with a v1beta1 spec means the same: agreement leaves a converter no choice. */
  lemma AgreementDetermines(s: SpokeSpec, h: HubSpec, h': HubSpec)
    requires SpecAgrees(s, h) && SpecAgrees(s, h')
    ensures SameMeaning(h, h')
  {
    NetworkDetermined(s, h, h');
    APIServerDetermined(s, h, h');
    if s.managedSecurityGroups.Some? {
      SecurityGroupsDetermined(s.managedSecurityGroups.value, h.managedSecurityGroups.value, h'.managedSecurityGroups.value);
    }
    if s.bastion.Some? && s.bastion.value.spec.Some? {
      MachineSpecDetermined(s.bastion.value.spec.value, h.bastion.value.spec.value, h'.bastion.value.spec.value);
    }
  }
}
