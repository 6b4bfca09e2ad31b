/**
 * The hand-written converters of OpenStackClusterSpec, step by step as the Go code fills its
 * output, proved against the functions ToHub and ToSpoke and to yield what agrees with the input.
 */
module ClusterSpecConverters {
  import opened Common
  import opened ClusterSpecConversion
  import opened ClusterSpecMeaning

  /** What the generated converter has filled in before the hand-written part starts. */
  function AutoToHub(s: SpokeSpec): HubSpec {
    HubSpec(Map(SubnetToHub, s.subnets), MapOption(SubnetToHub, s.primarySubnet), None, None, None, None,
            MapOption(SecurityGroupsToHub, s.managedSecurityGroups), MapOption(BastionToHub, s.bastion), s.other)
  }

  function AutoToSpoke(h: HubSpec): SpokeSpec {
    SpokeSpec(Map(SubnetToSpoke, h.subnets), MapOption(SubnetToSpoke, h.primarySubnet), None, None, None, [], None, None,
              None, None, None, MapOption(SecurityGroupsToSpoke, h.managedSecurityGroups), MapOption(BastionToSpoke, h.bastion), h.other)
  }

  method LoadBalancerToHubLoop(lb: SpokeLoadBalancer) returns (out: HubLoadBalancer)
    ensures out == LoadBalancerToHub(lb)
  {
    out := HubLoadBalancer(lb.enabled, [], None, lb.other);
    for i := 0 to |lb.additionalPorts|
      invariant out == HubLoadBalancer(lb.enabled, Map(ToInt32, lb.additionalPorts[..i]), None, lb.other)
    {
      out := out.(additionalPorts := out.additionalPorts + [ToInt32(lb.additionalPorts[i])]);
    }
    assert lb.additionalPorts[..|lb.additionalPorts|] == lb.additionalPorts;
    if lb.monitor.Some? {
      var m := lb.monitor.value;
      out := out.(monitor := Some(HubMonitor(ToInt32(m.delay), ToInt32(m.timeout), ToInt32(m.maxRetries), ToInt32(m.maxRetriesDown))));
    }
  }

  method LoadBalancerToSpokeLoop(lb: HubLoadBalancer) returns (out: SpokeLoadBalancer)
    ensures out == LoadBalancerToSpoke(lb)
  {
    out := SpokeLoadBalancer(lb.enabled, [], None, lb.other);
    for i := 0 to |lb.additionalPorts|
      invariant out.(additionalPorts := []) == SpokeLoadBalancer(lb.enabled, [], None, lb.other)
      invariant |out.additionalPorts| == i
      invariant forall k :: 0 <= k < i ==> out.additionalPorts[k] == lb.additionalPorts[k]
    {
      out := out.(additionalPorts := out.additionalPorts + [lb.additionalPorts[i]]);
    }
    assert out.additionalPorts == LoadBalancerToSpoke(lb).additionalPorts;
    if lb.monitor.Some? {
      var m := lb.monitor.value;
      out := out.(monitor := Some(SpokeMonitor(m.delay, m.timeout, m.maxRetries, m.maxRetriesDown)));
    }
  }

  method ExternalIPsToHubLoop(s: seq<SpokeExternalIP>) returns (ips: seq<HubExternalIP>)
    ensures ips == Map(ExternalIPToHub, s)
  {
    ips := [];
    for i := 0 to |s|
      invariant ips == Map(ExternalIPToHub, s[..i])
    {
      ips := ips + [ExternalIPToHub(s[i])];
    }
    assert s[..|s|] == s;
  }

  method ExternalIPsToSpokeLoop(s: seq<HubExternalIP>) returns (ips: seq<SpokeExternalIP>)
    ensures ips == Map(ExternalIPToSpoke, s)
  {
    ips := [];
    for i := 0 to |s|
      invariant ips == Map(ExternalIPToSpoke, s[..i])
    {
      ips := ips + [ExternalIPToSpoke(s[i])];
    }
    assert s[..|s|] == s;
  }

  /** The block that gathers the flat API server fields. */
  method GatherAPIServer(s: SpokeSpec) returns (api: Option<APIServer>)
    ensures api == ToHub(s).apiServer
  {
    api := None;
    if s.apiServerLoadBalancer.Some? || s.disableAPIServerFloatingIP.Some? || s.apiServerFloatingIP.Some?
       || s.apiServerFixedIP.Some? || s.apiServerPort.Some? {
      var a := APIServer(s.apiServerPort, s.apiServerFixedIP, s.apiServerFloatingIP, None, None);
      if s.disableAPIServerFloatingIP.Some? {
        a := a.(enableFloatingIP := Some(!s.disableAPIServerFloatingIP.value));
      }
      if s.apiServerLoadBalancer.Some? {
        var lb := LoadBalancerToHubLoop(s.apiServerLoadBalancer.value);
        a := a.(managedLoadBalancer := Some(lb));
      }
      api := Some(a);
    }
  }

  /** The block that spreads the API server struct over the flat fields. */
  method SpreadAPIServer(h: HubSpec, into: SpokeSpec) returns (out: SpokeSpec)
    requires into == AutoToSpoke(h).(networkMTU := into.networkMTU, disablePortSecurity := into.disablePortSecurity,
                                     disableExternalNetwork := into.disableExternalNetwork, externalRouterIPs := into.externalRouterIPs)
    ensures var t := ToSpoke(h);
            out == into.(apiServerFloatingIP := t.apiServerFloatingIP, apiServerFixedIP := t.apiServerFixedIP,
                         apiServerPort := t.apiServerPort, disableAPIServerFloatingIP := t.disableAPIServerFloatingIP,
                         apiServerLoadBalancer := t.apiServerLoadBalancer)
  {
    out := into;
    if h.apiServer.Some? {
      var api := h.apiServer.value;
      out := out.(apiServerFloatingIP := api.floatingIP, apiServerFixedIP := api.fixedIP, apiServerPort := api.port);
      if api.enableFloatingIP.Some? {
        out := out.(disableAPIServerFloatingIP := Some(!api.enableFloatingIP.value));
      }
      if api.managedLoadBalancer.Some? {
        var lb := LoadBalancerToSpokeLoop(api.managedLoadBalancer.value);
        out := out.(apiServerLoadBalancer := Some(lb));
      }
    }
  }

  method GatherManagedNetwork(s: SpokeSpec) returns (network: Option<ManagedNetwork>)
    ensures network == ToHub(s).managedNetwork
  {
    network := None;
    if s.networkMTU.Some? || s.disablePortSecurity.Some? {
      var managed := ManagedNetwork(None, None);
      if s.networkMTU.Some? {
        managed := managed.(mtu := Some(ToInt32(s.networkMTU.value)));
      }
      if s.disablePortSecurity.Some? {
        managed := managed.(enablePortSecurity := Some(!s.disablePortSecurity.value));
      }
      network := Some(managed);
    }
  }

  /** Convert_v1beta1_OpenStackClusterSpec_To_v1beta2_OpenStackClusterSpec. */
  method ConvertSpecToHub(s: SpokeSpec) returns (out: HubSpec)
    ensures out == ToHub(s) && SpecAgrees(s, out)
  {
    ToHubAgrees(s);
    out := AutoToHub(s);
    var network := GatherManagedNetwork(s);
    out := out.(managedNetwork := network);
    if s.disableExternalNetwork.Some? {
      out := out.(enableExternalNetwork := Some(!s.disableExternalNetwork.value));
    }
    if |s.externalRouterIPs| > 0 {
      var ips := ExternalIPsToHubLoop(s.externalRouterIPs);
      out := out.(managedRouter := Some(ips));
    }
    var api := GatherAPIServer(s);
    out := out.(apiServer := api);
  }

  /** Convert_v1beta2_OpenStackClusterSpec_To_v1beta1_OpenStackClusterSpec. */
  method ConvertSpecToSpoke(h: HubSpec) returns (out: SpokeSpec)
    ensures out == ToSpoke(h) && SpecAgrees(out, h) && SpecFits(out)
  {
    ToSpokeAgrees(h);
    out := SpreadNetwork(h);
    out := SpreadAPIServer(h, out);
  }

  /** The blocks for the network, the external network and the router. */
  method SpreadNetwork(h: HubSpec) returns (out: SpokeSpec)
    ensures var t := ToSpoke(h);
            out == AutoToSpoke(h).(networkMTU := t.networkMTU, disablePortSecurity := t.disablePortSecurity,
                                   disableExternalNetwork := t.disableExternalNetwork, externalRouterIPs := t.externalRouterIPs)
  {
    out := AutoToSpoke(h);
    if h.managedNetwork.Some? {
      var network := h.managedNetwork.value;
      if network.mtu.Some? {
        out := out.(networkMTU := Some(network.mtu.value));
      }
      if network.enablePortSecurity.Some? {
        out := out.(disablePortSecurity := Some(!network.enablePortSecurity.value));
      }
    }
    if h.enableExternalNetwork.Some? {
      out := out.(disableExternalNetwork := Some(!h.enableExternalNetwork.value));
    }
    if h.managedRouter.Some? {
      var ips := ExternalIPsToSpokeLoop(h.managedRouter.value);
      out := out.(externalRouterIPs := ips);
    }
    assert out.networkMTU == ToSpoke(h).networkMTU && out.disablePortSecurity == ToSpoke(h).disablePortSecurity;
    assert out.externalRouterIPs == ToSpoke(h).externalRouterIPs;
  }
}
