/**
 * Failure domains: a map in v1beta1, a list sorted by name in v1beta2
 * (api/v1beta1/conversion.go), and the list that the cluster controller writes
 * (controllers/openstackcluster_controller.go).
 */
module FailureDomains {
  import opened Common

  datatype Domain = Domain(name: string, controlPlane: Option<bool>, attributes: string)
  /** A domain of v1beta1; its name is its key. */
  datatype DomainSpec = DomainSpec(controlPlane: bool, attributes: string)

  // ---------------------------------------------------------------- the order of names

  /** Go's order on strings. */
  predicate Less(a: string, b: string) {
    b != "" && (a == "" || a[0] < b[0] || (a[0] == b[0] && Less(a[1..], b[1..])))
  }

  lemma {:induction false} LessTotal(a: string, b: string)
    ensures Less(a, b) || a == b || Less(b, a)
    ensures !(Less(a, b) && Less(b, a))
    ensures !Less(a, a)
  {
    if a != "" {
      LessTotal(a[1..], a[1..]);
      if b != "" && a[0] == b[0] {
        LessTotal(a[1..], b[1..]);
        assert a == [a[0]] + a[1..] && b == [b[0]] + b[1..];
      }
    }
  }

  lemma {:induction false} LessTransitive(a: string, b: string, c: string)
    requires Less(a, b) && Less(b, c)
    ensures Less(a, c)
  {
    if a != "" && a[0] == b[0] == c[0] {
      LessTransitive(a[1..], b[1..], c[1..]);
    }
  }

  /** In the order of names, each name at most once. */
  ghost predicate Ascending(s: seq<Domain>) {
    forall i, j :: 0 <= i < j < |s| ==> Less(s[i].name, s[j].name)
  }

  ghost predicate Sorted(s: seq<Domain>) {
    forall i, j :: 0 <= i < j < |s| ==> !Less(s[j].name, s[i].name)
  }

  ghost predicate DistinctNames(s: seq<Domain>) {
    forall i, j :: 0 <= i < j < |s| ==> s[i].name != s[j].name
  }

  lemma AscendingExactly(s: seq<Domain>)
    ensures Ascending(s) <==> Sorted(s) && DistinctNames(s)
  {
    forall i, j | 0 <= i < |s| && 0 <= j < |s|
      ensures Less(s[i].name, s[j].name) || s[i].name == s[j].name || Less(s[j].name, s[i].name)
      ensures !(Less(s[i].name, s[j].name) && Less(s[j].name, s[i].name))
      ensures !Less(s[i].name, s[i].name)
    {
      LessTotal(s[i].name, s[j].name);
    }
  }

  // ---------------------------------------------------------------- sort.Slice by name

  ghost predicate SameDomains(s: seq<Domain>, t: seq<Domain>) {
    |s| == |t| && multiset(s) == multiset(t) && (DistinctNames(s) <==> DistinctNames(t))
  }

  lemma InsertedIsSorted(t: seq<Domain>, x: Domain, k: nat)
    requires Sorted(t) && k <= |t|
    requires forall i :: 0 <= i < k ==> !Less(x.name, t[i].name)
    requires forall i :: k <= i < |t| ==> Less(x.name, t[i].name)
    ensures Sorted(t[..k] + [x] + t[k..])
  {
    var t' := t[..k] + [x] + t[k..];
    forall i | k <= i < |t| ensures !Less(t[i].name, x.name) {
      LessTotal(x.name, t[i].name);
    }
    forall i, j | 0 <= i < j < |t'| ensures !Less(t'[j].name, t'[i].name) {
      assert i != k ==> t'[i] == t[if i < k then i else i - 1];
      assert j != k ==> t'[j] == t[if j < k then j else j - 1];
    }
  }

  lemma InsertedIsSame(s: seq<Domain>, t: seq<Domain>, x: Domain, k: nat)
    requires SameDomains(s, t) && k <= |t|
    ensures SameDomains(s + [x], t[..k] + [x] + t[k..])
  {
    assert t == t[..k] + t[k..];
    NamesOfInserted(t, x, k);
    NamesOfInserted(s, x, |s|);
    assert s[..|s|] + [x] + s[|s|..] == s + [x];
    SameNames(s, t, x);
  }

  lemma NamesOfInserted(t: seq<Domain>, x: Domain, k: nat)
    requires k <= |t|
    ensures DistinctNames(t[..k] + [x] + t[k..]) <==> DistinctNames(t) && forall i :: 0 <= i < |t| ==> t[i].name != x.name
  {
    var t' := t[..k] + [x] + t[k..];
    if DistinctNames(t') {
      assert t'[k] == x;
      forall i | 0 <= i < |t| ensures t[i].name != x.name {
        assert t[i] == t'[if i < k then i else i + 1];
      }
      forall i, j | 0 <= i < j < |t| ensures t[i].name != t[j].name {
        assert t[i] == t'[if i < k then i else i + 1] && t[j] == t'[if j < k then j else j + 1];
      }
    }
  }

  lemma SameNames(s: seq<Domain>, t: seq<Domain>, x: Domain)
    requires multiset(s) == multiset(t)
    ensures (forall i :: 0 <= i < |s| ==> s[i].name != x.name) <==> (forall i :: 0 <= i < |t| ==> t[i].name != x.name)
  {
    forall y ensures y in s <==> y in t {
      assert y in s <==> y in multiset(s);
      assert y in t <==> y in multiset(t);
    }
    if i :| 0 <= i < |s| && s[i].name == x.name {
      assert s[i] in t;
    }
    if i :| 0 <= i < |t| && t[i].name == x.name {
      assert t[i] in s;
    }
  }

  method SortByName(s: seq<Domain>) returns (t: seq<Domain>)
    ensures Sorted(t) && SameDomains(s, t)
  {
    t := [];
    for i := 0 to |s|
      invariant Sorted(t) && SameDomains(s[..i], t)
    {
      var k := PlaceFor(s[i], t);
      InsertedIsSorted(t, s[i], k);
      InsertedIsSame(s[..i], t, s[i], k);
      assert s[..i + 1] == s[..i] + [s[i]];
      t := t[..k] + [s[i]] + t[k..];
    }
    assert s[..|s|] == s;
  }

  /** The last place where a domain fits into a sorted list. */
  method PlaceFor(x: Domain, t: seq<Domain>) returns (k: nat)
    requires Sorted(t)
    ensures k <= |t|
    ensures forall j :: 0 <= j < k ==> !Less(x.name, t[j].name)
    ensures forall j :: k <= j < |t| ==> Less(x.name, t[j].name)
  {
    k := |t|;
    while k > 0 && Less(x.name, t[k - 1].name)
      invariant 0 <= k <= |t|
      invariant forall j :: k <= j < |t| ==> Less(x.name, t[j].name)
    {
      k := k - 1;
    }
    forall j | 0 <= j < k ensures !Less(x.name, t[j].name) {
      if Less(x.name, t[j].name) {
        NotLessAtOrBefore(x.name, t, j, k - 1);
      }
    }
  }

  lemma NotLessAtOrBefore(name: string, t: seq<Domain>, j: nat, k: nat)
    requires Sorted(t) && j <= k < |t| && Less(name, t[j].name)
    ensures Less(name, t[k].name)
  {
    if t[j].name != t[k].name {
      LessTotal(t[j].name, t[k].name);
      LessTransitive(name, t[j].name, t[k].name);
    }
  }

  // ---------------------------------------------------------------- v1beta1 to v1beta2

  function ToDomain(name: string, spec: DomainSpec): Domain {
    Domain(name, Some(spec.controlPlane), spec.attributes)
  }

  /** The list form of a map: its entries, in ascending order. */
  ghost predicate SliceOf(s: seq<Domain>, m: map<string, DomainSpec>) {
    && Ascending(s)
    && (forall i :: 0 <= i < |s| ==> s[i].name in m && s[i] == ToDomain(s[i].name, m[s[i].name]))
    && (forall name :: name in m ==> ToDomain(name, m[name]) in s)
  }

  /** The first domain of a list form has the least name. */
  lemma FirstIsLeast(s: seq<Domain>, m: map<string, DomainSpec>, name: string)
    requires SliceOf(s, m) && name in m
    ensures s != [] && s[0] == ToDomain(s[0].name, m[s[0].name])
    ensures s[0].name == name || Less(s[0].name, name)
  {
    var i :| 0 <= i < |s| && s[i] == ToDomain(name, m[name]);
    assert i > 0 ==> Less(s[0].name, s[i].name);
  }

  lemma SameFirst(s: seq<Domain>, t: seq<Domain>, m: map<string, DomainSpec>)
    requires SliceOf(s, m) && SliceOf(t, m) && s != []
    ensures t != [] && s[0] == t[0]
  {
    FirstIsLeast(t, m, s[0].name);
    FirstIsLeast(s, m, t[0].name);
    LessTotal(s[0].name, t[0].name);
  }

  lemma SameFirstAndRest(s: seq<Domain>, t: seq<Domain>)
    requires s != [] && t != [] && s[0] == t[0] && s[1..] == t[1..]
    ensures s == t
  {
    assert s == [s[0]] + s[1..] && t == [t[0]] + t[1..];
  }

  /** A map has one list form only. */
  lemma {:induction false} SliceUnique(s: seq<Domain>, t: seq<Domain>, m: map<string, DomainSpec>)
    requires SliceOf(s, m) && SliceOf(t, m)
    ensures s == t
    decreases |s|
  {
    if s != [] {
      SameFirst(s, t, m);
      TailSlice(s, m);
      TailSlice(t, m);
      SliceUnique(s[1..], t[1..], m - {s[0].name});
      SameFirstAndRest(s, t);
    } else if t != [] {
      SameFirst(t, s, m);
    }
  }

  lemma TailSlice(s: seq<Domain>, m: map<string, DomainSpec>)
    requires SliceOf(s, m) && s != []
    ensures SliceOf(s[1..], m - {s[0].name})
  {
    AscendingExactly(s);
    var m' := m - {s[0].name};
    forall name | name in m' ensures ToDomain(name, m'[name]) in s[1..] {
      var i :| 0 <= i < |s| && s[i] == ToDomain(name, m[name]);
      assert s[1..][i - 1] == s[i];
    }
  }

  /**
   * The loop over the map, in any order, then the sort: the result is the list form of the map,
   * hence the same for every order.
   */
  method ToSlice(m: map<string, DomainSpec>) returns (out: seq<Domain>)
    ensures SliceOf(out, m)
    ensures forall i :: 0 <= i < |out| ==>
              out[i].name in m && out[i].controlPlane == Some(m[out[i].name].controlPlane) && out[i].attributes == m[out[i].name].attributes
    ensures forall name :: name in m ==> exists i :: 0 <= i < |out| && out[i].name == name
  {
    var todo := m.Keys;
    var listed: seq<Domain> := [];
    while todo != {}
      invariant todo <= m.Keys
      invariant DistinctNames(listed)
      invariant forall i :: 0 <= i < |listed| ==> listed[i].name in m.Keys - todo && listed[i] == ToDomain(listed[i].name, m[listed[i].name])
      invariant forall name :: name in m.Keys - todo ==> ToDomain(name, m[name]) in listed
      decreases todo
    {
      var name :| name in todo;
      listed := listed + [Domain(name, Some(m[name].controlPlane), m[name].attributes)];
      todo := todo - {name};
    }
    out := SortByName(listed);
    AscendingExactly(out);
    forall x ensures x in out <==> x in listed {
      assert x in out <==> x in multiset(out);
      assert x in listed <==> x in multiset(listed);
    }
    forall i | 0 <= i < |out| ensures out[i].name in m && out[i] == ToDomain(out[i].name, m[out[i].name]) {
      assert out[i] in listed;
    }
    forall name | name in m ensures exists i :: 0 <= i < |out| && out[i].name == name {
      var i :| 0 <= i < |out| && out[i] == ToDomain(name, m[name]);
      assert out[i].name == name;
    }
  }

  // ---------------------------------------------------------------- v1beta2 to v1beta1

  /** The map form of a list. Of several domains with one name, the last counts. */
  function ToMap(s: seq<Domain>): map<string, DomainSpec> {
    if s == [] then map[]
    else
      var last := s[|s| - 1];
      ToMap(s[..|s| - 1])[last.name := DomainSpec(last.controlPlane.GetOr(false), last.attributes)]
  }

  method ToMapLoop(s: seq<Domain>) returns (m: map<string, DomainSpec>)
    ensures m == ToMap(s)
  {
    m := map[];
    for i := 0 to |s|
      invariant m == ToMap(s[..i])
    {
      m := m[s[i].name := DomainSpec(s[i].controlPlane.GetOr(false), s[i].attributes)];
      assert s[..i + 1][..i] == s[..i];
    }
    assert s[..|s|] == s;
  }

  lemma {:induction false} ToMapFacts(s: seq<Domain>)
    ensures forall name :: name in ToMap(s) ==> exists i :: 0 <= i < |s| && s[i].name == name
    ensures forall i :: 0 <= i < |s| ==> s[i].name in ToMap(s)
    ensures DistinctNames(s) ==>
              forall i :: 0 <= i < |s| ==> ToMap(s)[s[i].name] == DomainSpec(s[i].controlPlane.GetOr(false), s[i].attributes)
  {
    if s != [] {
      var n := |s| - 1;
      ToMapFacts(s[..n]);
      forall name | name in ToMap(s) ensures exists i :: 0 <= i < |s| && s[i].name == name {
        if name == s[n].name {
          assert s[n].name == name;
        } else {
          var i :| 0 <= i < n && s[..n][i].name == name;
          assert s[i].name == name;
        }
      }
      forall i | 0 <= i < |s| ensures s[i].name in ToMap(s) {
        assert i < n ==> s[..n][i].name in ToMap(s[..n]);
      }
      if DistinctNames(s) {
        forall i | 0 <= i < |s| ensures ToMap(s)[s[i].name] == DomainSpec(s[i].controlPlane.GetOr(false), s[i].attributes) {
          assert i < n ==> s[..n][i] == s[i] && s[i].name != s[n].name;
        }
      }
    }
  }

  /** Of several domains with one name, the last counts; a missing controlPlane reads as false. */
  lemma {:induction false} LastCounts(s: seq<Domain>, i: nat)
    requires i < |s| && forall j :: i < j < |s| ==> s[j].name != s[i].name
    ensures s[i].name in ToMap(s) && ToMap(s)[s[i].name] == DomainSpec(s[i].controlPlane == Some(true), s[i].attributes)
  {
    var n := |s| - 1;
    if i < n {
      assert s[n].name != s[i].name;
      LastCounts(s[..n], i);
    }
  }

  /** Map to list to map is the identity. */
  lemma MapRoundTrip(s: seq<Domain>, m: map<string, DomainSpec>)
    requires SliceOf(s, m)
    ensures ToMap(s) == m
  {
    AscendingExactly(s);
    ToMapFacts(s);
    forall name ensures name in ToMap(s) <==> name in m {
      if name in m {
        assert ToDomain(name, m[name]) in s;
      }
    }
  }

  ghost predicate ControlPlanesSet(s: seq<Domain>) {
    forall i :: 0 <= i < |s| ==> s[i].controlPlane.Some?
  }

  /** A list comes back from list to map to list exactly if it is ascending and says of each domain whether it is for control planes. */
  lemma SliceRoundTripExactly(s: seq<Domain>)
    ensures SliceOf(s, ToMap(s)) <==> Ascending(s) && ControlPlanesSet(s)
  {
    ToMapFacts(s);
    AscendingExactly(s);
    if Ascending(s) && ControlPlanesSet(s) {
      forall name | name in ToMap(s) ensures ToDomain(name, ToMap(s)[name]) in s {
        var i :| 0 <= i < |s| && s[i].name == name;
        assert s[i] == ToDomain(name, ToMap(s)[name]);
      }
    }
  }

  // ---------------------------------------------------------------- what the cluster controller writes

  /** The domain the controller makes of a zone. */
  function ZoneDomain(zone: string, omit: Option<bool>, controlPlaneZones: seq<string>): Domain {
    Domain(zone, Some(if controlPlaneZones != [] then zone in controlPlaneZones else !omit.GetOr(false)), "")
  }

  method Contains(names: seq<string>, target: string) returns (found: bool)
    ensures found <==> target in names
  {
    for i := 0 to |names|
      invariant target !in names[..i]
    {
      if names[i] == target {
        return true;
      }
    }
    return false;
  }

  /** Written only while there are none; then one domain for each zone, in the order of names. */
  method ReconcileFailureDomains(current: seq<Domain>, zones: seq<string>, omit: Option<bool>, controlPlaneZones: seq<string>)
    returns (domains: seq<Domain>)
    ensures current != [] ==> domains == current
    ensures current == [] ==> Sorted(domains) && multiset(domains) == multiset(Listed(zones, omit, controlPlaneZones))
    ensures current == [] ==> |domains| == |zones| && forall zone :: zone in zones ==>
              Domain(zone, Some(if controlPlaneZones == [] then omit != Some(true) else zone in controlPlaneZones), "") in domains
    ensures current == [] ==> forall i :: 0 <= i < |domains| ==> domains[i].name in zones
    ensures current == [] ==> (SliceOf(domains, ToMap(domains)) <==> NoDup(zones))
  {
    domains := current;
    if |current| == 0 {
      for i := 0 to |zones|
        invariant domains == Listed(zones[..i], omit, controlPlaneZones)
      {
        var found := !omit.GetOr(false);
        if |controlPlaneZones| > 0 {
          found := Contains(controlPlaneZones, zones[i]);
        }
        domains := domains + [Domain(zones[i], Some(found), "")];
      }
      assert zones[..|zones|] == zones;
      domains := SortByName(domains);
      WrittenRoundTripExactly(domains, zones, omit, controlPlaneZones);
      EveryZoneIsListed(domains, zones, omit, controlPlaneZones);
    }
  }

  /** A zone is for control planes if it is among those named for them, or, if none are named, unless that is switched off. */
  lemma EveryZoneIsListed(domains: seq<Domain>, zones: seq<string>, omit: Option<bool>, controlPlaneZones: seq<string>)
    requires SameDomains(Listed(zones, omit, controlPlaneZones), domains)
    ensures forall zone :: zone in zones ==>
              Domain(zone, Some(if controlPlaneZones == [] then omit != Some(true) else zone in controlPlaneZones), "") in domains
    ensures forall i :: 0 <= i < |domains| ==> domains[i].name in zones
  {
    var listed := Listed(zones, omit, controlPlaneZones);
    forall zone | zone in zones ensures ZoneDomain(zone, omit, controlPlaneZones) in domains {
      var k :| 0 <= k < |zones| && zones[k] == zone;
      assert listed[k] in multiset(listed) && listed[k] in multiset(domains);
    }
    forall i | 0 <= i < |domains| ensures domains[i].name in zones {
      assert domains[i] in multiset(domains) && domains[i] in multiset(listed);
    }
  }

  ghost function Listed(zones: seq<string>, omit: Option<bool>, controlPlaneZones: seq<string>): seq<Domain> {
    seq(|zones|, i requires 0 <= i < |zones| => ZoneDomain(zones[i], omit, controlPlaneZones))
  }

  /** What the controller writes survives list to map to list exactly if the zones have distinct names. */
  lemma WrittenRoundTripExactly(domains: seq<Domain>, zones: seq<string>, omit: Option<bool>, controlPlaneZones: seq<string>)
    requires Sorted(domains) && SameDomains(Listed(zones, omit, controlPlaneZones), domains)
    ensures SliceOf(domains, ToMap(domains)) <==> NoDup(zones)
  {
    var listed := Listed(zones, omit, controlPlaneZones);
    SliceRoundTripExactly(domains);
    AscendingExactly(domains);
    assert DistinctNames(listed) <==> NoDup(zones) by {
      assert forall i :: 0 <= i < |zones| ==> listed[i].name == zones[i];
    }
    forall i | 0 <= i < |domains| ensures domains[i].controlPlane.Some? {
      assert domains[i] in multiset(domains) && domains[i] in multiset(listed);
    }
  }

  /** Over any number of reconciles, whatever zones each one sees, the first non-empty list stays. */
  method Run(zones: seq<seq<string>>, omit: Option<bool>, controlPlaneZones: seq<string>) returns (seen: seq<seq<Domain>>)
    ensures |seen| == |zones|
    ensures forall i, j :: 0 <= i < j < |seen| && seen[i] != [] ==> seen[j] == seen[i]
  {
    var current: seq<Domain> := [];
    seen := [];
    for i := 0 to |zones|
      invariant |seen| == i
      invariant forall k :: 0 <= k < i && seen[k] != [] ==> current == seen[k]
      invariant forall k, j :: 0 <= k < j < i && seen[k] != [] ==> seen[j] == seen[k]
    {
      current := ReconcileFailureDomains(current, zones[i], omit, controlPlaneZones);
      seen := seen + [current];
    }
  }
}
