/**
 * The OpenStackFloatingIPPool controller
 * (controllers/openstackfloatingippool_controller.go) together with the API server and
 * the part of OpenStack it talks to.
 *
 * Every call to the API server or to OpenStack may fail, and may fail after having taken
 * effect. A crash is a failure of the next call after which the closing patch does not
 * happen either. Users act in between (method Interfere).
 */
module PoolController {
  import opened Common
  import opened PoolAllocation

  type Name = string

  /** The claim refers to the IPAddress of its own name. */
  function Bind(claims: map<Name, Claim>, name: Name): map<Name, Claim>
    requires name in claims
  {
    claims[name := claims[name].(addressRef := name)]
  }

  /** A claim that is to be given an address. */
  predicate Waiting(claim: Claim) {
    !claim.deleting && claim.addressRef == ""
  }

  /** Of the listed claims, those waiting are bound, to IPAddress objects that exist, and the others are as they were. */
  ghost predicate Served(listed: map<Name, Claim>, now: map<Name, Claim>, ips: map<Name, IPAddress>) {
    && now.Keys == listed.Keys
    && forall n :: n in listed ==>
         if !listed[n].deleting && listed[n].addressRef == "" then now[n] == Claim(false, n) && n in ips else now[n] == listed[n]
  }

  datatype ReclaimPolicy = Delete | Retain
  datatype IPAddress = IPAddress(address: Address, deleting: bool, hasFinalizer: bool)
  datatype Claim = Claim(deleting: bool, addressRef: string)

  /** What an observer sees after an effect: the IPAddress objects and the floating IPs (true = pool tag). */
  datatype Snapshot = Snapshot(ipAddresses: map<Name, IPAddress>, fips: map<Address, bool>)

  /** A deletion in OpenStack, with the preallocated addresses and those of live IPAddress objects at that moment. */
  datatype Deletion = Deletion(address: Address, preallocated: seq<Address>, live: set<Address>)

  /** A creation in OpenStack, with the pool's lists and the tagged floating IPs at that moment. */
  datatype Creation = Creation(address: Address, available: seq<Address>, claimed: seq<Address>, tagged: set<Address>)

  ghost function AddressesFrom(log: seq<Deletion>, from: nat): set<Address> {
    set i | from <= i < |log| :: log[i].address
  }

  lemma LogGrows(log: seq<Deletion>, entry: Deletion, from: nat)
    requires from <= |log|
    ensures AddressesFrom(log + [entry], from) == AddressesFrom(log, from) + {entry.address}
  {
    var longer := log + [entry];
    assert longer[|log|] == entry;
    assert forall i :: from <= i < |log| ==> log[i] == longer[i];
  }

  lemma LogSplits(log: seq<Deletion>, between: nat, from: nat)
    requires from <= between <= |log|
    ensures AddressesFrom(log, from) == AddressesFrom(log[..between], from) + AddressesFrom(log, between)
  {
    assert forall i :: 0 <= i < between ==> log[..between][i] == log[i];
  }

  /** All addresses that users created since a log of such events had a given length. */
  ghost function MadeFrom(log: seq<set<Address>>, from: nat): set<Address> {
    set i, a | from <= i < |log| && a in log[i] :: a
  }

  lemma MadeGrows(log: seq<set<Address>>, longer: seq<set<Address>>, from: nat, later: nat)
    requires log <= longer && from <= later
    ensures MadeFrom(log, from) <= MadeFrom(longer, from)
    ensures MadeFrom(longer, later) <= MadeFrom(longer, from)
  {
    forall a | a in MadeFrom(log, from) ensures a in MadeFrom(longer, from) {
      var i :| from <= i < |log| && a in log[i];
      assert longer[i] == log[i];
    }
  }

  lemma MadeNow(log: seq<set<Address>>, addresses: set<Address>)
    ensures MadeFrom(log + [addresses], |log|) == addresses
  {
    assert (log + [addresses])[|log|] == addresses;
  }

  /** A live IPAddress holds its address, and a deleting one does until the controller's finalizer is gone. */
  predicate Holds(ip: IPAddress) {
    !ip.deleting || ip.hasFinalizer
  }

  /** No two IPAddress objects hold one address; in particular, no two live ones have the same. */
  ghost predicate UniqueHolders(ips: map<Name, IPAddress>) {
    forall n, m :: n in ips && m in ips && n != m && Holds(ips[n]) && Holds(ips[m]) ==> ips[n].address != ips[m].address
  }

  ghost function Live(ips: map<Name, IPAddress>): set<Address> {
    set n | n in ips && !ips[n].deleting :: ips[n].address
  }

  ghost function Tagged(fips: map<Address, bool>): set<Address> {
    set a | a in fips && fips[a]
  }

  /**
   * What users may do to IPAddress objects: delete them. They neither create nor retarget nor undelete
   * one, nor put the controller's finalizer back.
   */
  predicate Later(before: map<Name, IPAddress>, after: map<Name, IPAddress>) {
    forall n :: n in after ==>
      && n in before
      && after[n].address == before[n].address
      && (before[n].deleting ==> after[n].deleting)
      && (after[n].hasFinalizer ==> before[n].hasFinalizer)
  }

  lemma LaterKeepsUnique(before: map<Name, IPAddress>, after: map<Name, IPAddress>)
    requires UniqueHolders(before) && Later(before, after)
    ensures UniqueHolders(after)
  {
    forall n, m | n in after && m in after && n != m && Holds(after[n]) && Holds(after[m])
      ensures after[n].address != after[m].address
    {
      assert n in before && m in before;
    }
  }

  /** What a listed, deleting IPAddress still held when it was listed, no live one has. */
  lemma HolderIsAlone(listed: map<Name, IPAddress>, now: map<Name, IPAddress>, n: Name)
    requires UniqueHolders(listed) && Later(listed, now)
    requires n in listed && listed[n].deleting && listed[n].hasFinalizer
    ensures listed[n].address !in Live(now)
  {
    if m :| m in now && !now[m].deleting && now[m].address == listed[n].address {
      assert m in listed && Holds(listed[m]);
    }
  }

  method EnumerateNames(s: set<Name>) returns (r: seq<Name>)
    ensures NoDup(r) && Elems(r) == s
  {
    r := Enumerate(s);
  }

  class Controller {
    /** ptr.Deref(pool.Spec.MaxIPs, -1) */
    const maxIPs: int
    /** Every address looked up exists in OpenStack, and no address is the empty string. */
    const reliable: bool
    /** Users do nothing. */
    const quiet: bool
    /** No call fails, and an address can be created. */
    const faultless: bool

    // API server
    var ipAddresses: map<Name, IPAddress>
    var claims: map<Name, Claim>
    var preallocated: seq<Address>
    var policy: ReclaimPolicy
    var poolDeleting: bool
    var poolFinalizer: bool
    var stored: Status

    // OpenStack: the floating IPs, true for those that carry the tag of this pool
    var fips: map<Address, bool>

    // the copy of the pool that a reconcile works on
    var status: Status

    ghost var history: seq<Snapshot>
    ghost var deletions: seq<Deletion>
    ghost var creations: seq<Creation>
    /** The addresses that users created, one set for each time they acted. */
    ghost var made: seq<set<Address>>

    /** Nothing disturbs a reconcile; lookups may find that an address does not exist. */
    ghost predicate Smooth() {
      quiet && faultless && !reliable
    }

    ghost predicate Safe(s: Snapshot) {
      && UniqueHolders(s.ipAddresses)
      && (reliable && 0 <= maxIPs ==> |Tagged(s.fips)| <= maxIPs)
    }

    /**
     * The state after every effect so far was safe, and no address was ever deleted that was
     * preallocated or that a live IPAddress had. If every lookup finds its address, one was created
     * only with nothing available and every tagged address claimed.
     */
    ghost predicate SafeRun()
      reads this`history, this`deletions, this`creations
    {
      && (forall i :: 0 <= i < |history| ==> Safe(history[i]))
      && (forall i :: 0 <= i < |deletions| ==> deletions[i].address !in deletions[i].preallocated)
      && (forall i :: 0 <= i < |deletions| ==> deletions[i].address !in deletions[i].live)
      && (reliable ==> forall i :: 0 <= i < |creations| ==>
            creations[i].available == [] && creations[i].tagged <= Elems(creations[i].claimed))
    }

    ghost predicate World()
      reads this`ipAddresses, this`fips, this`preallocated, this`stored
    {
      && Safe(Snapshot(ipAddresses, fips))
      && (reliable ==>
            && "" !in fips
            && "" !in preallocated
            && "" !in stored.available
            && (forall n :: n in ipAddresses ==> ipAddresses[n].address != ""))
    }

    /** The world is in order, all earlier states were, and the history ends with the world as it is. */
    ghost predicate Inv()
      reads this`ipAddresses, this`fips, this`preallocated, this`stored, this`history, this`deletions, this`creations
    {
      World() && SafeRun() && history != [] && history[|history| - 1] == Current()
    }

    /** Holds of the working copy once reconcileIPAddresses has succeeded, and through every getIP. */
    ghost predicate Rebuilt()
      reads this`status, this`ipAddresses
    {
      && Separated(status)
      && (forall n :: n in ipAddresses && Holds(ipAddresses[n]) ==> ipAddresses[n].address in status.claimed)
      && (reliable ==> "" !in status.available)
    }

    constructor (maxIPs: int, preallocated: seq<Address>, policy: ReclaimPolicy, existing: set<Address>, reliable: bool,
                 quiet: bool, faultless: bool)
      requires reliable ==> "" !in preallocated && "" !in existing
      ensures Inv() && deletions == [] && creations == [] && ipAddresses == map[]
      ensures this.maxIPs == maxIPs && this.reliable == reliable
    {
      this.maxIPs := maxIPs;
      this.reliable, this.quiet, this.faultless := reliable, quiet, faultless;
      this.preallocated := preallocated;
      this.policy := policy;
      ipAddresses, claims := map[], map[];
      poolDeleting, poolFinalizer := false, false;
      stored := Status([], [], [], false);
      status := Status([], [], [], false);
      fips := map a | a in existing :: false;
      history := [Snapshot(map[], map a | a in existing :: false)];
      deletions, creations, made := [], [], [];
    }

    ghost function Current(): Snapshot
      reads this`ipAddresses, this`fips
    {
      Snapshot(ipAddresses, fips)
    }

    /** Every effect is recorded: the records only grow. */
    twostate predicate Extends()
      reads this`history, this`deletions, this`creations, this`made
    {
      && old(history) <= history && old(deletions) <= deletions
      && old(creations) <= creations && old(made) <= made
    }

    /** What users have created since. */
    ghost function MadeSince(from: nat): set<Address>
      reads this`made
    {
      MadeFrom(made, from)
    }

    ghost method Record()
      requires World() && SafeRun()
      modifies this`history
      ensures Inv() && history == old(history) + [Current()]
    {
      history := history + [Current()];
    }

    /** The addresses deleted in OpenStack since the log had a given length. */
    ghost function DeletedSince(from: nat): set<Address>
      reads this`deletions
    {
      AddressesFrom(deletions, from)
    }

    // -------------------------------------------------------------- the environment

    /** Users delete IPAddress objects, change claims, and change floating IPs without using the pool's tag. */
    method Interfere()
      requires Inv()
      modifies this`ipAddresses, this`claims, this`fips, this`history, this`made
      ensures Inv() && Extends()
      ensures Later(old(ipAddresses), ipAddresses) && (old(Rebuilt()) ==> Rebuilt())
      ensures Tagged(fips) <= Tagged(old(fips))
      ensures fips.Keys <= old(fips).Keys + MadeSince(|old(made)|)
      ensures Undisturbed() && (quiet ==> fips == old(fips))
    {
      if !quiet {
        var newClaims: map<Name, Claim> := *;
        claims := newClaims;
        EditIPAddresses();
        EditFloatingIPs();
      }
    }

    /** Users have left IPAddress objects and claims alone, if that is what they do. */
    twostate predicate Undisturbed()
      reads this`ipAddresses, this`claims
    {
      quiet ==> ipAddresses == old(ipAddresses) && claims == old(claims)
    }

    method EditIPAddresses()
      requires Inv()
      modifies this`ipAddresses, this`history
      ensures Inv() && Extends() && (old(Rebuilt()) ==> Rebuilt())
      ensures Later(old(ipAddresses), ipAddresses)
    {
      var ips: map<Name, IPAddress> := *;
      if Later(ipAddresses, ips) {
        LaterKeepsUnique(ipAddresses, ips);
        ipAddresses := ips;
        Record();
      }
    }

    method EditFloatingIPs()
      requires Inv()
      modifies this`fips, this`made, this`history
      ensures Inv() && Extends()
      ensures Tagged(fips) <= Tagged(old(fips))
      ensures fips.Keys <= old(fips).Keys + MadeSince(|old(made)|)
    {
      var fs: map<Address, bool> := *;
      if (forall a :: a in fs && fs[a] ==> a in fips && fips[a]) && "" !in fs {
        SubsetCardinality(Tagged(fs), Tagged(fips));
        MadeNow(made, fs.Keys - fips.Keys);
        made := made + [fs.Keys - fips.Keys];
        fips := fs;
        Record();
      }
    }

    /** Users edit the pool between reconciles; MaxIPs stays as it is. */
    method EditPool(preallocated: seq<Address>, policy: ReclaimPolicy, delete: bool)
      requires Inv() && (reliable ==> "" !in preallocated)
      modifies this`preallocated, this`policy, this`poolDeleting
      ensures Inv()
    {
      this.preallocated := preallocated;
      this.policy := policy;
      poolDeleting := poolDeleting || delete;
    }

    /** networkingService.DeleteFloatingIP: succeeds on an address that is already gone. */
    method DeleteFloatingIP(a: Address) returns (ok: bool)
      requires Inv() && a !in preallocated && a !in Live(ipAddresses)
      modifies this`fips, this`history, this`deletions
      ensures Inv() && Extends()
      ensures ok ==> a !in fips && deletions == old(deletions) + [Deletion(a, preallocated, Live(ipAddresses))]
      ensures fips == old(fips) || fips == old(fips) - {a}
      ensures deletions == old(deletions) || deletions == old(deletions) + [Deletion(a, preallocated, Live(ipAddresses))]
      ensures fips != old(fips) ==> deletions != old(deletions)
      ensures faultless ==> ok
    {
      ok := *;
      ok := ok || faultless;
      var effect: bool := *;
      if ok || effect {
        assert Tagged(fips - {a}) <= Tagged(fips);
        SubsetCardinality(Tagged(fips - {a}), Tagged(fips));
        fips := fips - {a};
        deletions := deletions + [Deletion(a, preallocated, Live(ipAddresses))];
        Record();
      }
    }

    /**
     * Client.Update of an IPAddress from which the controller's finalizer has been removed. The API
     * server removes a deleting object with its last finalizer.
     */
    method UpdateIPAddress(n: Name) returns (ok: bool)
      requires Inv()
      modifies this`ipAddresses, this`history
      ensures Inv() && Extends()
      ensures Later(old(ipAddresses), ipAddresses)
      ensures ok ==> n in old(ipAddresses) && (n in ipAddresses ==> !ipAddresses[n].hasFinalizer)
      ensures faultless && n in old(ipAddresses) ==> ok
      ensures forall m :: m in old(ipAddresses) && m != n ==> m in ipAddresses
    {
      ok := *;
      ok := ok || faultless;
      var effect: bool := *;
      if n !in ipAddresses {
        ok := false;
      } else if ok || effect {
        var last: bool := *;
        ghost var before := ipAddresses;
        ipAddresses := if last && ipAddresses[n].deleting then ipAddresses - {n}
                       else ipAddresses[n := ipAddresses[n].(hasFinalizer := false)];
        LaterKeepsUnique(before, ipAddresses);
        Record();
      }
    }

    /** Client.Create of an IPAddress for a claim. */
    method CreateIPAddress(n: Name, a: Address) returns (ok: bool)
      requires Inv()
      requires forall m :: m in ipAddresses && Holds(ipAddresses[m]) ==> ipAddresses[m].address != a
      requires reliable ==> a != ""
      modifies this`ipAddresses, this`history
      ensures Inv() && Extends()
      ensures ipAddresses == old(ipAddresses) || ipAddresses == old(ipAddresses)[n := IPAddress(a, false, true)]
      ensures ok ==> n in ipAddresses
      ensures faultless && n !in old(ipAddresses) ==> ok
    {
      ok := *;
      ok := ok || faultless;
      var effect: bool := *;
      if n in ipAddresses {
        ok := false;
      } else if ok || effect {
        ipAddresses := ipAddresses[n := IPAddress(a, false, true)];
        Record();
      }
    }

    /** networkingService.GetFloatingIPsByTag: all floating IPs that carry the tag. */
    method GetFloatingIPsByTag() returns (r: Result<seq<Address>>)
      ensures r.Ok? ==> Elems(r.value) == Tagged(fips)
      ensures faultless ==> r.Ok?
    {
      var fail: bool := *;
      if fail && !faultless {
        return Err;
      }
      var l := Enumerate(set a | a in fips && fips[a]);
      r := Ok(l);
    }

    /** networkingService.GetFloatingIP, reduced to whether an entry for the address exists. */
    method GetFloatingIP(a: Address) returns (r: Result<bool>)
      ensures r.Ok? ==> r.value == (a in fips)
      ensures reliable ==> r != Ok(false)
      ensures faultless && !reliable ==> r.Ok?
    {
      var fail: bool := *;
      r := if (fail && !faultless) || (reliable && a !in fips) then Err else Ok(a in fips);
    }

    /**
     * networkingService.CreateFloatingIPForPool. A call that fails may leave an untagged floating IP
     * behind. The address is new: neither in OpenStack nor listed by the pool.
     */
    method CreateFloatingIPForPool() returns (r: Result<Address>)
      requires Inv() && status.hasNetwork
      requires reliable ==> status.available == [] && Tagged(fips) <= Elems(status.claimed)
      modifies this`fips, this`history, this`creations
      ensures Inv() && Extends()
      ensures Tagged(fips) == Tagged(old(fips))
      ensures creations == old(creations) ==> fips == old(fips)
      ensures creations != old(creations) ==>
                var a := creations[|creations| - 1].address;
                && a != "" && a !in old(fips) && a !in status.available && a !in status.claimed
                && creations == old(creations) + [Creation(a, status.available, status.claimed, Tagged(old(fips)))]
                && fips == old(fips)[a := false]
      ensures r.Ok? ==> creations != old(creations) && r.value == creations[|creations| - 1].address
      ensures faultless ==> r.Ok?
    {
      var a := NewAddress();
      if a.Err? {
        return Err;
      }
      var fail: bool := *;
      fail := fail && !faultless;
      var effect: bool := *;
      if !fail || effect {
        AddFloatingIP(a.value);
      }
      r := if fail then Err else a;
    }

    /** An address that Neutron may give out next. */
    method NewAddress() returns (r: Result<Address>)
      ensures r.Ok? ==> r.value != "" && r.value !in fips && r.value !in status.available && r.value !in status.claimed
      ensures faultless ==> r.Ok?
    {
      var a: Address := *;
      if a !in fips && a !in status.available && a !in status.claimed && a != "" {
        return Ok(a);
      }
      if !faultless {
        return Err;
      }
      a := FreshText(fips.Keys + (set x | x in status.available + status.claimed));
      r := Ok(a);
    }

    method AddFloatingIP(a: Address)
      requires Inv() && a != "" && a !in fips
      requires reliable ==> status.available == [] && Tagged(fips) <= Elems(status.claimed)
      modifies this`fips, this`history, this`creations
      ensures Inv() && Extends()
      ensures Tagged(fips) == Tagged(old(fips)) && fips == old(fips)[a := false]
      ensures creations == old(creations) + [Creation(a, status.available, status.claimed, Tagged(old(fips)))]
    {
      ghost var before := Tagged(fips);
      creations := creations + [Creation(a, status.available, status.claimed, before)];
      fips := fips[a := false];
      assert Tagged(fips) == before;
      Record();
    }

    /** networkingService.TagFloatingIP; a failure is only logged. */
    method TagFloatingIP(a: Address)
      requires Inv()
      requires reliable && 0 <= maxIPs ==> |Tagged(fips)| < maxIPs
      modifies this`fips, this`history
      ensures Inv() && Extends()
      ensures Tagged(fips) <= Tagged(old(fips)) + {a} && fips.Keys == old(fips).Keys
      ensures faultless && a in fips ==> a in Tagged(fips)
    {
      var effect: bool := *;
      if (effect || faultless) && a in fips {
        ghost var before := Tagged(fips);
        fips := fips[a := true];
        assert Tagged(fips) == before + {a};
        Record();
      }
    }

    // -------------------------------------------------------------- the controller

    method ReconcileIPAddresses() returns (ok: bool)
      requires Inv() && (reliable ==> "" !in status.available)
      modifies this`ipAddresses, this`claims, this`fips, this`history, this`made, this`deletions, this`status
      ensures Inv() && Extends()
      ensures status.hasNetwork == old(status.hasNetwork) && status.failed == old(status.failed)
      ensures reliable ==> "" !in status.available
      ensures ok ==> Rebuilt() && Elems(status.available) !! Elems(status.failed)
      ensures ok ==> forall a :: (a in old(status).available || a in preallocated) && a !in status.claimed && a !in status.failed ==>
                a in status.available
      ensures old(ipAddresses) == map[] ==> ipAddresses == map[] && deletions == old(deletions)
      ensures ok && old(ipAddresses) == map[] ==>
                Elems(status.available) == Refreshed(Elems(old(status).available), Elems(preallocated), Elems(status.failed))
      ensures quiet ==> claims == old(claims)
      ensures Smooth() ==> ok
    {
      ok := CollectListed();
      if ok {
        RebuildAvailable();
      }
    }

    method CollectListed() returns (ok: bool)
      requires Inv() && (reliable ==> "" !in status.available)
      modifies this`ipAddresses, this`claims, this`fips, this`history, this`made, this`deletions, this`status
      ensures Inv() && Extends()
      ensures status.hasNetwork == old(status.hasNetwork) && status.failed == old(status.failed)
      ensures reliable ==> "" !in status.available
      ensures ok ==> forall n :: n in ipAddresses && Holds(ipAddresses[n]) ==> ipAddresses[n].address in status.claimed
      ensures old(ipAddresses) == map[] ==> ipAddresses == map[] && deletions == old(deletions)
      ensures old(ipAddresses) == map[] && ok ==> status == old(status).(claimed := [])
      ensures forall a :: a in old(status).available ==> a in status.available
      ensures quiet ==> claims == old(claims)
      ensures Smooth() ==> ok
    {
      Interfere();
      ok := *;
      ok := ok || faultless;
      if ok {
        status := status.(claimed := []);
        var names := EnumerateNames(ipAddresses.Keys);
        ok := CollectAddresses(ipAddresses, names);
      }
    }

    /** The loop over the listed IPAddress objects: live ones are claimed, deleting ones released. */
    method CollectAddresses(items: map<Name, IPAddress>, names: seq<Name>) returns (ok: bool)
      requires Inv() && items == ipAddresses && Elems(names) == items.Keys && NoDup(names)
      requires reliable ==> "" !in status.available
      modifies this`ipAddresses, this`claims, this`fips, this`history, this`made, this`deletions, this`status
      ensures Inv() && Extends()
      ensures status.hasNetwork == old(status.hasNetwork) && status.failed == old(status.failed)
      ensures reliable ==> "" !in status.available
      ensures ok ==> forall n :: n in ipAddresses && Holds(ipAddresses[n]) ==> ipAddresses[n].address in status.claimed
      ensures items == map[] ==> status == old(status) && ipAddresses == map[] && deletions == old(deletions)
      ensures forall a :: a in old(status).available ==> a in status.available
      ensures quiet ==> claims == old(claims)
      ensures Smooth() ==> ok
    {
      assert names != [] ==> names[0] in Elems(names);
      assert forall k :: 0 <= k < |names| ==> names[k] in Elems(names);
      for i := 0 to |names|
        invariant Inv() && Extends()
        invariant names == [] ==> status == old(status) && ipAddresses == old(ipAddresses) && deletions == old(deletions)
        invariant forall a :: a in old(status).available ==> a in status.available
        invariant status.hasNetwork == old(status.hasNetwork) && status.failed == old(status.failed)
        invariant UniqueHolders(items) && Later(items, ipAddresses)
        invariant forall k :: 0 <= k < i ==> Settled(names[k], items)
        invariant quiet ==> claims == old(claims) && forall k :: i <= k < |names| ==> names[k] in ipAddresses
        invariant reliable ==> "" !in status.available
      {
        assert names[i] in Elems(names);
        label before:
        ok := CollectOne(names[i], items);
        if !ok {
          return;
        }
        forall k | 0 <= k < i ensures Settled(names[k], items) {
          assert old@before(Settled(names[k], items));
        }
      }
      ok := true;
      forall n | n in ipAddresses && Holds(ipAddresses[n]) ensures ipAddresses[n].address in status.claimed {
        assert n in Elems(names) && Settled(n, items);
      }
    }

    /** A listed IPAddress has been claimed, or has no finalizer any more. */
    ghost predicate Settled(n: Name, items: map<Name, IPAddress>)
      reads this`ipAddresses, this`status
    {
      && n in items
      && (!items[n].deleting ==> items[n].address in status.claimed)
      && (items[n].deleting && n in ipAddresses ==> !ipAddresses[n].hasFinalizer)
    }

    /** The body of that loop. */
    method CollectOne(n: Name, items: map<Name, IPAddress>) returns (ok: bool)
      requires Inv() && n in items && UniqueHolders(items) && Later(items, ipAddresses)
      requires reliable ==> "" !in status.available && items[n].address != ""
      modifies this`ipAddresses, this`claims, this`fips, this`history, this`made, this`deletions, this`status
      ensures Inv() && Extends() && Later(old(ipAddresses), ipAddresses)
      ensures status == old(status).(available := status.available, claimed := status.claimed)
      ensures forall a :: a in old(status).available ==> a in status.available
      ensures forall a :: a in old(status).claimed ==> a in status.claimed
      ensures reliable ==> "" !in status.available
      ensures ok ==> Settled(n, items)
      ensures quiet ==> claims == old(claims) && forall m :: m in old(ipAddresses) && m != n ==> m in ipAddresses
      ensures Smooth() && n in old(ipAddresses) ==> ok
    {
      var item := items[n];
      if !item.deleting {
        status := status.(claimed := status.claimed + [item.address]);
        return true;
      }
      if item.hasFinalizer {
        HolderIsAlone(items, ipAddresses, n);
      }
      ok := Release(n, item);
    }

    /** The treatment of one deleting IPAddress: give up its address by policy, then drop the finalizer. */
    method Release(n: Name, item: IPAddress) returns (ok: bool)
      requires Inv() && (reliable ==> "" !in status.available && item.address != "")
      requires item.hasFinalizer ==> item.address !in Live(ipAddresses)
      modifies this`ipAddresses, this`claims, this`fips, this`history, this`made, this`deletions, this`status
      ensures Inv() && Extends() && Later(old(ipAddresses), ipAddresses)
      ensures status == old(status) || status == old(status).(available := old(status).available + [item.address])
      ensures ok && item.hasFinalizer && (policy == Retain || item.address in preallocated) ==>
                item.address in status.available && deletions == old(deletions)
      ensures ok && item.hasFinalizer && policy == Delete && item.address !in preallocated ==>
                status == old(status) && |deletions| == |old(deletions)| + 1 && deletions[|deletions| - 1].address == item.address
      ensures ok ==> n in ipAddresses ==> !ipAddresses[n].hasFinalizer
      ensures quiet ==> claims == old(claims) && forall m :: m in old(ipAddresses) && m != n ==> m in ipAddresses
      ensures Smooth() && n in old(ipAddresses) ==> ok
    {
      Interfere();
      ok := true;
      if item.hasFinalizer {
        ok := GiveUp(item.address);
      }
      if ok {
        ok := DropFinalizer(n);
      }
    }

    method DropFinalizer(n: Name) returns (ok: bool)
      requires Inv()
      modifies this`ipAddresses, this`claims, this`fips, this`history, this`made
      ensures Inv() && Extends() && Later(old(ipAddresses), ipAddresses)
      ensures ok ==> n in ipAddresses ==> !ipAddresses[n].hasFinalizer
      ensures quiet ==> claims == old(claims) && forall m :: m in old(ipAddresses) && m != n ==> m in ipAddresses
      ensures Smooth() && n in old(ipAddresses) ==> ok
    {
      Interfere();
      ok := UpdateIPAddress(n);
    }

    /** By policy, an address is deleted or becomes free; a preallocated one always becomes free. */
    method GiveUp(a: Address) returns (ok: bool)
      requires Inv() && a !in Live(ipAddresses)
      modifies this`fips, this`history, this`deletions, this`status
      ensures Inv() && Extends()
      ensures if policy == Delete && a !in preallocated
              then status == old(status) && (ok ==> deletions == old(deletions) + [Deletion(a, preallocated, Live(ipAddresses))])
              else ok && status == old(status).(available := old(status).available + [a]) && deletions == old(deletions)
      ensures faultless ==> ok
    {
      if policy == Delete && a !in preallocated {
        ok := DeleteFloatingIP(a);
      } else {
        status := status.(available := status.available + [a]);
        ok := true;
      }
    }

    /** The end of reconcileIPAddresses: whatever is free, known or preallocated, and has not failed. */
    method RebuildAvailable()
      requires reliable ==> "" !in status.available && "" !in preallocated
      requires forall n :: n in ipAddresses && Holds(ipAddresses[n]) ==> ipAddresses[n].address in status.claimed
      modifies this`status
      ensures Rebuilt()
      ensures status == old(status).(available := status.available)
      ensures NoDup(status.available)
      ensures forall a :: a in status.available <==>
                (a in old(status).available || a in preallocated) && a !in status.claimed && a !in status.failed
      ensures Elems(status.available) == Elems(old(status).available) + Elems(preallocated) - Elems(status.claimed) - Elems(status.failed)
    {
      var all := Union(status.available, preallocated);
      var unclaimed := Diff(all, status.claimed);
      var available := Diff(unclaimed, status.failed);
      forall a
        ensures a in available <==> (a in status.available || a in preallocated) && a !in status.claimed && a !in status.failed
      {
        assert a in available <==> a in Elems(available);
        assert a in unclaimed <==> a in Elems(unclaimed);
        assert a in all <==> a in Elems(all);
      }
      status := status.(available := available);
    }

    /**
     * The answers getIP got are those of OpenStack, but for what users do meanwhile: `before` are the tagged
     * floating IPs at the start, `after` all floating IPs at the end.
     */
    ghost predicate Truthful(st: Status, ans: Answers, before: set<Address>, after: map<Address, bool>, made: set<Address>) {
      var offered := Offered(st, if ans.tagged.Ok? then ans.tagged.value else []);
      && (ans.tagged.Ok? ==>
            && Elems(ans.tagged.value) <= before
            && Tagged(after) <= Elems(ans.tagged.value) + (if ans.created.Ok? then {ans.created.value} else {}))
      && (offered != [] && ans.found == Ok(false) ==> offered[0] !in after || offered[0] in made)
    }

    /** getIP, tied to the function PoolAllocation.GetIP through the answers OpenStack gave. */
    method AllocateIP() returns (r: Allocation, ghost ans: Answers)
      requires Inv() && Rebuilt() && status.hasNetwork
      modifies this`ipAddresses, this`claims, this`fips, this`history, this`made, this`creations, this`status
      ensures Inv() && Extends() && Rebuilt() && status.hasNetwork
      ensures (r, status) == GetIP(old(status), maxIPs, ans)
      ensures Later(old(ipAddresses), ipAddresses) && Undisturbed()
      ensures r.Got? ==> r.ip !in old(status).claimed && r.ip in status.claimed && r.ip in fips
      ensures r.Got? && reliable ==> r.ip != ""
      ensures CreatesAtMost(ans.created) && (r.MaxReached? ==> LimitReached())
      ensures !AsksToCreate(old(status), maxIPs, ans) ==> creations == old(creations)
      ensures Truthful(old(status), ans, Tagged(old(fips)), fips, MadeSince(|old(made)|))
      ensures Smooth() ==> !r.Failed?
    {
      Interfere();
      ghost var before := made;
      var wasEmpty := status.available == [];
      var listed := OfferTagged();
      ans := Answers(listed, Err, Err);
      if wasEmpty && listed.Err? {
        return Failed, ans;
      }
      r, ans := TakeOrCreateIP(listed);
      MadeGrows(before, made, |old(made)|, |before|);
    }

    /** getIP after the recovery by tag. */
    method TakeOrCreateIP(ghost listed: Result<seq<Address>>) returns (r: Allocation, ghost ans: Answers)
      requires Inv() && Rebuilt() && status.hasNetwork
      requires status.available == [] ==> Tagged(fips) <= Elems(status.claimed)
      modifies this`ipAddresses, this`claims, this`fips, this`history, this`made, this`creations, this`status
      ensures Inv() && Extends() && Rebuilt() && status.hasNetwork
      ensures (r, status) == TakeOrCreate(old(status), maxIPs, ans) && ans.tagged == listed
      ensures Later(old(ipAddresses), ipAddresses) && Undisturbed()
      ensures r.Got? ==> r.ip !in old(status).claimed && r.ip in status.claimed && r.ip in fips
      ensures r.Got? && reliable ==> r.ip != ""
      ensures CreatesAtMost(ans.created) && (r.MaxReached? ==> LimitReached())
      ensures !FindsNone(old(status), maxIPs, ans.found) ==> creations == old(creations)
      ensures old(status).available != [] && ans.found == Ok(false) ==>
                old(status).available[0] !in fips || old(status).available[0] in MadeSince(|old(made)|)
      ensures Smooth() ==> !r.Failed?
    {
      ghost var found, created;
      if status.available == [] {
        r, created := CreateIP();
        return r, Answers(listed, Err, created);
      }
      r, found, created := UseHeadOrCreate();
      ans := Answers(listed, found, created);
    }

    /** The same with an address to offer. */
    method UseHeadOrCreate() returns (r: Allocation, ghost found: Result<bool>, ghost created: Result<Address>)
      requires Inv() && Rebuilt() && status.hasNetwork && status.available != []
      modifies this`ipAddresses, this`claims, this`fips, this`history, this`made, this`creations, this`status
      ensures Inv() && Extends() && Rebuilt() && status.hasNetwork
      ensures (r, status) == TakeOrCreate(old(status), maxIPs, Answers(Err, found, created))
      ensures Later(old(ipAddresses), ipAddresses) && Undisturbed()
      ensures r.Got? ==> r.ip !in old(status).claimed && r.ip in status.claimed && r.ip in fips
      ensures r.Got? && reliable ==> r.ip != ""
      ensures CreatesAtMost(created) && (r.MaxReached? ==> LimitReached())
      ensures !FindsNone(old(status), maxIPs, found) ==> creations == old(creations)
      ensures found == Ok(false) ==>
                old(status).available[0] !in fips || old(status).available[0] in MadeSince(|old(made)|)
      ensures Smooth() ==> !r.Failed?
    {
      var settled;
      created := Err;
      settled, found := UseHead();
      if settled.Some? {
        return settled.value, found, created;
      }
      PassedOver(old(status), maxIPs, found, Err);
      r, created := CreateIP();
      PassedOver(old(status), maxIPs, found, created);
    }

    /** Adds an address that is not free to ClaimedIPs. */
    method AddClaimed(a: Address)
      requires Rebuilt() && a !in status.available
      modifies this`status
      ensures Rebuilt() && status == old(status).(claimed := old(status).claimed + [a])
    {
      status := status.(claimed := status.claimed + [a]);
    }

    /** Takes the head of AvailableIPs and looks it up. Without a result, a new address is to be created. */
    method UseHead() returns (settled: Option<Allocation>, ghost found: Result<bool>)
      requires Rebuilt() && status.available != []
      modifies this`status
      ensures Rebuilt() && status.hasNetwork == old(status).hasNetwork
      ensures reliable ==> settled.Some?
      ensures found.Ok? ==> found.value == (old(status).available[0] in fips)
      ensures settled.Some? ==>
                && (settled.value, status) == TakeOrCreate(old(status), maxIPs, Answers(Err, found, Err))
                && !FindsNone(old(status), maxIPs, found)
                && (settled.value.Got? ==>
                      && settled.value.ip != "" && settled.value.ip in fips
                      && settled.value.ip !in old(status).claimed && settled.value.ip in status.claimed)
                && !settled.value.MaxReached?
      ensures settled.None? ==> (old(status).available[0] == "" || found == Ok(false)) && status == PassOver(old(status))
      ensures Smooth() ==> settled != Some(Failed)
    {
      var ip := status.available[0];
      status := TakeHead(status, status.available);
      found := Err;
      if ip == "" {
        return None, found;
      }
      var fp := GetFloatingIP(ip);
      found := fp;
      if fp.Err? {
        return Some(Failed), found;
      }
      if fp.value {
        AddClaimed(ip);
        return Some(Got(ip)), found;
      }
      status := status.(failed := status.failed + [ip]);
      settled := None;
    }

    /** The start of getIP: an empty AvailableIPs is refilled with the tagged addresses nobody has claimed. */
    method OfferTagged() returns (listed: Result<seq<Address>>)
      requires Inv() && Rebuilt()
      modifies this`status
      ensures Rebuilt()
      ensures status == old(status).(available := Offered(old(status), if listed.Ok? then listed.value else []))
      ensures status.available == [] && listed.Ok? ==> Tagged(fips) <= Elems(status.claimed)
      ensures listed.Ok? ==> Elems(listed.value) == Tagged(fips)
      ensures old(status).available != [] ==> listed.Err?
      ensures faultless && old(status).available == [] ==> listed.Ok?
    {
      listed := Err;
      if status.available == [] {
        listed := GetFloatingIPsByTag();
        if listed.Ok? {
          RecoverByTag(listed.value);
          RecoverFacts([], status.claimed, listed.value);
          forall a | a in Tagged(fips) ensures a in listed.value {
            assert a in Elems(listed.value);
          }
          assert forall a :: a in listed.value ==> a in Elems(listed.value);
        }
      }
    }

    /** At most one address was created, and it is the one answered, tagged unless that failed; what else exists, users made. */
    twostate predicate CreatesAtMost(new created: Result<Address>)
      reads this`fips, this`made, this`creations
    {
      && (creations == old(creations) || |creations| == |old(creations)| + 1)
      && (created.Ok? ==> |creations| == |old(creations)| + 1 && creations[|creations| - 1].address == created.value)
      && (creations == old(creations) ==> fips.Keys <= old(fips).Keys + MadeSince(|old(made)|))
      && Tagged(fips) <= Tagged(old(fips)) + (if created.Ok? then {created.value} else {})
      && (faultless && created.Ok? ==> created.value in Tagged(fips))
    }

    /** The end of getIP: the MaxIPs guard, creation and tagging. */
    method CreateIP() returns (r: Allocation, ghost created: Result<Address>)
      requires Inv() && Rebuilt() && status.hasNetwork
      requires reliable ==> status.available == [] && Tagged(fips) <= Elems(status.claimed)
      modifies this`ipAddresses, this`claims, this`fips, this`history, this`made, this`creations, this`status
      ensures Inv() && Extends() && Rebuilt() && status.hasNetwork
      ensures (r, status) == Create(old(status), maxIPs, created)
      ensures Later(old(ipAddresses), ipAddresses) && Undisturbed()
      ensures r.Got? ==> r.ip !in old(status).claimed && r.ip in status.claimed && r.ip in fips
      ensures r.Got? && reliable ==> r.ip != ""
      ensures CreatesAtMost(created)
      ensures r.MaxReached? ==> creations == old(creations) && LimitReached()
      ensures forall a :: a in old(status).claimed && a in fips ==> a in old(fips) || a in MadeSince(|old(made)|)
      ensures faultless ==> !r.Failed?
    {
      created := Err;
      if maxIPs != -1 && |status.claimed| >= maxIPs {
        return MaxReached, created;
      }
      var fp := CreateTagged();
      created := fp;
      if fp.Err? {
        return Failed, created;
      }
      AddClaimed(fp.value);
      r := Got(fp.value);
    }

    /** Creates a floating IP and tags it. */
    method CreateTagged() returns (r: Result<Address>)
      requires Inv() && Rebuilt() && status.hasNetwork
      requires reliable ==> status.available == [] && Tagged(fips) <= Elems(status.claimed)
      requires maxIPs == -1 || |status.claimed| < maxIPs
      modifies this`ipAddresses, this`claims, this`fips, this`history, this`made, this`creations
      ensures Inv() && Extends() && Rebuilt() && CreatesAtMost(r)
      ensures Later(old(ipAddresses), ipAddresses) && Undisturbed()
      ensures r.Ok? ==> r.value != "" && r.value !in status.available && r.value !in status.claimed && r.value in fips
      ensures forall a :: a in status.claimed && a in fips ==> a in old(fips) || a in MadeSince(|old(made)|)
      ensures faultless ==> r.Ok?
    {
      Interfere();
      r := CreateFloatingIPForPool();
      if r.Ok? {
        TagCreated(r.value);
      }
    }

    method TagCreated(a: Address)
      requires Inv()
      requires reliable ==> Tagged(fips) <= Elems(status.claimed)
      requires maxIPs == -1 || |status.claimed| < maxIPs
      modifies this`fips, this`history
      ensures Inv() && Extends()
      ensures Tagged(fips) <= Tagged(old(fips)) + {a} && fips.Keys == old(fips).Keys
      ensures faultless && a in fips ==> a in Tagged(fips)
    {
      if reliable && 0 <= maxIPs {
        SubsetBound(Tagged(fips), status.claimed);
      }
      TagFloatingIP(a);
    }

    /** The loop of getIP that takes over tagged addresses the pool does not know. */
    method RecoverByTag(tagged: seq<Address>)
      requires status.available == []
      modifies this`status
      ensures status == old(status).(available := Recover([], old(status).claimed, tagged))
      ensures Separated(status)
      ensures forall a :: a in status.available ==> a in tagged
    {
      assert tagged[0..] == tagged;
      for i := 0 to |tagged|
        invariant status == old(status).(available := status.available)
        invariant Recover(status.available, status.claimed, tagged[i..]) == Recover([], status.claimed, tagged)
      {
        assert tagged[i..][1..] == tagged[i + 1..];
        if tagged[i] in status.available || tagged[i] in status.claimed {
          continue;
        }
        status := status.(available := status.available + [tagged[i]]);
      }
      RecoverFacts([], status.claimed, tagged);
    }

    /** The part of the claim loop that gives a claim an IPAddress, if it has none. */
    method EnsureIPAddress(name: Name) returns (next: bool, ok: bool)
      requires Inv() && Rebuilt() && status.hasNetwork
      modifies this`ipAddresses, this`claims, this`fips, this`history, this`made, this`creations, this`status
      ensures Keeps(old(status), status)
      ensures Inv() && Extends() && Rebuilt() && status.hasNetwork
      ensures next ==> ok && name in ipAddresses
      ensures next && name !in old(ipAddresses) ==> ipAddresses[name].address !in old(status).claimed && !ipAddresses[name].deleting
      ensures ok && !next ==> LimitReached()
      ensures quiet ==> claims == old(claims) && old(ipAddresses).Keys <= ipAddresses.Keys
      ensures Smooth() ==> ok
    {
      if name in ipAddresses {
        return true, true;
      }
      var r := AllocateForClaim();
      if !r.Got? {
        return false, r.MaxReached?;
      }
      next := AddIPAddress(name, r.ip);
      ok := next;
    }

    /** getIP, as the claim loop relies on it. */
    method AllocateForClaim() returns (r: Allocation)
      requires Inv() && Rebuilt() && status.hasNetwork
      modifies this`ipAddresses, this`claims, this`fips, this`history, this`made, this`creations, this`status
      ensures Inv() && Extends() && Rebuilt() && status.hasNetwork
      ensures Keeps(old(status), status) && Undisturbed()
      ensures Later(old(ipAddresses), ipAddresses)
      ensures r.MaxReached? ==> LimitReached()
      ensures r.Got? ==> r.ip !in old(status).claimed && r.ip in status.claimed && (reliable ==> r.ip != "")
      ensures r.Got? ==> forall m :: m in ipAddresses && Holds(ipAddresses[m]) ==> ipAddresses[m].address != r.ip
      ensures Smooth() ==> !r.Failed?
    {
      ghost var ans;
      r, ans := AllocateIP();
      AllocationKeeps(old(status), maxIPs, ans);
    }

    method AddIPAddress(name: Name, a: Address) returns (ok: bool)
      requires Inv() && Rebuilt() && a in status.claimed && (reliable ==> a != "")
      requires forall m :: m in ipAddresses && Holds(ipAddresses[m]) ==> ipAddresses[m].address != a
      modifies this`ipAddresses, this`claims, this`fips, this`history, this`made
      ensures Inv() && Extends() && Rebuilt()
      ensures ok ==> name in ipAddresses && (name !in old(ipAddresses) ==> ipAddresses[name] == IPAddress(a, false, true))
      ensures quiet ==> claims == old(claims) && old(ipAddresses).Keys <= ipAddresses.Keys
      ensures Smooth() && name !in old(ipAddresses) ==> ok
    {
      Interfere();
      ok := CreateIPAddress(name, a);
    }

    /** The body of the claim loop of Reconcile, for one claim that has no address yet. */
    method ReconcileClaim(name: Name) returns (next: bool, ok: bool)
      requires Inv() && Rebuilt() && status.hasNetwork
      modifies this`ipAddresses, this`claims, this`fips, this`history, this`made, this`creations, this`status
      ensures Keeps(old(status), status)
      ensures Inv() && Extends() && Rebuilt() && status.hasNetwork
      ensures next ==> ok && (name in claims ==> claims[name].addressRef == name)
      ensures ok && !next ==> LimitReached()
      ensures quiet ==> old(ipAddresses).Keys <= ipAddresses.Keys
      ensures quiet && name in old(claims) ==> claims == old(claims) || claims == Bind(old(claims), name)
      ensures quiet && name in old(claims) && next ==> claims == Bind(old(claims), name) && name in ipAddresses
      ensures Smooth() && name in old(claims) ==> ok
    {
      Interfere();
      next, ok := *, false;
      next := next || faultless;
      if next {
        next, ok := EnsureIPAddress(name);
      }
      if next {
        ok := BindClaim(name);
        next := ok;
      }
    }

    /** No address can be allocated any more. */
    ghost predicate LimitReached()
      reads this`status
    {
      maxIPs != -1 && |status.claimed| >= maxIPs
    }

    /** Writes the reference to the IPAddress into the claim's status. */
    method BindClaim(name: Name) returns (ok: bool)
      requires Inv() && Rebuilt()
      modifies this`ipAddresses, this`claims, this`fips, this`history, this`made
      ensures Inv() && Extends() && Rebuilt()
      ensures ok ==> (name in claims ==> claims[name].addressRef == name)
      ensures quiet ==> ipAddresses == old(ipAddresses)
      ensures quiet && name in old(claims) ==> claims == old(claims) || claims == Bind(old(claims), name)
      ensures quiet && name in old(claims) && ok ==> claims == Bind(old(claims), name)
      ensures faultless && quiet ==> ok
    {
      Interfere();
      ok := *;
      ok := ok || faultless;
      var effect: bool := *;
      if (ok || effect) && name in claims {
        claims := Bind(claims, name);
      }
    }

    /**
     * The claim loop of Reconcile, over the claims as they were listed. Undisturbed, it succeeds only
     * with every waiting claim bound, or with the limit reached.
     */
    method ReconcileClaims() returns (ok: bool)
      requires Inv() && Rebuilt() && status.hasNetwork
      modifies this`ipAddresses, this`claims, this`fips, this`history, this`made, this`creations, this`status
      ensures Keeps(old(status), status)
      ensures Inv() && Extends() && Rebuilt()
      ensures status.hasNetwork
      ensures quiet && ok ==> LimitReached() || Served(old(claims), claims, ipAddresses)
      ensures Smooth() ==> ok
    {
      Interfere();
      ok := *;
      ok := ok || faultless;
      if !ok {
        return;
      }
      var items := claims;
      var names := EnumerateNames(items.Keys);
      for i := 0 to |names|
        invariant ok && Inv() && Extends() && Rebuilt() && status.hasNetwork && Keeps(old(status), status)
        invariant quiet ==> ServedUpTo(items, names[..i])
      {
        assert names[i] in Elems(names);
        var next;
        next, ok := ServeClaim(items, names, i);
        if !next {
          return;
        }
      }
      assert names[..|names|] == names;
      assert forall n :: n in items ==> n in Elems(names);
    }

    /** The body of that loop, for the claim at place i. */
    method ServeClaim(items: map<Name, Claim>, names: seq<Name>, i: nat) returns (next: bool, ok: bool)
      requires Inv() && Rebuilt() && status.hasNetwork
      requires i < |names| && names[i] in items && (quiet ==> ServedUpTo(items, names[..i]))
      modifies this`ipAddresses, this`claims, this`fips, this`history, this`made, this`creations, this`status
      ensures Keeps(old(status), status)
      ensures Inv() && Extends() && Rebuilt() && status.hasNetwork
      ensures next ==> ok && (quiet ==> ServedUpTo(items, names[..i + 1]))
      ensures ok && !next ==> LimitReached()
      ensures Smooth() ==> ok
    {
      assert names[..i + 1] == names[..i] + [names[i]];
      next, ok := true, true;
      if Waiting(items[names[i]]) {
        next, ok := ReconcileClaim(names[i]);
      }
    }

    /** The waiting claims among the first ones are bound, and all others are as they were listed. */
    ghost predicate ServedUpTo(items: map<Name, Claim>, names: seq<Name>)
      reads this`claims, this`ipAddresses
    {
      && claims.Keys == items.Keys
      && (forall n :: n in names && n in items && Waiting(items[n]) ==> claims[n] == items[n].(addressRef := n) && n in ipAddresses)
      && (forall n :: n in items && (n !in names || !Waiting(items[n])) ==> claims[n] == items[n])
    }

    /**
     * reconcileDelete. `done` holds the addresses given up: they are the ones missing from
     * AvailableIPs, each was deleted in this pass, none of them exists in OpenStack unless a user
     * has created it again, and nothing was deleted that was not free or was preallocated. The
     * finalizer goes only when no IPAddress is left and all of them are given up.
     */
    method ReconcileDelete() returns (ok: bool, ghost done: set<Address>)
      requires Inv() && Rebuilt()
      modifies this`ipAddresses, this`claims, this`fips, this`history, this`made, this`deletions, this`status, this`poolFinalizer
      ensures Inv() && Extends()
      ensures done * fips.Keys <= MadeSince(|old(made)|)
      ensures done <= DeletedSince(|old(deletions)|) <= Elems(old(status).available) - Elems(preallocated)
      ensures Elems(status.available) == Elems(old(status).available) - done
      ensures status == old(status).(available := status.available)
      ensures old(ipAddresses) == map[] ==> ipAddresses == map[]
      ensures old(poolFinalizer) && !poolFinalizer ==> ok && ipAddresses == map[]
      ensures ok ==> done == Elems(old(status).available) - Elems(preallocated)
      ensures reliable ==> "" !in status.available
      ensures Smooth() && old(ipAddresses) == map[] ==> ok && !poolFinalizer
    {
      done := {};
      ok := NoneLeft();
      if !ok {
        return;
      }
      var targets := Diff(status.available, preallocated);
      ghost var before := made;
      ok, done := DeleteTargets(targets);
      MadeGrows(before, made, |old(made)|, |before|);
      if ok {
        var updated: bool := *;
        if updated || faultless {
          poolFinalizer := false;
        }
      }
    }

    /** Lists the IPAddress objects, and goes on only if there is none. */
    method NoneLeft() returns (ok: bool)
      requires Inv()
      modifies this`ipAddresses, this`claims, this`fips, this`history, this`made
      ensures Inv() && Extends()
      ensures ok || old(ipAddresses) == map[] ==> ipAddresses == map[]
      ensures Smooth() && old(ipAddresses) == map[] ==> ok
    {
      Interfere();
      var listed: bool := *;
      ok := (listed || faultless) && ipAddresses == map[];
    }

    /** The loop of reconcileDelete. */
    method DeleteTargets(targets: seq<Address>) returns (ok: bool, ghost done: set<Address>)
      requires Inv() && Elems(targets) == Elems(status.available) - Elems(preallocated)
      requires ipAddresses == map[] && (reliable ==> "" !in status.available)
      modifies this`ipAddresses, this`claims, this`fips, this`history, this`made, this`deletions, this`status
      ensures Inv() && Extends() && ipAddresses == map[]
      ensures done * fips.Keys <= MadeSince(|old(made)|)
      ensures done <= DeletedSince(|old(deletions)|) <= Elems(targets)
      ensures Elems(status.available) == Elems(old(status).available) - done
      ensures status == old(status).(available := status.available)
      ensures ok ==> done == Elems(targets)
      ensures reliable ==> "" !in status.available
      ensures Smooth() ==> ok
    {
      done := {};
      for i := 0 to |targets|
        invariant Inv() && Extends()
        invariant ipAddresses == map[] && done == Elems(targets[..i])
        invariant done * fips.Keys <= MadeSince(|old(made)|)
        invariant done <= DeletedSince(|old(deletions)|) <= Elems(targets)
        invariant Elems(status.available) == Elems(old(status).available) - done
        invariant status == old(status).(available := status.available)
        invariant reliable ==> "" !in status.available
      {
        assert targets[i] in Elems(targets);
        assert done <= Elems(targets);
        ghost var before := made;
        ok := DeleteTarget(targets[i], |old(deletions)|);
        MadeGrows(before, made, |old(made)|, |before|);
        if !ok {
          return;
        }
        assert targets[..i + 1] == targets[..i] + [targets[i]];
        done := done + {targets[i]};
      }
      assert targets[..|targets|] == targets;
      ok := true;
    }

    /** One deletion, after which the address leaves AvailableIPs. */
    method DeleteTarget(a: Address, ghost from: nat) returns (ok: bool)
      requires Inv() && from <= |deletions| && a !in preallocated && (reliable ==> "" !in status.available)
      requires ipAddresses == map[]
      modifies this`ipAddresses, this`claims, this`fips, this`history, this`made, this`deletions, this`status
      ensures Inv() && Extends()
      ensures ipAddresses == map[]
      ensures fips.Keys <= old(fips).Keys + MadeSince(|old(made)|) && (ok ==> a !in fips)
      ensures old(DeletedSince(from)) <= DeletedSince(from) <= old(DeletedSince(from)) + {a}
      ensures ok ==> a in DeletedSince(from)
      ensures status == old(status).(available := status.available)
      ensures Elems(status.available) == Elems(old(status).available) - (if ok then {a} else {})
      ensures reliable ==> "" !in status.available
      ensures faultless ==> ok
    {
      Interfere();
      ok := DeleteFloatingIP(a);
      LogGrows(old(deletions), Deletion(a, preallocated, Live(ipAddresses)), from);
      if ok {
        RemoveAvailable(a);
      }
    }

    method RemoveAvailable(a: Address)
      modifies this`status
      ensures status == old(status).(available := status.available)
      ensures Elems(status.available) == Elems(old(status).available) - {a}
      ensures "" !in old(status).available ==> "" !in status.available
    {
      var rest := Diff(status.available, [a]);
      assert Elems([a]) == {a};
      assert forall x :: x in rest ==> x in Elems(rest);
      assert forall x :: x in status.available <==> x in Elems(status.available);
      status := status.(available := rest);
    }

    /**
     * A deletion pass that stops anywhere, its status persisted, and the pass that follows: they give
     * up disjoint sets of addresses, together exactly what the first set out to give up, each of them
     * was deleted in OpenStack, and nothing else was.
     */
    method DeleteAndRetry() returns (ok: bool, ghost first: set<Address>, ghost second: set<Address>)
      requires Inv() && Rebuilt() && ipAddresses == map[] && Elems(status.available) !! Elems(status.failed)
      modifies this
      ensures Inv() && Extends() && first !! second
      ensures second * fips.Keys <= MadeSince(|old(made)|)
      ensures first + second <= DeletedSince(|old(deletions)|) <= Elems(old(status).available) - Elems(preallocated)
      ensures ok ==> first + second == Elems(old(status).available) - Elems(preallocated)
    {
      second := {};
      ok, first := ReconcileDelete();
      ghost var between := deletions;
      stored := status;
      RetryDeletesTheRest(Elems(old(status).available), Elems(preallocated), Elems(status.failed), first);
      ghost var before := made;
      ok, second := Retry();
      MadeGrows(before, made, |old(made)|, |before|);
      assert deletions[..|between|] == between;
      LogSplits(deletions, |between|, |old(deletions)|);
    }

    /** A deletion pass with the reconcileIPAddresses that precedes it. */
    method Retry() returns (ok: bool, ghost done: set<Address>)
      requires Inv() && ipAddresses == map[] && (reliable ==> "" !in status.available)
      modifies this
      ensures Inv() && Extends()
      ensures done * fips.Keys <= MadeSince(|old(made)|)
      ensures preallocated == old(preallocated)
      ensures done <= DeletedSince(|old(deletions)|)
                   <= Refreshed(Elems(old(status).available), Elems(preallocated), Elems(old(status).failed)) - Elems(preallocated)
      ensures ok ==> done == Refreshed(Elems(old(status).available), Elems(preallocated), Elems(old(status).failed)) - Elems(preallocated)
    {
      done := {};
      ok := ReconcileIPAddresses();
      if ok {
        ghost var before := made;
        ok, done := ReconcileDelete();
        MadeGrows(before, made, |old(made)|, |before|);
      }
    }

    /** Reconcile, with the deferred patch that may or may not persist the status. */
    method Reconcile() returns (ok: bool)
      requires Inv()
      modifies this
      ensures Inv() && Extends()
      ensures old(poolFinalizer) && !poolFinalizer ==>
                && poolDeleting && ipAddresses == map[] && Elems(status.available) <= Elems(preallocated)
                && forall a :: a in old(stored).available && a !in preallocated && a in fips ==>
                          a in status.claimed || a in status.failed || a in MadeSince(|old(made)|)
      ensures stored == status || stored == old(stored)
      ensures preallocated == old(preallocated) && poolDeleting == old(poolDeleting)
      ensures quiet && ok && !poolDeleting ==> poolFinalizer && stored == status
      ensures quiet && ok && !poolDeleting && old(poolFinalizer) ==> stored.hasNetwork && (LimitReached() || Served(old(claims), claims, ipAddresses))
      ensures quiet && ok && !poolDeleting && !old(poolFinalizer) ==> claims == old(claims)
      ensures Smooth() && (!poolDeleting || old(ipAddresses) == map[]) ==> ok
      ensures Smooth() && poolDeleting && old(ipAddresses) == map[] ==> !poolFinalizer
    {
      status := stored;
      ok := ReconcileBody();
      var patched: bool := *;
      if patched || faultless {
        stored := status;
      } else {
        ok := false;
      }
    }

    method ReconcileBody() returns (ok: bool)
      requires Inv() && (reliable ==> "" !in status.available)
      modifies this`ipAddresses, this`claims, this`fips, this`history, this`made, this`deletions, this`creations, this`status, this`poolFinalizer
      ensures Inv() && Extends() && (reliable ==> "" !in status.available)
      ensures old(poolFinalizer) && !poolFinalizer ==>
                && poolDeleting && ipAddresses == map[] && Elems(status.available) <= Elems(preallocated)
                && forall a :: a in old(status).available && a !in preallocated && a in fips ==>
                          a in status.claimed || a in status.failed || a in MadeSince(|old(made)|)
      ensures quiet && ok && !poolDeleting ==> Progressed(old(poolFinalizer), old(claims))
      ensures Smooth() && (!poolDeleting || old(ipAddresses) == map[]) ==> ok
      ensures Smooth() && poolDeleting && old(ipAddresses) == map[] ==> !poolFinalizer
    {
      ok := ReconcileIPAddresses();
      if ok {
        if poolDeleting {
          ghost var before := made;
          ghost var done;
          ok, done := ReconcileDelete();
          MadeGrows(before, made, |old(made)|, |before|);
        } else {
          ok := ReconcileNormal();
        }
      }
    }

    /** What an undisturbed reconcile without error gets done for a live pool: first its finalizer, then every waiting claim. */
    ghost predicate Progressed(hadFinalizer: bool, listed: map<Name, Claim>)
      reads this`poolFinalizer, this`claims, this`ipAddresses, this`status
    {
      && poolFinalizer
      && (if hadFinalizer then status.hasNetwork && (LimitReached() || Served(listed, claims, ipAddresses)) else claims == listed)
    }

    /** The part of Reconcile for a pool that is not being deleted. */
    method ReconcileNormal() returns (ok: bool)
      requires Inv() && Rebuilt()
      modifies this`ipAddresses, this`claims, this`fips, this`history, this`made, this`creations, this`status, this`poolFinalizer
      ensures Inv() && Extends() && (reliable ==> "" !in status.available)
      ensures old(poolFinalizer) ==> poolFinalizer
      ensures quiet && ok ==> Progressed(old(poolFinalizer), old(claims))
      ensures Smooth() ==> ok
    {
      if !poolFinalizer {
        ok := *;
        ok := ok || faultless;
        poolFinalizer := ok;
        return;
      }
      if !status.hasNetwork {
        ok := *;
        ok := ok || faultless;
        if !ok {
          return;
        }
        status := status.(hasNetwork := true);
      }
      ok := ReconcileClaims();
    }

    /**
     * Two undisturbed reconciles of a live pool, from any state: every claim that waits for an address
     * gets one, or the limit is reached.
     */
    method Converge()
      requires Inv() && Smooth() && !poolDeleting
      modifies this
      ensures Inv() && Extends()
      ensures LimitReached() || Served(old(claims), claims, ipAddresses)
    {
      var had := poolFinalizer;
      var ok := Reconcile();
      if !had {
        ok := Reconcile();
      }
    }

    /** Every run: any number of reconciles, user actions and pool edits, in any order. */
    method Run(steps: nat)
      requires Inv()
      modifies this
      ensures Inv() && Extends()
    {
      for i := 0 to steps
        invariant Inv() && Extends()
      {
        var reconcile: bool := *;
        if reconcile {
          var _ := Reconcile();
        } else {
          Interfere();
          var pre: seq<Address> := *;
          var pol: ReclaimPolicy := *;
          var del: bool := *;
          if "" !in pre {
            EditPool(pre, pol, del);
          }
        }
      }
    }
  }
}
