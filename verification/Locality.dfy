/** Names evolve independently: a cycle at a name reads and writes only that name and its marker's name.  So a
    cycle that took effect in part of the names can be put together from the zone before and the zone after. */
module Locality {
  import opened Text
  import opened Dns
  import opened Provider
  import opened Plan
  import opened Cycle
  import opened CycleLaws
  import opened Convergence

  /** A set of names that holds a name exactly when it holds its marker name. */
  ghost predicate Closed(s: iset<string>) {
    forall x: string :: x in s <==> OWNER_PREFIX + x in s
  }

  /** `y` at the names of `s`, `z` elsewhere. */
  ghost function Mix(s: iset<string>, y: Zone, z: Zone): Zone {
    map k | k in y.Keys + z.Keys && (if k.name in s then k in y else k in z) :: if k.name in s then y[k] else z[k]
  }

  lemma MixLookup(s: iset<string>, y: Zone, z: Zone, k: RRKey)
    ensures Lookup(Mix(s, y, z), k) == if k.name in s then Lookup(y, k) else Lookup(z, k)
  {
  }

  lemma MixAgrees(s: iset<string>, y: Zone, z: Zone)
    ensures AgreeOn(s, Mix(s, y, z), y) && AgreeOutside(s, Mix(s, y, z), z)
  {
    forall k
      ensures Lookup(Mix(s, y, z), k) == if k.name in s then Lookup(y, k) else Lookup(z, k)
    {
      MixLookup(s, y, z, k);
    }
  }

  lemma MixSame(s: iset<string>, z: Zone)
    ensures Mix(s, z, z) == z
  {
    forall k ensures Lookup(Mix(s, z, z), k) == Lookup(z, k) { MixLookup(s, z, z, k); }
    SameLookupsSameZone(Mix(s, z, z), z);
  }

  ghost predicate NamesLegal(z: Zone) {
    forall k :: k in z ==> Legal(k.name)
  }

  /** `y` and `z` have the same records at the legal names of `s`. */
  ghost predicate SameAt(s: iset<string>, y: Zone, z: Zone) {
    AgreeOn(s, y, z) && NamesLegal(y) && NamesLegal(z)
  }

  lemma SameMembership(s: iset<string>, y: Zone, z: Zone, k: RRKey)
    requires SameAt(s, y, z) && k.name in s
    ensures k in y <==> k in z
    ensures k in y ==> y[k] == z[k]
  {
    assert Lookup(y, k) == Lookup(z, k);
  }

  lemma OwnedIsLocal(owner: string, s: iset<string>, y: Zone, z: Zone, n: string)
    requires SameAt(s, y, z) && Closed(s) && Fqdn(n) in s && !EndsWithDot(n)
    ensures Owned(owner, y, n) == Owned(owner, z, n)
  {
    forall k | (k in y || k in z) && Claims(owner, k, n) ensures k in y && k in z {
      FqdnTrim(k.name);
      assert OWNER_PREFIX + n + "." == OWNER_PREFIX + (n + ".");
      assert k.name in s by {
        assert k.name == OWNER_PREFIX + Fqdn(n);
      }
      SameMembership(s, y, z, k);
    }
  }

  lemma HasIsLocal(s: iset<string>, y: Zone, z: Zone, k: RRKey)
    requires SameAt(s, y, z) && Legal(k.name) && k.name in s
    ensures Has(y, Slot(k)) == Has(z, Slot(k))
  {
    forall k' | (k' in y || k' in z) && IsRecord(k') && Slot(k') == Slot(k) ensures k' in y && k' in z {
      SlotInjective(k', k);
      SameName(k', k);
      SameMembership(s, y, z, k');
    }
  }

  lemma FreeIsLocal(s: iset<string>, y: Zone, z: Zone, k: RRKey)
    requires SameAt(s, y, z) && k.name in s
    ensures Free(y, k) == Free(z, k)
  {
    forall k': RRKey | k'.name == k.name ensures k' in y <==> k' in z { SameMembership(s, y, z, k'); }
  }

  lemma CreatesIsLocal(g: Goal, s: iset<string>, y: Zone, z: Zone, n: string)
    requires GoodGoal(g) && SameAt(s, y, z) && Fqdn(n) in s
    ensures CreatesAt(g, y, n) == CreatesAt(g, z, n)
  {
    forall t | t in g.want && g.want[t].dnsName == n ensures Missing(g, y, t) == Missing(g, z, t) {
      WantFacts(g, t);
      HasIsLocal(s, y, z, KeyOf(g.cfg, g.want[t]));
    }
  }

  lemma DropsIsLocal(g: Goal, s: iset<string>, y: Zone, z: Zone, n: string)
    requires SameAt(s, y, z) && Closed(s) && Fqdn(n) in s && !EndsWithDot(n)
    ensures DropsAt(g, y, n) == DropsAt(g, z, n)
  {
    OwnedIsLocal(g.owner, s, y, z, n);
    forall k | NameOf(k) == n && (k in y || k in z) ensures Dropped(g, y, k) == Dropped(g, z, k) {
      FqdnTrim(k.name);
      SameMembership(s, y, z, k);
    }
  }

  lemma MarkedName(k: RRKey, s: iset<string>)
    requires Legal(k.name) && IsMarker(k) && k.name in s && Closed(s)
    ensures var n := NameOf(k)[|OWNER_PREFIX|..]; n != "" && !EndsWithDot(n) ==> Fqdn(n) in s
  {
    var n := NameOf(k)[|OWNER_PREFIX|..];
    FqdnTrim(k.name);
    assert NameOf(k) == OWNER_PREFIX + n;
    assert OWNER_PREFIX + n + "." == OWNER_PREFIX + (n + ".");
  }

  lemma RecordAfterIsLocal(g: Goal, s: iset<string>, y: Zone, z: Zone, k: RRKey)
    requires SameAt(s, y, z) && Closed(s) && Legal(k.name) && k.name in s && IsRecord(k)
    ensures After(g, y, k) == After(g, z, k)
  {
    SameMembership(s, y, z, k);
    FqdnTrim(k.name);
    OwnedIsLocal(g.owner, s, y, z, NameOf(k));
    HasIsLocal(s, y, z, k);
    FreeIsLocal(s, y, z, k);
  }

  lemma MarkerAfterIsLocal(g: Goal, s: iset<string>, y: Zone, z: Zone, k: RRKey)
    requires GoodGoal(g) && SameAt(s, y, z) && Closed(s) && Legal(k.name) && k.name in s && !IsRecord(k)
    ensures After(g, y, k) == After(g, z, k)
  {
    SameMembership(s, y, z, k);
    if OurMarker(g, k) {
      var n := NameOf(k)[|OWNER_PREFIX|..];
      LegalMarker(g, k);
      MarkedName(k, s);
      CreatesIsLocal(g, s, y, z, n);
      DropsIsLocal(g, s, y, z, n);
    }
  }

  /** What a cycle leaves at a name depends on that name and its marker alone. */
  lemma AfterIsLocal(g: Goal, s: iset<string>, y: Zone, z: Zone, k: RRKey)
    requires GoodGoal(g) && SameAt(s, y, z) && Closed(s) && Legal(k.name) && k.name in s
    ensures After(g, y, k) == After(g, z, k)
  {
    if IsRecord(k) { RecordAfterIsLocal(g, s, y, z, k); } else { MarkerAfterIsLocal(g, s, y, z, k); }
  }

  lemma LegalMarker(g: Goal, k: RRKey)
    requires Legal(k.name) && OurMarker(g, k)
    ensures var n := NameOf(k)[|OWNER_PREFIX|..]; n != "" && !EndsWithDot(n)
  {
    var n := NameOf(k)[|OWNER_PREFIX|..];
    assert NameOf(k) == OWNER_PREFIX + n;
    if n != "" { assert NameOf(k)[|NameOf(k)| - 1] == n[|n| - 1]; }
  }

  // ----- mixing commutes with a cycle -----

  lemma MixSameAt(g: Goal, s: iset<string>, y: Zone, z: Zone)
    requires GoodZone(g, y) && GoodZone(g, z)
    ensures SameAt(s, Mix(s, y, z), y) && SameAt(Outside(s), Mix(s, y, z), z)
  {
    MixAgrees(s, y, z);
  }

  ghost function Outside(s: iset<string>): iset<string> {
    iset x: string | x !in s
  }

  lemma MixOwned(g: Goal, s: iset<string>, y: Zone, z: Zone, n: string)
    requires GoodZone(g, y) && GoodZone(g, z) && Closed(s) && !EndsWithDot(n)
    ensures Owned(g.owner, Mix(s, y, z), n) == if Fqdn(n) in s then Owned(g.owner, y, n) else Owned(g.owner, z, n)
  {
    MixSameAt(g, s, y, z);
    assert Closed(Outside(s));
    if Fqdn(n) in s {
      OwnedIsLocal(g.owner, s, Mix(s, y, z), y, n);
    } else {
      OwnedIsLocal(g.owner, Outside(s), Mix(s, y, z), z, n);
    }
  }

  lemma MixSingletons(g: Goal, s: iset<string>, y: Zone, z: Zone)
    requires GoodZone(g, y) && GoodZone(g, z) && Closed(s)
    ensures Singletons(g, Mix(s, y, z))
  {
    var m := Mix(s, y, z);
    forall k | k in m && IsRecord(k) && Managed(g, m, NameOf(k))
      ensures if k.name in s then k in y && Managed(g, y, NameOf(k)) else k in z && Managed(g, z, NameOf(k))
    {
      FqdnTrim(k.name);
      MixOwned(g, s, y, z, NameOf(k));
    }
    forall k, k' | k in m && k' in m && IsRecord(k) && IsRecord(k') && Slot(k) == Slot(k') && Managed(g, m, NameOf(k))
      ensures k == k'
    {
      SlotInjective(k, k');
      SameName(k, k');
    }
  }

  lemma MixMarkersSingle(g: Goal, s: iset<string>, y: Zone, z: Zone)
    requires GoodZone(g, y) && GoodZone(g, z)
    ensures MarkersSingle(g, Mix(s, y, z))
  {
  }

  lemma MixWellFormed(s: iset<string>, y: Zone, z: Zone)
    requires WellFormed(y) && WellFormed(z)
    ensures WellFormed(Mix(s, y, z))
  {
  }

  lemma MixGood(g: Goal, s: iset<string>, y: Zone, z: Zone)
    requires GoodZone(g, y) && GoodZone(g, z) && Closed(s)
    ensures GoodZone(g, Mix(s, y, z))
  {
    MixWellFormed(s, y, z);
    MixSingletons(g, s, y, z);
    MixMarkersSingle(g, s, y, z);
    var m := Mix(s, y, z);
    forall k | k in m ensures k in y || k in z {}
    forall t | t in g.want ensures !HasCname(m, Fqdn(OwnershipName(g.want[t].dnsName))) {
      assert !HasCname(y, Fqdn(OwnershipName(g.want[t].dnsName))) &&
          !HasCname(z, Fqdn(OwnershipName(g.want[t].dnsName)));
    }
  }

  lemma IllegalAbsent(g: Goal, z: Zone, k: RRKey)
    requires GoodGoal(g) && GoodZone(g, z) && !Legal(k.name)
    ensures Lookup(NextZone(g, z), k) == None
  {
    if k in NextZone(g, z) { NextNamesLegal(g, z, k); }
  }

  /** A cycle of a mixed zone is the mix of the cycles. */
  lemma NextMix(g: Goal, s: iset<string>, y: Zone, z: Zone)
    requires GoodGoal(g) && GoodZone(g, y) && GoodZone(g, z) && Closed(s)
    ensures NextZone(g, Mix(s, y, z)) == Mix(s, NextZone(g, y), NextZone(g, z))
  {
    var m := Mix(s, y, z);
    MixGood(g, s, y, z);
    MixSameAt(g, s, y, z);
    assert Closed(Outside(s));
    forall k ensures Lookup(NextZone(g, m), k) == Lookup(Mix(s, NextZone(g, y), NextZone(g, z)), k) {
      MixLookup(s, NextZone(g, y), NextZone(g, z), k);
      NextZoneLookup(g, m, k);
      NextZoneLookup(g, y, k);
      NextZoneLookup(g, z, k);
      if !Legal(k.name) {
        IllegalAbsent(g, m, k); IllegalAbsent(g, y, k); IllegalAbsent(g, z, k);
      } else if k.name in s {
        AfterIsLocal(g, s, m, y, k);
      } else {
        AfterIsLocal(g, Outside(s), m, z, k);
      }
    }
    SameLookupsSameZone(NextZone(g, m), Mix(s, NextZone(g, y), NextZone(g, z)));
  }

  // ----- failed cycles -----

  /** A cycle that took effect at the names of `s` only: nowhere if it failed before the update, everywhere if
      only the reply was lost, in some zones if a multi-zone apply stopped. */
  ghost predicate PartialCycle(g: Goal, z: Zone, z': Zone, s: iset<string>) {
    Closed(s) && z' == Mix(s, NextZone(g, z), z)
  }

  ghost predicate FaultyRun(g: Goal, zs: seq<Zone>, ss: seq<iset<string>>) {
    |zs| == |ss| + 1 && forall i :: 0 <= i < |ss| ==> PartialCycle(g, zs[i], zs[i + 1], ss[i])
  }

  lemma PartialCycleGood(g: Goal, z: Zone, z': Zone, s: iset<string>)
    requires GoodGoal(g) && GoodZone(g, z) && PartialCycle(g, z, z', s)
    ensures GoodZone(g, z')
  {
    NextGood(g, z);
    MixGood(g, s, NextZone(g, z), z);
  }

  /** A partial cycle does not change where two full cycles lead. */
  lemma PartialCycleForgotten(g: Goal, z: Zone, z': Zone, s: iset<string>)
    requires GoodGoal(g) && GoodZone(g, z) && PartialCycle(g, z, z', s)
    ensures NextZone(g, NextZone(g, z')) == NextZone(g, NextZone(g, z))
  {
    var z1 := NextZone(g, z);
    var z2 := NextZone(g, z1);
    NextGood(g, z);
    NextGood(g, z1);
    NextMix(g, s, z1, z);
    NextMix(g, s, z2, z1);
    TwoCyclesSettle(g, z);
    SettledIsFixed(g, z2);
    MixSame(s, z2);
  }

  lemma OneMoreFault(g: Goal, start: Zone, z: Zone, z': Zone, s: iset<string>)
    requires GoodGoal(g) && SameFuture(g, start, z) && PartialCycle(g, z, z', s)
    ensures SameFuture(g, start, z')
  {
    PartialCycleGood(g, z, z', s);
    PartialCycleForgotten(g, z, z', s);
  }

  lemma {:induction false} FaultsKeepFuture(g: Goal, zs: seq<Zone>, ss: seq<iset<string>>, i: nat)
    requires GoodGoal(g) && FaultyRun(g, zs, ss) && GoodZone(g, zs[0]) && i < |zs|
    ensures SameFuture(g, zs[0], zs[i])
  {
    if i > 0 {
      var j := i - 1;
      FaultsKeepFuture(g, zs, ss, j);
      assert PartialCycle(g, zs[j], zs[j + 1], ss[j]);
      OneMoreFault(g, zs[0], zs[j], zs[i], ss[j]);
    }
  }

  /** After any number of partial cycles, two full ones reach the zone that a fault-free run reaches, and nothing is
      left to plan there. */
  lemma FaultsForgotten(g: Goal, zs: seq<Zone>, ss: seq<iset<string>>)
    requires GoodGoal(g) && FaultyRun(g, zs, ss) && GoodZone(g, zs[0])
    ensures var last := zs[|zs| - 1];
            && GoodZone(g, last)
            && NextZone(g, NextZone(g, last)) == NextZone(g, NextZone(g, zs[0]))
            && Settled(g, NextZone(g, NextZone(g, last)))
  {
    FaultsKeepFuture(g, zs, ss, |zs| - 1);
    TwoCyclesSettle(g, zs[|zs| - 1]);
  }
}
