/** The conditions on the desired endpoints are not convenience: where a name is ours and `Calculate` finds nothing
    to do, the endpoints desired there meet them.  So a desired set that violates one is planned for in every cycle. */
module Necessity {
  import opened Text
  import opened Addresses
  import opened Endpoints
  import opened Dns
  import opened Provider
  import opened Plan
  import opened Cycle
  import opened CycleLaws
  import opened Refinement
  import opened Convergence

  /** A plan for any zone and any desired list, good or not. */
  ghost predicate AnyPlan(g: Goal, z: Zone, desired: seq<Endpoint>, p: Changes) {
    g.want == Index(desired) && exists rrs :: Transfer(z, rrs) && IsPlan(g.owner, desired, ReadAll(g.cfg, rrs), p)
  }

  /** One target, and a type that an index key can be taken apart at. */
  predicate OneTargetPlainType(ep: Endpoint) {
    |ep.targets| == 1 && '|' !in ep.recordType
  }

  /** The TTLs that a server which this provider writes to can hold. */
  ghost predicate ServedTTLs(g: Goal, z: Zone) {
    g.cfg.minTTL < TWO32 && forall k :: k in z && IsRecord(k) ==> g.cfg.minTTL <= z[k] < TWO32
  }

  /** An empty plan leaves no desired slot empty. */
  lemma EmptyPlanHasSlots(g: Goal, z: Zone, desired: seq<Endpoint>, p: Changes, s: string)
    requires AnyPlan(g, z, desired, p) && p.IsEmpty() && s in g.want
    ensures Has(z, s)
  {
    var rrs :| Transfer(z, rrs) && IsPlan(g.owner, desired, ReadAll(g.cfg, rrs), p);
    var _ := PlanMeaning(g.owner, desired, ReadAll(g.cfg, rrs), p);
    SlotsSeen(g, z, rrs, s);
    MissingIsPlanned(g, CurrentIndex(ReadAll(g.cfg, rrs)), s);
  }

  /** Nor an owned one that differs from what is desired. */
  lemma EmptyPlanReadsSame(g: Goal, z: Zone, desired: seq<Endpoint>, p: Changes, s: string) returns (k: RRKey)
    requires AnyPlan(g, z, desired, p) && p.IsEmpty() && s in g.want && Owned(g.owner, z, g.want[s].dnsName)
    ensures k in z && IsRecord(k) && Slot(k) == s && SameRecord(Read(g.cfg, k, z[k]), g.want[s])
  {
    EmptyPlanHasSlots(g, z, desired, p, s);
    var rrs :| Transfer(z, rrs) && IsPlan(g.owner, desired, ReadAll(g.cfg, rrs), p);
    var changed := PlanMeaning(g.owner, desired, ReadAll(g.cfg, rrs), p);
    SlotsSeen(g, z, rrs, s);
    OwnershipSeen(g, z, rrs, g.want[s].dnsName);
    k := SlotHolder(g, z, rrs, s);
    assert s !in changed;
  }

  /** The texts that records are read as are canonical. */
  lemma ReadsCanonically(cfg: Config, k: RRKey, t: string)
    requires cfg.v6.Lawful() && LegalData(k.data) && !k.data.Other? && TargetsOf(cfg, k.data) == [t]
    ensures CanonicalTarget(cfg, TypeOf(k.data), t)
  {
    match k.data
    case A(q) => IpRoundTrip(cfg.v6, V4(q)); QuadRoundTrip(q, t); AddressTargetIff(cfg, t, q);
    case AAAA(ip) => IpRoundTrip(cfg.v6, ip);
    case CNAME(c) =>
    case TXT(_) =>
  }

  lemma KeyParts(g: Goal, k: RRKey, s: string)
    requires s in g.want && EpKey(g.want[s]) == s == Slot(k) && '|' !in g.want[s].recordType
    ensures g.want[s].dnsName == NameOf(k) && g.want[s].recordType == TypeOf(k.data)
  {
    TypesHaveNoBar(k.data);
    EpKeyInjective(NameOf(k), TypeOf(k.data), g.want[s].dnsName, g.want[s].recordType);
  }

  lemma SameReadIsCanonical(g: Goal, z: Zone, k: RRKey)
    requires g.cfg.v6.Lawful() && WellFormed(z) && ServedTTLs(g, z) && k in z && IsRecord(k) && Slot(k) in g.want
    requires EpKey(g.want[Slot(k)]) == Slot(k) && OneTargetPlainType(g.want[Slot(k)]) &&
             SameRecord(Read(g.cfg, k, z[k]), g.want[Slot(k)])
    ensures Canonical(g.cfg, g.want[Slot(k)]) && !IsOwnershipTXT(g.want[Slot(k)])
  {
    var ep := g.want[Slot(k)];
    KeyParts(g, k, Slot(k));
    TypeTellsText(k.data);
    SingletonTargets(ep.targets, TargetsOf(g.cfg, k.data));
    assert TargetsOf(g.cfg, k.data) == [ep.targets[0]];
    ReadsCanonically(g.cfg, k, ep.targets[0]);
    CanonicalIff(g.cfg, ep);
  }

  lemma TypeTellsText(d: RData)
    ensures TypeOf(d) == TYPE_TXT <==> d.TXT?
  {
  }

  /** A desired endpoint at a name of ours for which nothing is planned reads back equal and is no marker: one that
      ends in a dot, has a TTL below the minimum or out of range, an address in another spelling, or an owner-prefixed
      TXT name is planned for again and again. */
  lemma EmptyPlanIsReadable(g: Goal, z: Zone, desired: seq<Endpoint>, p: Changes, s: string)
    requires g.cfg.v6.Lawful() && WellFormed(z) && ServedTTLs(g, z)
    requires AnyPlan(g, z, desired, p) && p.IsEmpty() && s in g.want && OneTargetPlainType(g.want[s]) &&
             Owned(g.owner, z, g.want[s].dnsName)
    ensures Canonical(g.cfg, g.want[s]) && !IsOwnershipTXT(g.want[s])
  {
    InIndex(desired, s);
    var k := EmptyPlanReadsSame(g, z, desired, p, s);
    SameReadIsCanonical(g, z, k);
  }

  lemma BothHeld(g: Goal, z: Zone, s: string, s': string)
    requires WellFormed(z) && s in g.want && s' in g.want && Has(z, s) && Has(z, s')
    requires EpKey(g.want[s]) == s && EpKey(g.want[s']) == s' && '|' !in g.want[s].recordType &&
             '|' !in g.want[s'].recordType
    requires g.want[s].dnsName == g.want[s'].dnsName && g.want[s].recordType == TYPE_CNAME
    ensures s == s'
  {
    var k :| k in z && IsRecord(k) && Slot(k) == s;
    var k' :| k' in z && IsRecord(k') && Slot(k') == s';
    HolderIsCname(g, k, s);
    KeyParts(g, k', s');
    SameNamedCname(z, k, k');
  }

  lemma SameNamedCname(z: Zone, k: RRKey, k': RRKey)
    requires WellFormed(z) && k in z && k' in z && k.data.CNAME? && NameOf(k) == NameOf(k')
    ensures k == k'
  {
    SameName(k, k');
  }

  /** Nothing planned means that no desired name mixes a CNAME with another type, owned or not. */
  lemma EmptyPlanIsUnmixed(g: Goal, z: Zone, desired: seq<Endpoint>, p: Changes)
    requires WellFormed(z) && AnyPlan(g, z, desired, p) && p.IsEmpty()
    requires forall s :: s in g.want ==> '|' !in g.want[s].recordType
    ensures DesiredUnmixed(g)
  {
    forall s, s' | s in g.want && s' in g.want && g.want[s].dnsName == g.want[s'].dnsName &&
        g.want[s].recordType == TYPE_CNAME
      ensures s == s'
    {
      EmptyPlanHasSlots(g, z, desired, p, s);
      EmptyPlanHasSlots(g, z, desired, p, s');
      InIndex(desired, s);
      InIndex(desired, s');
      BothHeld(g, z, s, s');
    }
  }

  /** A name that ends in a dot, or an owner-prefixed TXT name, is planned for in every cycle, owned or not. */
  lemma UnseenNeverSettles(g: Goal, z: Zone, desired: seq<Endpoint>, p: Changes, s: string)
    requires WellFormed(z) && AnyPlan(g, z, desired, p) && s in g.want && '|' !in g.want[s].recordType
    requires EndsWithDot(g.want[s].dnsName) || IsOwnershipTXT(g.want[s])
    ensures !p.IsEmpty()
  {
    if p.IsEmpty() {
      EmptyPlanHasSlots(g, z, desired, p, s);
      var k :| k in z && IsRecord(k) && Slot(k) == s;
      InIndex(desired, s);
      KeyParts(g, k, s);
      TypeTellsText(k.data);
    }
  }

  // ----- exactly which desired sets can come to rest -----

  ghost predicate AllOwned(g: Goal, z: Zone) {
    forall s :: s in g.want ==> Owned(g.owner, z, g.want[s].dnsName)
  }

  /** A zone in which every desired name is ours and nothing is left to do. */
  ghost predicate AtRest(g: Goal, z: Zone, desired: seq<Endpoint>) {
    WellFormed(z) && ServedTTLs(g, z) && AllOwned(g, z) && exists p :: AnyPlan(g, z, desired, p) && p.IsEmpty()
  }

  /** A CNAME at a marker name and the marker itself exclude each other. */
  lemma RestKeepsOffMarkers(g: Goal, z: Zone, s: string, s': string)
    requires WellFormed(z) && s in g.want && s' in g.want && Has(z, s) && Owned(g.owner, z, g.want[s'].dnsName)
    requires EpKey(g.want[s]) == s && g.want[s].recordType == TYPE_CNAME
    ensures g.want[s].dnsName != OwnershipName(g.want[s'].dnsName)
  {
    var k :| k in z && IsRecord(k) && Slot(k) == s;
    HolderIsCname(g, k, s);
    MarkerExcludes(g.owner, z, k, g.want[s'].dnsName);
  }

  lemma HolderIsCname(g: Goal, k: RRKey, s: string)
    requires s in g.want && EpKey(g.want[s]) == s == Slot(k) && g.want[s].recordType == TYPE_CNAME
    ensures k.data.CNAME? && NameOf(k) == g.want[s].dnsName
  {
    KeyParts(g, k, s);
    TypeTellsCname(k.data);
  }

  lemma MarkerExcludes(owner: string, z: Zone, k: RRKey, n: string)
    requires WellFormed(z) && k in z && k.data.CNAME? && Owned(owner, z, n)
    ensures NameOf(k) != OwnershipName(n)
  {
    var c :| c in z && Claims(owner, c, n);
    if NameOf(k) == NameOf(c) { SameNamedCname(z, k, c); }
  }

  lemma RestIsReadable(g: Goal, z: Zone, desired: seq<Endpoint>)
    requires g.cfg.v6.Lawful() && AtRest(g, z, desired) && forall s :: s in g.want ==> OneTargetPlainType(g.want[s])
    ensures DesiredReadable(g) && DesiredUnmixed(g) && DesiredOffMarkers(g)
  {
    var p :| AnyPlan(g, z, desired, p) && p.IsEmpty();
    EmptyPlanIsUnmixed(g, z, desired, p);
    forall s | s in g.want
      ensures EpKey(g.want[s]) == s && Canonical(g.cfg, g.want[s]) && g.want[s].dnsName != "" &&
              !IsOwnershipTXT(g.want[s])
    {
      InIndex(desired, s);
      EmptyPlanIsReadable(g, z, desired, p, s);
      OwnedNamesProper(g.owner, z, g.want[s].dnsName);
    }
    forall s, s' | s in g.want && s' in g.want && g.want[s].recordType == TYPE_CNAME
      ensures g.want[s].dnsName != OwnershipName(g.want[s'].dnsName)
    {
      EmptyPlanHasSlots(g, z, desired, p, s);
      RestKeepsOffMarkers(g, z, s, s');
    }
  }

  lemma FirstCycleServes(g: Goal)
    requires GoodGoal(g) && g.cfg.minTTL < TWO32
    ensures ServedTTLs(g, NextZone(g, map[])) && AllOwned(g, NextZone(g, map[]))
  {
    var z := NextZone(g, map[]);
    forall k | k in z && IsRecord(k) ensures g.cfg.minTTL <= z[k] < TWO32 { FirstRecordServed(g, k); }
    forall s | s in g.want ensures Owned(g.owner, z, g.want[s].dnsName) { FirstNameOwned(g, s); }
  }

  lemma FirstRecordServed(g: Goal, k: RRKey)
    requires GoodGoal(g) && g.cfg.minTTL < TWO32 && IsRecord(k) && k in NextZone(g, map[])
    ensures g.cfg.minTTL <= NextZone(g, map[])[k] < TWO32
  {
    RecordAfter(g, map[], k);
    assert IsWanted(g, k);
    CanonicalTTL(g.cfg, g.want[Slot(k)]);
  }

  lemma CanonicalTTL(cfg: Config, ep: Endpoint)
    requires Canonical(cfg, ep) && cfg.minTTL < TWO32
    ensures cfg.minTTL <= WrittenTTL(cfg, ep.ttl) < TWO32
  {
    CanonicalIff(cfg, ep);
  }

  lemma FirstNameOwned(g: Goal, s: string)
    requires GoodGoal(g) && s in g.want
    ensures Owned(g.owner, NextZone(g, map[]), g.want[s].dnsName)
  {
    assert Missing(g, map[], s);
    assert CreatesAt(g, map[], g.want[s].dnsName);
    OwnershipLaw(g, map[], g.want[s].dnsName);
  }

  lemma GoodGoalRests(g: Goal, desired: seq<Endpoint>) returns (z: Zone)
    requires GoodGoal(g) && g.want == Index(desired) && g.cfg.minTTL < TWO32
    ensures AtRest(g, z, desired)
  {
    z := NextZone(g, map[]);
    NextGood(g, map[]);
    OneCycleSettles(g, map[]);
    FirstCycleServes(g);
    var rrs := TransferExists(z);
    var p := PlanExists(g.owner, desired, ReadAll(g.cfg, rrs));
    PlanEmptyIffSettled(g, z, desired, rrs, p);
  }

  /** A desired set can come to rest, at names of ours and with nothing left to plan, exactly when its endpoints read
      back equal, keep CNAMEs alone and keep them off the markers.  The condition leaves out endpoints with several
      targets and types with a bar, which no list of single records can be compared with. */
  lemma RestsIffReadable(g: Goal, desired: seq<Endpoint>)
    requires g.cfg.v6.Lawful() && g.cfg.minTTL < TWO32 && g.want == Index(desired)
    requires forall s :: s in g.want ==> OneTargetPlainType(g.want[s])
    ensures (exists z :: AtRest(g, z, desired)) <==> DesiredReadable(g) && DesiredUnmixed(g) && DesiredOffMarkers(g)
  {
    if z :| AtRest(g, z, desired) { RestIsReadable(g, z, desired); }
    if DesiredReadable(g) && DesiredUnmixed(g) && DesiredOffMarkers(g) { var z := GoodGoalRests(g, desired); }
  }
}
