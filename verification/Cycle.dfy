/** One reconciliation cycle as a function on zones: a reference definition, record by record, with no lists,
    no iteration order and no message. */
module Cycle {
  import opened Text
  import opened Endpoints
  import opened Dns
  import opened Provider
  import opened Plan

  /** What one daemon wants: its configuration, its owner ID and its desired endpoints by index key. */
  datatype Goal = Goal(cfg: Config, owner: string, want: map<string, Endpoint>)

  // ----- records, markers, ownership -----

  predicate IsMarker(k: RRKey) {
    k.data.TXT? && OWNER_PREFIX <= TrimDot(k.name)
  }

  /** A record the plan can see: of a supported type and not an ownership marker. */
  predicate IsRecord(k: RRKey) {
    !k.data.Other? && !IsMarker(k)
  }

  function NameOf(k: RRKey): string { TrimDot(k.name) }

  function Slot(k: RRKey): string { NameOf(k) + "|" + TypeOf(k.data) }

  function MarkerKey(owner: string, n: string): RRKey {
    RRKey(Fqdn(OwnershipName(n)), TXT([OwnershipValue(owner)]))
  }

  predicate Claims(owner: string, k: RRKey, n: string) {
    IsMarker(k) && NameOf(k) == OwnershipName(n) && OwnershipValue(owner) in k.data.strings
  }

  ghost predicate Owned(owner: string, z: Zone, n: string) {
    exists k :: k in z && Claims(owner, k, n)
  }

  /** The zone has a record of this name and type. */
  ghost predicate Has(z: Zone, slot: string) {
    exists k :: k in z && IsRecord(k) && Slot(k) == slot
  }

  // ----- preconditions, each named -----

  /** Desired endpoints read back equal once written, have a name, and are not ownership markers. */
  ghost predicate DesiredReadable(g: Goal) {
    forall s :: s in g.want ==>
      EpKey(g.want[s]) == s && Canonical(g.cfg, g.want[s]) && g.want[s].dnsName != "" && !IsOwnershipTXT(g.want[s])
  }

  /** A desired CNAME is the only desired type of its name. */
  ghost predicate DesiredUnmixed(g: Goal) {
    forall s, s' ::
      (s in g.want && s' in g.want && g.want[s].dnsName == g.want[s'].dnsName && g.want[s].recordType == TYPE_CNAME)
      ==> s == s'
  }

  /** No desired CNAME sits where the marker of a desired name goes. */
  ghost predicate DesiredOffMarkers(g: Goal) {
    forall s, s' :: s in g.want && s' in g.want && g.want[s].recordType == TYPE_CNAME ==>
        g.want[s].dnsName != OwnershipName(g.want[s'].dnsName)
  }

  ghost predicate GoodGoal(g: Goal) {
    g.cfg.v6.Lawful() && DesiredReadable(g) && DesiredUnmixed(g) && DesiredOffMarkers(g)
  }

  ghost predicate Wanted(g: Goal, n: string) {
    exists s :: s in g.want && g.want[s].dnsName == n
  }

  ghost predicate Managed(g: Goal, z: Zone, n: string) {
    Owned(g.owner, z, n) || Wanted(g, n)
  }

  /** At a managed name there is at most one record of each type, and its text is one string. */
  ghost predicate Singletons(g: Goal, z: Zone) {
    && (forall k, k' ::
          (k in z && k' in z && IsRecord(k) && IsRecord(k') && Slot(k) == Slot(k') && Managed(g, z, NameOf(k)))
          ==> k == k')
    && (forall k :: k in z && IsRecord(k) && Managed(g, z, NameOf(k)) ==> SingleString(k.data))
  }

  /** A marker that carries our value carries nothing else. */
  ghost predicate MarkersSingle(g: Goal, z: Zone) {
    forall k, n :: k in z && Claims(g.owner, k, n) ==> k.data.strings == [OwnershipValue(g.owner)]
  }

  /** Where a CNAME is desired there is nothing the plan cannot see. */
  ghost predicate CnameNamesVisible(g: Goal, z: Zone) {
    forall s, k ::
      s in g.want && g.want[s].recordType == TYPE_CNAME && k in z && k.name == Fqdn(g.want[s].dnsName) ==> IsRecord(k)
  }

  /** No CNAME occupies the marker name of a desired name. */
  ghost predicate MarkerNamesFree(g: Goal, z: Zone) {
    forall s :: s in g.want ==> !HasCname(z, Fqdn(OwnershipName(g.want[s].dnsName)))
  }

  ghost predicate GoodZone(g: Goal, z: Zone) {
    WellFormed(z) && Singletons(g, z) && MarkersSingle(g, z) && CnameNamesVisible(g, z) && MarkerNamesFree(g, z)
  }

  // ----- the cycle -----

  ghost predicate Missing(g: Goal, z: Zone, s: string) {
    s in g.want && !Has(z, s)
  }

  ghost predicate CreatesAt(g: Goal, z: Zone, n: string) {
    exists s :: Missing(g, z, s) && g.want[s].dnsName == n
  }

  ghost predicate Dropped(g: Goal, z: Zone, k: RRKey) {
    k in z && IsRecord(k) && Owned(g.owner, z, NameOf(k)) && Slot(k) !in g.want
  }

  ghost predicate DropsAt(g: Goal, z: Zone, n: string) {
    exists k :: Dropped(g, z, k) && NameOf(k) == n
  }

  /** The server takes `k` at a name where nothing is removed first. */
  ghost predicate Free(z: Zone, k: RRKey) {
    if k.data.CNAME? then forall k' :: k' in z ==> k'.name != k.name else !HasCname(z, k.name)
  }

  predicate IsWanted(g: Goal, k: RRKey) {
    Slot(k) in g.want && k == KeyOf(g.cfg, g.want[Slot(k)])
  }

  /** The TTL record `k` has after a cycle, if it is there at all. */
  ghost function After(g: Goal, z: Zone, k: RRKey): Option<nat> {
    if IsRecord(k) then
      var owned := Owned(g.owner, z, NameOf(k));
      if IsWanted(g, k) then
        var ep := g.want[Slot(k)];
        if !Has(z, Slot(k)) then
          if owned || Free(z, k) then Some(WrittenTTL(g.cfg, ep.ttl)) else None
        else if owned && !(k in z && SameRecord(Read(g.cfg, k, z[k]), ep)) then Some(WrittenTTL(g.cfg, ep.ttl))
        else Lookup(z, k)
      else if owned then None
      else Lookup(z, k)
    else if IsMarker(k) && k == MarkerKey(g.owner, NameOf(k)[|OWNER_PREFIX|..]) then
      var n := NameOf(k)[|OWNER_PREFIX|..];
      if CreatesAt(g, z, n) then Some(WrittenTTL(g.cfg, OWNER_TTL))
      else if DropsAt(g, z, n) then None
      else Lookup(z, k)
    else Lookup(z, k)
  }

  function Candidates(g: Goal, z: Zone): set<RRKey> {
    z.Keys + (set s | s in g.want :: KeyOf(g.cfg, g.want[s]))
    + (set s | s in g.want :: MarkerKey(g.owner, g.want[s].dnsName))
  }

  /** The zone after one cycle. */
  ghost function NextZone(g: Goal, z: Zone): Zone {
    map k | k in Candidates(g, z) && After(g, z, k).Some? :: After(g, z, k).value
  }

  lemma NextZoneLookup(g: Goal, z: Zone, k: RRKey)
    ensures Lookup(NextZone(g, z), k) == After(g, z, k)
  {
    if After(g, z, k).Some? && k !in z {
      if IsRecord(k) {
        assert IsWanted(g, k);
      } else {
        var n := NameOf(k)[|OWNER_PREFIX|..];
        assert CreatesAt(g, z, n);
        var s :| Missing(g, z, s) && g.want[s].dnsName == n;
        assert k == MarkerKey(g.owner, g.want[s].dnsName);
      }
    }
  }

  // ----- text facts -----

  lemma TypesHaveNoBar(d: RData)
    ensures '|' !in TypeOf(d)
  {
  }

  lemma TypeTellsCname(d: RData)
    ensures TypeOf(d) == TYPE_CNAME <==> d.CNAME?
  {
  }

  lemma SlotInjective(k: RRKey, k': RRKey)
    requires Slot(k) == Slot(k')
    ensures NameOf(k) == NameOf(k') && TypeOf(k.data) == TypeOf(k'.data) && k.data.CNAME? == k'.data.CNAME?
  {
    TypeTellsCname(k.data);
    TypeTellsCname(k'.data);
    TypesHaveNoBar(k.data);
    TypesHaveNoBar(k'.data);
    EpKeyInjective(NameOf(k), TypeOf(k.data), NameOf(k'), TypeOf(k'.data));
  }

  lemma SameName(k: RRKey, k': RRKey)
    requires Legal(k.name) && Legal(k'.name) && NameOf(k) == NameOf(k')
    ensures k.name == k'.name
  {
    FqdnTrim(k.name);
    FqdnTrim(k'.name);
  }

  lemma MarkerKeyFacts(owner: string, n: string)
    requires n != "" && !EndsWithDot(n)
    ensures var m := MarkerKey(owner, n);
            IsMarker(m) && Legal(m.name) && NameOf(m) == OwnershipName(n) && NameOf(m)[|OWNER_PREFIX|..] == n &&
                Claims(owner, m, n)
    ensures MarkerKey(owner, n).name == OWNER_PREFIX + Fqdn(n)
  {
    assert OwnershipName(n)[|OwnershipName(n)| - 1] == n[|n| - 1];
    TrimFqdn(OwnershipName(n));
    assert OwnershipName(n)[|OWNER_PREFIX|..] == n;
    assert (OWNER_PREFIX + n) + "." == OWNER_PREFIX + (n + ".");
  }

  /** In a zone, our claim on a name is exactly the record `MarkerKey`. */
  lemma OwnedIsMarker(g: Goal, z: Zone, n: string)
    requires WellFormed(z) && MarkersSingle(g, z)
    ensures Owned(g.owner, z, n) ==> MarkerKey(g.owner, n) in z && n != "" && !EndsWithDot(n)
    ensures n != "" && !EndsWithDot(n) && MarkerKey(g.owner, n) in z ==> Owned(g.owner, z, n)
  {
    if Owned(g.owner, z, n) {
      var k :| k in z && Claims(g.owner, k, n);
      FqdnTrim(k.name);
      assert k == MarkerKey(g.owner, n);
      assert !EndsWithDot(OwnershipName(n));
      if n != "" { assert OwnershipName(n)[|OwnershipName(n)| - 1] == n[|n| - 1]; }
    }
    if n != "" && !EndsWithDot(n) && MarkerKey(g.owner, n) in z {
      MarkerKeyFacts(g.owner, n);
    }
  }

  lemma OwnedNamesProper(owner: string, z: Zone, n: string)
    requires WellFormed(z) && Owned(owner, z, n)
    ensures n != "" && !EndsWithDot(n)
  {
    var k :| k in z && Claims(owner, k, n);
    assert !EndsWithDot(NameOf(k));
    assert n == "" ==> OwnershipName(n) == OWNER_PREFIX;
    if n != "" { assert OwnershipName(n)[|OwnershipName(n)| - 1] == n[|n| - 1]; }
  }

  lemma WantFacts(g: Goal, s: string)
    requires DesiredReadable(g) && s in g.want
    ensures var k := KeyOf(g.cfg, g.want[s]);
            && Legal(k.name) && LegalData(k.data) && SingleString(k.data) && IsRecord(k)
            && Slot(k) == s && NameOf(k) == g.want[s].dnsName && IsWanted(g, k)
            && (k.data.CNAME? <==> g.want[s].recordType == TYPE_CNAME)
            && Read(g.cfg, k, WrittenTTL(g.cfg, g.want[s].ttl)) == g.want[s]
            && k.name == Fqdn(g.want[s].dnsName)
    ensures !EndsWithDot(g.want[s].dnsName) && g.want[s].dnsName != ""
    ensures EndpointToRRs(g.cfg, g.want[s]) == Some([RR(KeyOf(g.cfg, g.want[s]), WrittenTTL(g.cfg, g.want[s].ttl))])
  {
    CanonicalWrites(g.cfg, g.want[s]);
  }

  lemma WantAtSlot(g: Goal, k: RRKey)
    requires DesiredReadable(g) && Slot(k) in g.want
    ensures g.want[Slot(k)].dnsName == NameOf(k) && (g.want[Slot(k)].recordType == TYPE_CNAME <==> k.data.CNAME?)
  {
    WantFacts(g, Slot(k));
    SlotInjective(k, KeyOf(g.cfg, g.want[Slot(k)]));
  }
}
