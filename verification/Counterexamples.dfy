/** Inputs on which the code does not do what its documentation promises.  Each belongs to a law that says exactly when
    it does. */
module Counterexamples {
  import opened Text
  import opened Addresses
  import opened Endpoints
  import opened Dns
  import opened Provider
  import opened Plan
  import opened Cycle
  import opened CycleLaws
  import opened Refinement
  import opened Convergence
  import opened Necessity
  import opened Safety
  import opened FakeProvider
  import opened ContainerLabels
  import opened Instance

  // ----- records and marker of one name -----

  function Wanted4(): RRKey { RRKey("app.", A(ADDRESS)) }

  function Other6(): RRKey { RRKey("app.", AAAA(V6([0x2001, 0xdb8, 0, 0, 0, 0, 0, 1]))) }

  lemma AppKeys(v6: Ip6Text)
    ensures var a, b := Wanted4(), Other6();
            && IsRecord(a) && NameOf(a) == APP && Slot(a) == EpKey(AppEndpoint()) && IsWanted(AppGoal(v6), a)
            && IsRecord(b) && NameOf(b) == APP && Slot(b) == APP + "|" + TYPE_AAAA && Slot(b) !in AppGoal(v6).want
            && Legal(a.name) && Legal(b.name)
  {
    AppGoalFacts(v6);
    TrimFqdn(APP);
    assert Fqdn(APP) == "app.";
    assert Slot(Other6())[4..] == TYPE_AAAA && EpKey(AppEndpoint())[4..] == TYPE_A;
  }

  function AppMarker(): RRKey { MarkerKey("me", APP) }

  lemma AppMarkerFacts()
    ensures IsMarker(AppMarker()) && Claims("me", AppMarker(), APP) && Legal(AppMarker().name) &&
            AppMarker().name != "app."
    ensures AppMarker().data == TXT([OwnershipValue("me")])
  {
    MarkerKeyFacts("me", APP);
    assert |AppMarker().name| > 4;
  }

  ghost predicate AppZone(z: Zone) {
    forall k :: k in z ==> k == Wanted4() || k == Other6() || k == AppMarker()
  }

  lemma AppZoneWellFormed(v6: Ip6Text, z: Zone)
    requires AppZone(z)
    ensures WellFormed(z) && forall k :: k in z ==> !k.data.CNAME?
  {
    AppKeys(v6);
    AppMarkerFacts();
  }

  lemma AppZoneSingletons(v6: Ip6Text, z: Zone)
    requires AppZone(z)
    ensures Singletons(AppGoal(v6), z) && MarkersSingle(AppGoal(v6), z)
  {
    AppKeys(v6);
    AppMarkerFacts();
    AppGoalFacts(v6);
    assert Slot(Wanted4()) in AppGoal(v6).want && Slot(Other6()) !in AppGoal(v6).want;
  }

  lemma AppZoneNames(v6: Ip6Text, z: Zone)
    requires AppZone(z)
    ensures CnameNamesVisible(AppGoal(v6), z) && MarkerNamesFree(AppGoal(v6), z)
  {
    AppGoalFacts(v6);
    AppZoneWellFormed(v6, z);
  }

  /** Any of the three records makes a good zone. */
  lemma AppZoneGood(v6: Ip6Text, z: Zone)
    requires v6.Lawful() && AppZone(z)
    ensures GoodZone(AppGoal(v6), z)
    ensures Owned("me", z, APP) <==> AppMarker() in z
  {
    AppZoneWellFormed(v6, z);
    AppZoneSingletons(v6, z);
    AppZoneNames(v6, z);
    OwnedIsMarker(AppGoal(v6), z, APP);
  }

  // ----- "for each managed record, a companion TXT record" -----

  /** An owned name with an A and an AAAA record, of which only the A is still desired: the A record survives the next
      cycle, its marker does not. */
  lemma SurvivorLosesMarker() returns (g: Goal, z: Zone, k: RRKey)
    ensures GoodGoal(g) && GoodZone(g, z) && k in z && IsRecord(k) && Owned(g.owner, z, NameOf(k))
    ensures ReadsAsWanted(g, NextZone(g, z), k) && !Owned(g.owner, NextZone(g, z), NameOf(k))
  {
    var v6 := LawfulText();
    AppGoalGood(v6);
    AppGoalFacts(v6);
    AppKeys(v6);
    g, k := AppGoal(v6), Wanted4();
    z := map[Wanted4() := 300, Other6() := 300, AppMarker() := 300];
    AppZoneGood(v6, z);
    assert Dropped(g, z, Other6());
    NothingMissing(v6, z);
    OwnershipLaw(g, z, APP);
    WantedReads(g, z, k);
  }

  lemma NothingMissing(v6: Ip6Text, z: Zone)
    requires Wanted4() in z
    ensures !CreatesAt(AppGoal(v6), z, APP)
  {
    AppGoalFacts(v6);
    AppKeys(v6);
    assert Has(z, Slot(Wanted4()));
  }

  // ----- "only records with a matching ownership TXT record are ever modified or deleted" -----

  /** A record without a marker, lost after two cycles because another type is desired at its name. */
  lemma UnownedRecordLost() returns (g: Goal, z: Zone, k: RRKey)
    ensures GoodGoal(g) && GoodZone(g, z) && k in z && IsRecord(k) && !Owned(g.owner, z, NameOf(k))
    ensures k !in NextZone(g, NextZone(g, z))
  {
    var v6 := LawfulText();
    AppGoalGood(v6);
    AppGoalFacts(v6);
    AppKeys(v6);
    AppMarkerFacts();
    g, k := AppGoal(v6), Other6();
    z := map[k := 60];
    AppZoneGood(v6, z);
    assert Missing(g, z, EpKey(AppEndpoint()));
    assert CreatesAt(g, z, APP);
    UnownedRecordFate(g, z, k);
  }

  const BAR_RECORD: RRKey := RRKey("a|b.", A(Quad(10, 0, 0, 1)))
  const BAR_DESIRED: seq<Endpoint> := [Endpoint("a", ["1.2.3.4"], "b|A", 300)]

  function BarZone(owner: string): Zone { map[BAR_RECORD := 60, MarkerKey(owner, "a") := 300] }

  lemma BarRecordFacts()
    ensures var k := BAR_RECORD;
            && IsRecord(k) && Legal(k.name) && NameOf(k) == "a|b" && Slot(k) == "a|b|A" && Bare(k.name) == "a|b"
  {
    assert TrimDot("a|b.") == "a|b";
  }

  lemma BarZoneUnclaimed(owner: string)
    ensures !Claimed(owner, BarZone(owner), "a|b")
  {
    assert Bare("a") == "a";
    MarkerOfOther(owner, "a", "a|b");
    assert !Claiming(owner, BAR_RECORD, "a|b");
  }

  lemma BarZoneWellFormed(owner: string)
    ensures WellFormed(BarZone(owner))
  {
    BarRecordFacts();
    MarkerKeyFacts(owner, "a");
  }

  lemma BarNotDesired()
    ensures NotDesired(BAR_DESIRED, "a|b")
  {
    assert Bare("a") == "a" && |OwnershipName("a|b")| > 1;
  }

  lemma BarZoneClashes(cfg: Config, owner: string)
    ensures Clash(cfg, owner, BarZone(owner), BAR_DESIRED, BAR_RECORD)
  {
    var d, c := BAR_DESIRED[0], MarkerKey(owner, "a");
    BarRecordFacts();
    MarkerKeyFacts(owner, "a");
    assert BAR_DESIRED[..0] == [] && EpKey(d) == "a|b|A";
    assert Index(BAR_DESIRED) == map["a|b|A" := d];
    assert c in BarZone(owner) && Claims(owner, c, "a") && !IsRecord(c);
  }

  /** In one cycle, too: a desired type with a bar makes the index key of another name, and a record that is neither
      claimed nor desired is removed. */
  lemma BarInTypeRemoves(cfg: Config, owner: string) returns (p: Changes)
    requires cfg.v6.Lawful()
    ensures !Claimed(owner, BarZone(owner), "a|b") && NotDesired(BAR_DESIRED, "a|b") && WellFormed(BarZone(owner))
    ensures CycleOf(cfg, owner, BarZone(owner), BAR_DESIRED, p)
    ensures BAR_RECORD in BarZone(owner) && BAR_RECORD !in Run(BarZone(owner), Message(cfg, p))
  {
    var z := BarZone(owner);
    BarZoneUnclaimed(owner);
    BarZoneWellFormed(owner);
    BarNotDesired();
    BarRecordFacts();
    var rrs := TransferExists(z);
    p := PlanExists(owner, BAR_DESIRED, ReadAll(cfg, rrs));
    RewriteHitsIff(cfg, BAR_RECORD, 60);
    BarZoneClashes(cfg, owner);
    ClashRemoves(cfg, owner, z, BAR_DESIRED, p, BAR_RECORD, BAR_RECORD);
  }

  // ----- hostnames and targets that pass the parser and never settle -----

  lemma NothingToTrim(s: string)
    requires s != [] && !IsSpace(s[0]) && !IsSpace(s[|s| - 1])
    ensures TrimSpace(s) == s
  {
  }

  lemma OneLabelIsHostname(s: string)
    requires IsLabel(s) && '.' !in s
    ensures IsHostname(s) && IsHostname(s + ".") && |Labels(s)| == 1
  {
    assert TrimDot(s + ".") == s && !EndsWithDot(s);
    LabelsWithoutDot(s);
  }

  const DOTTED: LabelMap := map["external-dns.io/hostname" := "app.", "external-dns.io/target" := "host"]

  lemma DottedParses(v6: Ip6Text)
    ensures ParseRecord(v6, "app.", "host", "", "") == Some(Endpoint("app.", ["host"], TYPE_CNAME, 300))
  {
    NothingToTrim("app.");
    NothingToTrim("host");
    assert "app" + "." == "app.";
    OneLabelIsHostname("app");
    HostTarget(v6);
    ParsesAs(v6, "app.", "host");
  }

  lemma HostTarget(v6: Ip6Text)
    ensures IsTarget(v6, "host") && InferRecordType(v6, "host") == TYPE_CNAME
  {
    OneLabelIsHostname("host");
    NoSeparator("host");
  }

  lemma ParsesAs(v6: Ip6Text, name: string, target: string)
    requires name != "" && target != "" && TrimSpace(name) == name && TrimSpace(target) == target
    requires IsHostname(name) && IsTarget(v6, target)
    ensures ParseRecord(v6, name, target, "", "") == Some(Endpoint(name, [target], InferRecordType(v6, target), 300))
  {
  }

  lemma {:induction false} NoSeparator(s: string)
    requires forall i :: 0 <= i < |s| ==> s[i] != '.' && s[i] != ':' && s[i] != '%'
    ensures FirstSeparator(s) == None
  {
    if s != [] { NoSeparator(s[1..]); }
  }

  lemma DottedEndpoints(v6: Ip6Text)
    ensures EndpointsOf(v6, DOTTED) == [Endpoint("app.", ["host"], TYPE_CNAME, 300)]
  {
    DottedPlain(v6);
    DottedHasNoIndex();
  }

  lemma DottedHasNoIndex()
    ensures !HasHost(DOTTED, 0)
  {
    assert |IndexKey("hostname", 0)| == 26;
  }

  lemma DottedPlain(v6: Ip6Text)
    ensures Plain(v6, DOTTED) == Some(Endpoint("app.", ["host"], TYPE_CNAME, 300))
  {
    DottedParses(v6);
    assert LABEL_PREFIX + "hostname" == "external-dns.io/hostname" &&
        LABEL_PREFIX + "target" == "external-dns.io/target";
    assert |LABEL_PREFIX + "ttl"| == 19 && |LABEL_PREFIX + "record-type"| == 27;
  }

  lemma OnlyDesired(ep: Endpoint)
    ensures Index([ep]) == map[EpKey(ep) := ep]
  {
    assert [ep][..0] == [];
  }

  lemma OneUnseenNeverSettles(cfg: Config, owner: string, z: Zone, ep: Endpoint, p: Changes)
    requires WellFormed(z) && CycleOf(cfg, owner, z, [ep], p) && '|' !in ep.recordType && EndsWithDot(ep.dnsName)
    ensures !p.IsEmpty()
  {
    OnlyDesired(ep);
    UnseenNeverSettles(Goal(cfg, owner, Index([ep])), z, [ep], p, EpKey(ep));
  }

  lemma OneUnreadableNeverSettles(cfg: Config, owner: string, z: Zone, ep: Endpoint, p: Changes)
    requires cfg.v6.Lawful() && WellFormed(z) && ServedTTLs(Goal(cfg, owner, map[]), z) && Owned(owner, z, ep.dnsName)
    requires CycleOf(cfg, owner, z, [ep], p) && OneTargetPlainType(ep) && !Canonical(cfg, ep)
    ensures !p.IsEmpty()
  {
    OnlyDesired(ep);
    if p.IsEmpty() { EmptyPlanIsReadable(Goal(cfg, owner, Index([ep])), z, [ep], p, EpKey(ep)); }
  }

  /** The labels of a container whose hostname ends in a dot: accepted, and planned for in every cycle, whatever the
      zone holds. */
  lemma DottedHostnameNeverSettles(cfg: Config, owner: string, z: Zone, p: Changes)
    requires WellFormed(z) && CycleOf(cfg, owner, z, EndpointsOf(cfg.v6, DOTTED), p)
    ensures EndpointsOf(cfg.v6, DOTTED) == [Endpoint("app.", ["host"], TYPE_CNAME, 300)] && !p.IsEmpty()
  {
    DottedEndpoints(cfg.v6);
    OneUnseenNeverSettles(cfg, owner, z, Endpoint("app.", ["host"], TYPE_CNAME, 300), p);
  }

  function MappedEndpoint(): Endpoint { Endpoint("app", [MAPPED], TYPE_A, 300) }

  lemma MappedIsNotCanonical(cfg: Config, q: Quad)
    requires cfg.v6.parse(MAPPED) == Some(V4(q)) && cfg.minTTL < TWO32
    ensures !Canonical(cfg, MappedEndpoint())
  {
    CanonicalIff(cfg, MappedEndpoint());
    assert FirstSeparator(MAPPED) == Some(':');
  }

  /** An IPv4 address in IPv6 notation is accepted as an A record, and where its name is ours no plan is ever empty. */
  lemma MappedAddressNeverSettles(cfg: Config, owner: string, q: Quad, z: Zone, p: Changes)
    requires cfg.v6.Lawful() && cfg.v6.parse(MAPPED) == Some(V4(q)) && CycleOf(cfg, owner, z, [MappedEndpoint()], p)
    requires WellFormed(z) && ServedTTLs(Goal(cfg, owner, map[]), z) && Owned(owner, z, "app")
    ensures ParseRecord(cfg.v6, "app", MAPPED, "", "") == Some(MappedEndpoint()) && !p.IsEmpty()
  {
    MappedAddressParses(cfg.v6, q);
    MappedIsNotCanonical(cfg, q);
    OneUnreadableNeverSettles(cfg, owner, z, MappedEndpoint(), p);
  }

  /** Such a configuration, zone and plan exist. */
  lemma MappedAddressPlanned() returns (cfg: Config, z: Zone, p: Changes)
    ensures cfg.v6.Lawful() && cfg.v6.parse(MAPPED) == Some(V4(ADDRESS))
    ensures WellFormed(z) && ServedTTLs(Goal(cfg, "me", map[]), z) && Owned("me", z, "app")
    ensures CycleOf(cfg, "me", z, [MappedEndpoint()], p) && !p.IsEmpty()
  {
    var v6 := LawfulText();
    cfg, z := Config(0, v6), map[AppMarker() := 300];
    AppMarkerFacts();
    AppZoneWellFormed(v6, z);
    assert Claims("me", AppMarker(), "app");
    var rrs := TransferExists(z);
    p := PlanExists("me", [MappedEndpoint()], ReadAll(cfg, rrs));
    MappedAddressNeverSettles(cfg, "me", ADDRESS, z, p);
  }

  lemma MappedAddressParses(v6: Ip6Text, q: Quad)
    requires v6.parse(MAPPED) == Some(V4(q))
    ensures ParseRecord(v6, "app", MAPPED, "", "") == Some(Endpoint("app", [MAPPED], TYPE_A, 300))
  {
    NothingToTrim("app");
    NothingToTrim(MAPPED);
    OneLabelIsHostname("app");
    assert FirstSeparator(MAPPED) == Some(':');
    ParsesAs(v6, "app", MAPPED);
  }

  // ----- the in-memory provider in place of the zone -----

  function ReplacedZone(): Zone { map[Other6() := 300, AppMarker() := 300] }

  function AppStore(g: Goal): Store {
    map[Slot(Other6()) := Read(g.cfg, Other6(), 300), MarkerSlot(APP) := OwnershipTXT("me", APP)]
  }

  lemma AppReplaces(v6: Ip6Text)
    requires v6.Lawful()
    ensures Replaces(AppGoal(v6), ReplacedZone(), APP)
  {
    AppDrops(v6);
    AppCreates(v6);
  }

  lemma AppDrops(v6: Ip6Text)
    requires v6.Lawful()
    ensures DropsAt(AppGoal(v6), ReplacedZone(), APP)
  {
    AppKeys(v6);
    AppZoneGood(v6, ReplacedZone());
    assert Dropped(AppGoal(v6), ReplacedZone(), Other6());
  }

  lemma AppCreates(v6: Ip6Text)
    ensures CreatesAt(AppGoal(v6), ReplacedZone(), APP)
  {
    AppKeys(v6);
    AppGoalFacts(v6);
    AppMarkerFacts();
    assert Missing(AppGoal(v6), ReplacedZone(), EpKey(AppEndpoint()));
  }

  lemma AppStoreEntries(v6: Ip6Text)
    ensures var g := AppGoal(v6); SingleOwner(g, AppStore(g)) && RecordsAgree(g, AppStore(g), ReplacedZone())
  {
    var g := AppGoal(v6);
    AppKeys(v6);
    AppMarkerFacts();
    RecordSlotIsNoMarkerSlot(Other6(), APP);
    ReadMarks(g, Other6(), 300, "");
    assert IsOwnershipTXT(OwnershipTXT("me", APP)) && EpKey(OwnershipTXT("me", APP)) == MarkerSlot(APP);
  }

  lemma AppStoreMarkers(v6: Ip6Text, n: string)
    requires v6.Lawful()
    ensures MarkerSlot(n) in AppStore(AppGoal(v6)) <==> Owned("me", ReplacedZone(), n)
  {
    AppZoneGood(v6, ReplacedZone());
    if MarkerSlot(n) in AppStore(AppGoal(v6)) { OneMarkerStored(v6, n); }
    if Owned("me", ReplacedZone(), n) { OneClaim(n); }
  }

  lemma OneMarkerStored(v6: Ip6Text, n: string)
    requires MarkerSlot(n) in AppStore(AppGoal(v6))
    ensures n == APP
  {
    AppKeys(v6);
    RecordSlotIsNoMarkerSlot(Other6(), n);
    MarkerSlotInjective(n, APP);
  }

  lemma OneClaim(n: string)
    requires Owned("me", ReplacedZone(), n)
    ensures n == APP
  {
    AppMarkerFacts();
    var k :| k in ReplacedZone() && Claims("me", k, n);
    assert OwnershipName(n)[|OWNER_PREFIX|..] == n && OwnershipName(APP)[|OWNER_PREFIX|..] == APP;
  }

  lemma AppStoreMirrors(v6: Ip6Text)
    requires v6.Lawful()
    ensures Mirrors(AppGoal(v6), AppStore(AppGoal(v6)), ReplacedZone())
  {
    AppStoreEntries(v6);
    forall n
      ensures MarkerSlot(n) in AppStore(AppGoal(v6)) <==> Owned("me", ReplacedZone(), n)
    {
      AppStoreMarkers(v6, n);
    }
  }

  /** An AAAA record of ours is replaced by an A record: the zone keeps the marker, the in-memory store loses it. */
  lemma StoreLosesMarker() returns (g: Goal, rrs: seq<RR>, p: Changes)
    ensures PlanOf(g, ReplacedZone(), [AppEndpoint()], rrs, p)
    ensures Mirrors(g, AppStore(g), ReplacedZone()) && MarkerSlot(APP) in AppStore(g)
    ensures Owned(g.owner, NextZone(g, ReplacedZone()), APP) && MarkerSlot(APP) !in Applied(AppStore(g), p)
  {
    var v6 := LawfulText();
    g := AppGoal(v6);
    rrs, p := AppPlan(v6);
    AppStoreMirrors(v6);
    AppStoreAfter(v6, rrs, p);
  }

  /** A plan for the zone. */
  lemma AppPlan(v6: Ip6Text) returns (rrs: seq<RR>, p: Changes)
    requires v6.Lawful()
    ensures PlanOf(AppGoal(v6), ReplacedZone(), [AppEndpoint()], rrs, p)
  {
    var g := AppGoal(v6);
    AppGoalGood(v6);
    AppZoneGood(v6, ReplacedZone());
    rrs := TransferExists(ReplacedZone());
    p := PlanExists(g.owner, [AppEndpoint()], ReadAll(g.cfg, rrs));
  }

  lemma AppStoreAfter(v6: Ip6Text, rrs: seq<RR>, p: Changes)
    requires v6.Lawful() && PlanOf(AppGoal(v6), ReplacedZone(), [AppEndpoint()], rrs, p)
    ensures var g := AppGoal(v6);
            Owned("me", NextZone(g, ReplacedZone()), APP) && MarkerSlot(APP) !in Applied(AppStore(g), p)
  {
    AppReplaces(v6);
    AppStoreMirrors(v6);
    StoreMarkers(AppGoal(v6), ReplacedZone(), [AppEndpoint()], rrs, p, AppStore(AppGoal(v6)), APP);
  }
}
