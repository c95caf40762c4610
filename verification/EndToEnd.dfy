/** The whole way from the labels of a container to the records of a zone, in the texts a user sees. */
module EndToEnd {
  import opened Text
  import opened Addresses
  import opened Endpoints
  import opened Dns
  import opened Provider
  import opened Plan
  import opened Cycle
  import opened CycleLaws
  import opened Refinement
  import opened Safety
  import opened ContainerLabels
  import opened Counterexamples

  function Labelled(n: string, q: Quad, ttl: nat): LabelMap {
    map["external-dns.io/hostname" := n, "external-dns.io/target" := PrintQuad(q), "external-dns.io/ttl" := Decimal(ttl)]
  }

  function Desired(n: string, q: Quad, ttl: nat): Endpoint { Endpoint(n, [PrintQuad(q)], "A", ttl) }

  lemma NoSpaceInDigits(s: string)
    requires AllDigits(s) && s != ""
    ensures TrimSpace(s) == s
  {
    NothingToTrim(s);
  }

  lemma NoSpaceInQuad(q: Quad)
    ensures TrimSpace(PrintQuad(q)) == PrintQuad(q)
  {
    var s, first, last := PrintQuad(q), Decimal(q.a), Decimal(q.d);
    assert s[0] == first[0] && s[|s| - 1] == last[|last| - 1];
    NothingToTrim(s);
  }

  lemma NoSpaceInHostname(n: string)
    requires IsHostname(n)
    ensures n != "" && TrimSpace(n) == n
  {
    HostnameChars(n);
    assert n[0] in n && n[|n| - 1] in n;
    assert HostChar(n[0]) && HostChar(n[|n| - 1]);
    NothingToTrim(n);
  }

  lemma TTLOfDecimal(ttl: nat)
    requires 1 <= ttl < 0x1_0000_0000
    ensures MeansTTL(Decimal(ttl), ttl)
  {
    NoSpaceInDigits(Decimal(ttl));
    assert Decimal(ttl) == Zeros(0) + Decimal(ttl);
    assert Numeral(Decimal(ttl), ttl);
  }

  lemma LabelledParses(v6: Ip6Text, n: string, q: Quad, ttl: nat)
    requires v6.Lawful() && IsHostname(n) && 1 <= ttl < 0x1_0000_0000
    ensures ParseRecord(v6, n, PrintQuad(q), Decimal(ttl), "") == Some(Desired(n, q, ttl))
  {
    NoSpaceInHostname(n);
    NoSpaceInQuad(q);
    TTLOfDecimal(ttl);
    assert PrintIP(v6, V4(q)) == PrintQuad(q);
    IpRoundTrip(v6, V4(q));
    RecordMeaning(v6, n, PrintQuad(q), Decimal(ttl), "", Desired(n, q, ttl));
  }

  lemma LabelledEndpoints(v6: Ip6Text, n: string, q: Quad, ttl: nat)
    requires v6.Lawful() && IsHostname(n) && 1 <= ttl < 0x1_0000_0000
    ensures EndpointsOf(v6, Labelled(n, q, ttl)) == [Desired(n, q, ttl)]
  {
    var labels := Labelled(n, q, ttl);
    LabelKeys(v6, labels, 0);
    LabelledParses(v6, n, q, ttl);
    assert |"external-dns.io/hostname-" + Decimal(0)| == 26;
    assert At(labels, "external-dns.io/record-type") == "" by {
      assert |"external-dns.io/record-type"| == 27;
    }
  }

  lemma DesiredCanonical(cfg: Config, n: string, q: Quad, ttl: nat)
    requires !EndsWithDot(n) && 1 <= ttl < TWO32 && cfg.minTTL <= ttl
    ensures Canonical(cfg, Desired(n, q, ttl)) && KeyOf(cfg, Desired(n, q, ttl)) == RRKey(n + ".", A(q))
  {
    QuadRoundTrip(q, PrintQuad(q));
    FirstSeparatorAfterDigits(Decimal(q.a), Decimal(q.b) + "." + (Decimal(q.c) + "." + Decimal(q.d)));
    CanonicalIff(cfg, Desired(n, q, ttl));
  }

  function OneGoal(cfg: Config, owner: string, n: string, q: Quad, ttl: nat): Goal {
    Goal(cfg, owner, Index([Desired(n, q, ttl)]))
  }

  lemma OneGoalGood(cfg: Config, owner: string, n: string, q: Quad, ttl: nat)
    requires cfg.v6.Lawful() && n != "" && !EndsWithDot(n) && 1 <= ttl < TWO32 && cfg.minTTL <= ttl
    ensures var g := OneGoal(cfg, owner, n, q, ttl);
            GoodGoal(g) && GoodZone(g, map[]) && g.want == map[n + "|A" := Desired(n, q, ttl)]
  {
    DesiredCanonical(cfg, n, q, ttl);
    OnlyDesired(Desired(n, q, ttl));
    assert n + "|" + "A" == n + "|A";
  }

  function OwnerMark(owner: string): string { "heritage=external-dns-docker,external-dns-docker/owner=" + owner }

  /** The record and its marker. */
  function FirstZone(cfg: Config, owner: string, n: string, q: Quad, ttl: nat): Zone {
    map[RRKey(n + ".", A(q)) := ttl,
        RRKey("external-dns-docker-owner." + n + ".", TXT([OwnerMark(owner)])) :=
            if cfg.minTTL > 300 then cfg.minTTL else 300]
  }

  lemma FirstMarker(owner: string, n: string)
    requires n != "" && !EndsWithDot(n)
    ensures MarkerKey(owner, n) == RRKey("external-dns-docker-owner." + n + ".", TXT([OwnerMark(owner)]))
  {
    MarkerKeyFacts(owner, n);
    assert OWNER_PREFIX + (n + ".") == "external-dns-docker-owner." + n + ".";
  }

  // ----- the first cycle for one desired endpoint -----

  lemma OnlyRecord(g: Goal, s: string, k: RRKey)
    requires GoodGoal(g) && g.want.Keys == {s} && IsRecord(k)
    ensures After(g, map[], k) ==
            if k == KeyOf(g.cfg, g.want[s]) then Some(WrittenTTL(g.cfg, g.want[s].ttl)) else None
  {
    WantFacts(g, s);
  }

  lemma CreatesOnly(g: Goal, s: string, m: string)
    requires g.want.Keys == {s}
    ensures CreatesAt(g, map[], m) <==> m == g.want[s].dnsName
    ensures !DropsAt(g, map[], m)
  {
    assert Missing(g, map[], s);
  }

  lemma OnlyMarker(g: Goal, s: string, k: RRKey)
    requires GoodGoal(g) && g.want.Keys == {s} && !IsRecord(k)
    ensures After(g, map[], k) ==
            if k == MarkerKey(g.owner, g.want[s].dnsName) then Some(WrittenTTL(g.cfg, OWNER_TTL)) else None
  {
    var n := g.want[s].dnsName;
    WantFacts(g, s);
    MarkerKeyFacts(g.owner, n);
    if OurMarker(g, k) {
      var m := NameOf(k)[|OWNER_PREFIX|..];
      CreatesOnly(g, s, m);
    } else {
      assert k != MarkerKey(g.owner, n);
    }
  }

  lemma FirstLookup(g: Goal, s: string, k: RRKey)
    requires GoodGoal(g) && g.want.Keys == {s}
    ensures Lookup(NextZone(g, map[]), k) ==
            if k == KeyOf(g.cfg, g.want[s]) then Some(WrittenTTL(g.cfg, g.want[s].ttl))
            else if k == MarkerKey(g.owner, g.want[s].dnsName) then Some(WrittenTTL(g.cfg, OWNER_TTL))
            else None
  {
    NextZoneLookup(g, map[], k);
    WantFacts(g, s);
    MarkerKeyFacts(g.owner, g.want[s].dnsName);
    if IsRecord(k) { OnlyRecord(g, s, k); } else { OnlyMarker(g, s, k); }
  }

  lemma WrittenTTLs(cfg: Config, ttl: nat)
    requires 1 <= ttl < TWO32 && cfg.minTTL <= ttl
    ensures WrittenTTL(cfg, ttl) == ttl && WrittenTTL(cfg, OWNER_TTL) == if cfg.minTTL > 300 then cfg.minTTL else 300
  {
  }

  lemma RecordIsNoMarker(g: Goal, s: string)
    requires GoodGoal(g) && s in g.want
    ensures KeyOf(g.cfg, g.want[s]) != MarkerKey(g.owner, g.want[s].dnsName)
  {
    WantFacts(g, s);
    MarkerKeyFacts(g.owner, g.want[s].dnsName);
  }

  lemma LookupTwo(a: RRKey, s: nat, b: RRKey, t: nat, k: RRKey)
    requires a != b
    ensures Lookup(map[a := s, b := t], k) == if k == a then Some(s) else if k == b then Some(t) else None
  {
  }

  lemma TwoRecords(g: Goal, s: string, record: RRKey, ttl: nat, marker: RRKey, markerTTL: nat)
    requires GoodGoal(g) && g.want.Keys == {s}
    requires record == KeyOf(g.cfg, g.want[s]) && ttl == WrittenTTL(g.cfg, g.want[s].ttl)
    requires marker == MarkerKey(g.owner, g.want[s].dnsName) && markerTTL == WrittenTTL(g.cfg, OWNER_TTL)
    ensures NextZone(g, map[]) == map[record := ttl, marker := markerTTL]
  {
    RecordIsNoMarker(g, s);
    var y, z := NextZone(g, map[]), map[record := ttl, marker := markerTTL];
    forall k ensures Lookup(y, k) == Lookup(z, k) {
      FirstLookup(g, s, k);
      LookupTwo(record, ttl, marker, markerTTL, k);
    }
    SameLookupsSameZone(y, z);
  }

  lemma FirstZoneIsNext(cfg: Config, owner: string, n: string, q: Quad, ttl: nat)
    requires cfg.v6.Lawful() && n != "" && !EndsWithDot(n) && 1 <= ttl < TWO32 && cfg.minTTL <= ttl
    ensures NextZone(OneGoal(cfg, owner, n, q, ttl), map[]) == FirstZone(cfg, owner, n, q, ttl)
  {
    OneGoalGood(cfg, owner, n, q, ttl);
    DesiredCanonical(cfg, n, q, ttl);
    FirstMarker(owner, n);
    WrittenTTLs(cfg, ttl);
    TwoRecords(OneGoal(cfg, owner, n, q, ttl), n + "|A", RRKey(n + ".", A(q)), ttl, MarkerKey(owner, n),
        if cfg.minTTL > 300 then cfg.minTTL else 300);
  }

  /** A container with hostname, target and TTL labels, a zone that is still empty, and whichever plan `Calculate`
      returns: the first cycle writes the record with that TTL, and beside it the marker with the owner's value, and
      nothing else. */
  lemma LabelsToZone(cfg: Config, owner: string, n: string, q: Quad, ttl: nat, p: Changes)
    requires cfg.v6.Lawful() && IsHostname(n) && !EndsWithDot(n)
    requires 1 <= ttl < 0x1_0000_0000 && cfg.minTTL <= ttl
    requires CycleOf(cfg, owner, map[], EndpointsOf(cfg.v6, Labelled(n, q, ttl)), p)
    ensures Run(map[], Message(cfg, p)) == FirstZone(cfg, owner, n, q, ttl)
  {
    var g := OneGoal(cfg, owner, n, q, ttl);
    NoSpaceInHostname(n);
    LabelledEndpoints(cfg.v6, n, q, ttl);
    OneGoalGood(cfg, owner, n, q, ttl);
    var desired := [Desired(n, q, ttl)];
    var rrs :| Transfer(map[], rrs) && IsPlan(owner, desired, ReadAll(cfg, rrs), p);
    CycleIsNextZone(g, map[], desired, rrs, p);
    FirstZoneIsNext(cfg, owner, n, q, ttl);
  }
}
