/** Longest-suffix routing (pkg/provider/rfc2136/multizone.go:161-177), down to dot-separated labels. */
module Routing {
  import opened Text
  import opened Plan

  /** The string test of `zoneFor`. */
  predicate Matches(zone: string, dnsName: string) {
    var name, z := TrimDot(dnsName), TrimDot(zone);
    name == z || HasSuffix(name, "." + z)
  }

  function Length(zone: string): nat { |TrimDot(zone)| }

  /** How much of the name a zone covers; 0 for a zone that does not match, and for the root. */
  function Score(zone: string, dnsName: string): nat {
    if Matches(zone, dnsName) then Length(zone) else 0
  }

  function Scores(zones: seq<string>, dnsName: string): seq<nat> {
    seq(|zones|, i requires 0 <= i < |zones| => Score(zones[i], dnsName))
  }

  /** The first of the greatest among the first `n` scores, if one is positive. */
  function Best(scores: seq<nat>, n: nat): (r: Option<nat>)
    requires n <= |scores|
    ensures match r
            case None => forall j :: 0 <= j < n ==> scores[j] == 0
            case Some(i) =>
              && i < n && scores[i] > 0 && (forall j :: 0 <= j < n ==> scores[j] <= scores[i])
              && (forall j :: 0 <= j < i ==> scores[j] < scores[i])
  {
    if n == 0 then None
    else
      var best := Best(scores, n - 1);
      var bestLen := if best.Some? then scores[best.value] else 0;
      if scores[n - 1] > bestLen then Some(n - 1) else best
  }

  function Route(zones: seq<string>, dnsName: string): (r: Option<nat>)
    ensures r.Some? ==> r.value < |zones|
  {
    Best(Scores(zones, dnsName), |zones|)
  }

  /** Of several entries for one zone the first is the answer. */
  lemma RouteIsFirst(zones: seq<string>, dnsName: string, j: nat)
    requires Route(zones, dnsName).Some? && j < Route(zones, dnsName).value
    ensures zones[j] != zones[Route(zones, dnsName).value]
  {
    var scores, r := Scores(zones, dnsName), Route(zones, dnsName).value;
    assert scores[j] < scores[r];
  }

  predicate IsLabelSuffix(zs: seq<string>, ns: seq<string>) {
    |zs| <= |ns| && ns[|ns| - |zs|..] == zs
  }

  lemma SuffixGivesLabels(z: string, name: string)
    requires HasSuffix(name, "." + z)
    ensures IsLabelSuffix(Labels(z), Labels(name))
  {
    var a := name[..|name| - |z| - 1];
    assert name == a + "." + z;
    LabelsOfConcat(a, z);
  }

  lemma DotTail(a: string, b: string)
    ensures HasSuffix(a + "." + b, "." + b)
  {
  }

  lemma JoinSuffix(pre: seq<string>, zs: seq<string>)
    requires |pre| >= 1 && |zs| >= 1
    ensures HasSuffix(JoinLabels(pre + zs), "." + JoinLabels(zs))
  {
    JoinOfConcat(pre, zs);
    DotTail(JoinLabels(pre), JoinLabels(zs));
  }

  lemma JoinGivesSuffix(zs: seq<string>, ns: seq<string>)
    requires |zs| >= 1 && IsLabelSuffix(zs, ns)
    ensures JoinLabels(ns) == JoinLabels(zs) || HasSuffix(JoinLabels(ns), "." + JoinLabels(zs))
  {
    var pre := ns[..|ns| - |zs|];
    assert ns == pre + zs;
    if pre != [] { JoinSuffix(pre, zs); } else { assert ns == zs; }
  }

  lemma LabelsGiveSuffix(z: string, name: string)
    requires IsLabelSuffix(Labels(z), Labels(name))
    ensures name == z || HasSuffix(name, "." + z)
  {
    JoinOfLabels(name);
    JoinOfLabels(z);
    JoinGivesSuffix(Labels(z), Labels(name));
  }

  /** The string test holds exactly when the zone's labels are a suffix of the name's labels. */
  lemma MatchesLabels(zone: string, dnsName: string)
    ensures Matches(zone, dnsName) <==> IsLabelSuffix(Labels(TrimDot(zone)), Labels(TrimDot(dnsName)))
  {
    var name, z := TrimDot(dnsName), TrimDot(zone);
    if HasSuffix(name, "." + z) { SuffixGivesLabels(z, name); }
    if IsLabelSuffix(Labels(z), Labels(name)) { LabelsGiveSuffix(z, name); }
  }

  lemma SameLengthSameZone(zone: string, zone': string, dnsName: string)
    requires Matches(zone, dnsName) && Matches(zone', dnsName) && Length(zone) == Length(zone')
    ensures TrimDot(zone) == TrimDot(zone')
  {
    var name := TrimDot(dnsName);
    SuffixText(zone, dnsName);
    SuffixText(zone', dnsName);
  }

  lemma SuffixText(zone: string, dnsName: string)
    requires Matches(zone, dnsName)
    ensures var name, z := TrimDot(dnsName), TrimDot(zone); |z| <= |name| && name[|name| - |z|..] == z
  {
    var name, z := TrimDot(dnsName), TrimDot(zone);
    if name != z {
      assert ("." + z)[1..] == z;
      assert name[|name| - |z|..] == name[|name| - |z| - 1..][1..];
    }
  }

  /** Of the zones whose labels end the name's, none is longer than the answer, and one of the same length is the
      same zone; no answer means that at most the root matches. */
  ghost predicate RouteSpec(zones: seq<string>, dnsName: string, r: Option<nat>) {
    match r
    case None => forall j :: 0 <= j < |zones| && Covers(zones[j], dnsName) ==> TrimDot(zones[j]) == ""
    case Some(i) =>
      && i < |zones| && Covers(zones[i], dnsName) && TrimDot(zones[i]) != ""
      && forall j :: 0 <= j < |zones| && Covers(zones[j], dnsName) ==>
           Length(zones[j]) < Length(zones[i]) || TrimDot(zones[j]) == TrimDot(zones[i])
  }

  method ZoneFor(zones: seq<string>, dnsName: string) returns (r: Option<nat>)
    ensures r == Route(zones, dnsName)
    ensures RouteSpec(zones, dnsName, r)
  {
    r := None;
    var bestLen := 0;
    ghost var scores := Scores(zones, dnsName);
    for i := 0 to |zones|
      invariant r == Best(scores, i)
      invariant bestLen == if r.Some? then scores[r.value] else 0
    {
      assert scores[i] == Score(zones[i], dnsName);
      if Matches(zones[i], dnsName) && Length(zones[i]) > bestLen {
        bestLen := Length(zones[i]);
        r := Some(i);
      }
    }
    RouteMeaning(zones, dnsName);
  }

  ghost predicate Covers(zone: string, dnsName: string) {
    IsLabelSuffix(Labels(TrimDot(zone)), Labels(TrimDot(dnsName)))
  }

  lemma ScoreMeaning(zone: string, dnsName: string)
    ensures Score(zone, dnsName) == if Covers(zone, dnsName) then Length(zone) else 0
  {
    MatchesLabels(zone, dnsName);
  }

  lemma ScoreTie(zone: string, zone': string, dnsName: string)
    requires Score(zone, dnsName) == Score(zone', dnsName) > 0
    ensures TrimDot(zone) == TrimDot(zone')
  {
    SameLengthSameZone(zone, zone', dnsName);
  }

  lemma RouteMeaning(zones: seq<string>, dnsName: string)
    ensures RouteSpec(zones, dnsName, Route(zones, dnsName))
  {
    var r := Route(zones, dnsName);
    var scores := Scores(zones, dnsName);
    forall j | 0 <= j < |zones| ensures scores[j] == if Covers(zones[j], dnsName) then Length(zones[j]) else 0 {
      ScoreMeaning(zones[j], dnsName);
    }
    if r.Some? {
      forall j | 0 <= j < |zones| && scores[j] == scores[r.value] ensures TrimDot(zones[j]) == TrimDot(zones[r.value]) {
        ScoreTie(zones[j], zones[r.value], dnsName);
      }
    }
  }

  lemma SameScoresSameRoute(zones: seq<string>, a: string, b: string)
    requires forall j :: 0 <= j < |zones| ==> Score(zones[j], a) == Score(zones[j], b)
    ensures Route(zones, a) == Route(zones, b)
  {
    assert Scores(zones, a) == Scores(zones, b);
  }

  /** A record is routed by its absolute name as its endpoint is by its plain one. */
  lemma RouteFqdn(zones: seq<string>, n: string)
    ensures Route(zones, Fqdn(n)) == Route(zones, n)
  {
    assert TrimDot(Fqdn(n)) == TrimDot(n) by {
      if !EndsWithDot(n) { assert (n + ".")[..|n|] == n; }
    }
    SameScoresSameRoute(zones, Fqdn(n), n);
  }

  // ----- a marker is routed with its record -----

  lemma PrefixHasOneDot()
    ensures |OWNER_PREFIX| > 0 && OWNER_PREFIX[|OWNER_PREFIX| - 1] == '.'
    ensures forall j :: 0 <= j < |OWNER_PREFIX| - 1 ==> OWNER_PREFIX[j] != '.'
  {
  }

  lemma MarkerMatches(zone: string, n: string)
    requires n != "" && TrimDot(zone) != "" && TrimDot(zone) != OWNER_PREFIX + TrimDot(n)
    ensures Matches(zone, OWNER_PREFIX + n) == Matches(zone, n)
  {
    PrefixHasOneDot();
    var z, name := TrimDot(zone), TrimDot(n);
    var marker := OWNER_PREFIX + name;
    assert TrimDot(OWNER_PREFIX + n) == marker;
    if HasSuffix(marker, "." + z) {
      var j := |marker| - |z| - 1;
      assert marker[j..][0] == '.';
      assert marker[j..][1..] == marker[j + 1..] == z;
      assert j >= |OWNER_PREFIX| - 1;
      if j >= |OWNER_PREFIX| {
        assert marker[j..] == name[j - |OWNER_PREFIX|..];
      } else {
        assert marker[|OWNER_PREFIX|..] == name;
      }
    }
    if Matches(zone, n) {
      MatchExtends(z, name);
    }
  }

  lemma MatchExtends(z: string, name: string)
    requires name == z || HasSuffix(name, "." + z)
    ensures HasSuffix(OWNER_PREFIX + name, "." + z)
  {
    PrefixHasOneDot();
    var marker := OWNER_PREFIX + name;
    if name == z {
      assert marker[|OWNER_PREFIX| - 1..] == "." + z;
    } else {
      assert marker[|marker| - |z| - 1..] == name[|name| - |z| - 1..];
    }
  }

  /** A marker goes to the zone of its record exactly when no configured zone is the marker's own name. */
  lemma MarkerRoutedWithRecord(zones: seq<string>, n: string)
    requires TrimDot(n) != ""
    ensures Route(zones, OwnershipName(n)) == Route(zones, n) <==>
            forall i :: 0 <= i < |zones| ==> TrimDot(zones[i]) != OwnershipName(TrimDot(n))
  {
    if forall i :: 0 <= i < |zones| ==> TrimDot(zones[i]) != OwnershipName(TrimDot(n)) {
      MarkersTravel(zones, n);
    } else {
      var i :| 0 <= i < |zones| && TrimDot(zones[i]) == OwnershipName(TrimDot(n));
      OwnZoneSplits(zones, n, i);
    }
  }

  lemma OwnZoneScore(zone: string, n: string)
    requires TrimDot(n) != "" && TrimDot(zone) == OwnershipName(TrimDot(n))
    ensures Score(zone, OwnershipName(n)) == |OWNER_PREFIX| + |TrimDot(n)|
  {
    assert TrimDot(OwnershipName(n)) == OwnershipName(TrimDot(n));
  }

  /** A zone that is the marker's own name takes the marker away from its record. */
  lemma OwnZoneSplits(zones: seq<string>, n: string, i: nat)
    requires i < |zones| && TrimDot(n) != "" && TrimDot(zones[i]) == OwnershipName(TrimDot(n))
    ensures Route(zones, OwnershipName(n)) != Route(zones, n)
  {
    OwnZoneScore(zones[i], n);
    assert Scores(zones, OwnershipName(n))[i] > |TrimDot(n)|;
    var r := Route(zones, n);
    if r.Some? {
      ScoreBounded(zones[r.value], n);
      OwnershipScoreGap(zones[r.value], n);
    }
  }

  /** A zone that covers the plain name covers no more of the marker name. */
  lemma OwnershipScoreGap(zone: string, n: string)
    requires Score(zone, n) > 0
    ensures Score(zone, OwnershipName(n)) <= |TrimDot(n)|
  {
    ScoreBounded(zone, n);
  }

  lemma ScoreBounded(zone: string, dnsName: string)
    ensures Score(zone, dnsName) <= |TrimDot(dnsName)|
  {
    if Matches(zone, dnsName) { SuffixText(zone, dnsName); }
  }

  lemma MarkersTravel(zones: seq<string>, n: string)
    requires n != "" && forall i :: 0 <= i < |zones| ==> TrimDot(zones[i]) != OWNER_PREFIX + TrimDot(n)
    ensures Route(zones, OWNER_PREFIX + n) == Route(zones, n)
  {
    forall j | 0 <= j < |zones| ensures Score(zones[j], OWNER_PREFIX + n) == Score(zones[j], n) {
      if TrimDot(zones[j]) != "" { MarkerMatches(zones[j], n); }
    }
    SameScoresSameRoute(zones, OWNER_PREFIX + n, n);
  }

  /** No configured zone lies under the marker label. */
  predicate NoMarkerZones(zones: seq<string>) {
    forall i :: 0 <= i < |zones| ==> !(OWNER_PREFIX <= Fqdn(zones[i]))
  }

  lemma MarkerNameRouted(zones: seq<string>, x: string)
    requires NoMarkerZones(zones)
    ensures Route(zones, OWNER_PREFIX + x) == Route(zones, x)
  {
    if x == "" {
      BareMarkerUnrouted(zones);
      assert OWNER_PREFIX + x == OWNER_PREFIX;
      forall j | 0 <= j < |zones| ensures Scores(zones, x)[j] == 0 { ScoreBounded(zones[j], x); }
    } else {
      forall i | 0 <= i < |zones| ensures TrimDot(zones[i]) != OWNER_PREFIX + TrimDot(x) {
        assert TrimDot(zones[i]) <= Fqdn(zones[i]);
      }
      MarkersTravel(zones, x);
    }
  }

  lemma NoDotNoSuffix(s: string, z: string)
    requires '.' !in s
    ensures !HasSuffix(s, "." + z)
  {
    if |z| + 1 <= |s| { assert s[|s| - |z| - 1..][0] == s[|s| - |z| - 1]; }
  }

  lemma BareMarkerMatches(zone: string)
    requires !(OWNER_PREFIX <= Fqdn(zone))
    ensures !Matches(zone, OWNER_PREFIX)
  {
    PrefixHasOneDot();
    var bare := OWNER_PREFIX[..|OWNER_PREFIX| - 1];
    assert OWNER_PREFIX == bare + ".";
    NoDotNoSuffix(bare, TrimDot(zone));
    assert Fqdn(zone) == TrimDot(zone) + ".";
  }

  lemma BareMarkerUnrouted(zones: seq<string>)
    requires NoMarkerZones(zones)
    ensures Route(zones, OWNER_PREFIX) == None
  {
    forall i | 0 <= i < |zones| ensures Scores(zones, OWNER_PREFIX)[i] == 0 { BareMarkerMatches(zones[i]); }
  }
}
