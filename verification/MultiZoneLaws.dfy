/** Splitting by zone changes nothing: the merged zones evolve as one big zone, up to the zones an error cut off. */
module MultiZoneLaws {
  import opened Text
  import opened Endpoints
  import opened Dns
  import opened Provider
  import opened Plan
  import opened Cycle
  import opened CycleLaws
  import opened Convergence
  import opened Refinement
  import opened Locality
  import opened Routing
  import opened MultiZone

  // ----- the split is exact -----

  /** The positions of the endpoints routed to zone `i`, in order. */
  ghost function Positions(zones: seq<string>, eps: seq<Endpoint>, i: nat): (js: seq<nat>)
    ensures forall t :: 0 <= t < |js| ==> js[t] < |eps|
  {
    if eps == [] then []
    else
      var n := |eps| - 1;
      var before := Positions(zones, eps[..n], i);
      if Route(zones, eps[n].dnsName) == Some(i) then before + [n] else before
  }

  lemma InSnoc(js: seq<nat>, n: nat, j: nat)
    ensures j in js + [n] <==> j in js || j == n
  {
  }

  lemma {:induction false} PositionsMember(zones: seq<string>, eps: seq<Endpoint>, i: nat, j: nat)
    requires j < |eps|
    ensures j in Positions(zones, eps, i) <==> Route(zones, eps[j].dnsName) == Some(i)
  {
    var n := |eps| - 1;
    var before := Positions(zones, eps[..n], i);
    InSnoc(before, n, j);
    if j < n {
      PositionsMember(zones, eps[..n], i, j);
      assert eps[..n][j] == eps[j];
    } else {
      assert j !in before;
    }
  }

  ghost predicate Ascending(js: seq<nat>) {
    forall a, b :: 0 <= a < b < |js| ==> js[a] < js[b]
  }

  lemma {:induction false} PositionsAscend(zones: seq<string>, eps: seq<Endpoint>, i: nat)
    ensures Ascending(Positions(zones, eps, i))
  {
    if eps != [] { PositionsAscend(zones, eps[..|eps| - 1], i); }
  }

  lemma {:induction false} SplitByPositions(zones: seq<string>, olds: seq<Endpoint>, news: seq<Endpoint>, i: nat)
    ensures var js, kept := Positions(zones, olds, i), KeptNew(zones, olds, news, i);
            && |Kept(zones, olds, i)| == |js| && (forall t :: 0 <= t < |js| ==> Kept(zones, olds, i)[t] == olds[js[t]])
            && |kept| <= |js| && (forall t :: 0 <= t < |js| ==> (t < |kept| <==> js[t] < |news|))
            && (forall t :: 0 <= t < |kept| ==> kept[t] == news[js[t]])
            && (|olds| <= |news| ==> |kept| == |js|)
  {
    if olds != [] {
      SplitByPositions(zones, olds[..|olds| - 1], news, i);
    }
  }

  /** An exact, order-preserving partition that keeps every update pair together: the part of zone `i` consists of
      the endpoints at `Positions`, old and new from the same position, as far as there are new ones. */
  lemma SplitIsExact(zones: seq<string>, olds: seq<Endpoint>, news: seq<Endpoint>, i: nat)
    ensures var js := Positions(zones, olds, i);
            && (forall j :: 0 <= j < |olds| ==> (j in js <==> Route(zones, olds[j].dnsName) == Some(i)))
            && Ascending(js)
    ensures var js, kept := Positions(zones, olds, i), KeptNew(zones, olds, news, i);
            && |Kept(zones, olds, i)| == |js| && (forall t :: 0 <= t < |js| ==> Kept(zones, olds, i)[t] == olds[js[t]])
            && |kept| <= |js| && (forall t :: 0 <= t < |js| ==> (t < |kept| <==> js[t] < |news|))
            && (forall t :: 0 <= t < |kept| ==> kept[t] == news[js[t]])
            && (|olds| <= |news| ==> |kept| == |js|)
  {
    PositionsAscend(zones, olds, i);
    forall j | 0 <= j < |olds| ensures j in Positions(zones, olds, i) <==> Route(zones, olds[j].dnsName) == Some(i) {
      PositionsMember(zones, olds, i, j);
    }
    SplitByPositions(zones, olds, news, i);
  }

  // ----- a part of a message is the message's part -----

  lemma KeepConverted(s: iset<string>, cfg: Config, ep: Endpoint)
    requires EndpointToRRs(cfg, ep).Some?
    ensures var rrs := EndpointToRRs(cfg, ep).value;
            && KeepOps(s, Removes(rrs)) == (if Fqdn(ep.dnsName) in s then Removes(rrs) else [])
            && KeepOps(s, Inserts(rrs)) == (if Fqdn(ep.dnsName) in s then Inserts(rrs) else [])
  {
    var rrs := EndpointToRRs(cfg, ep).value;
    ConvertedNames(cfg, ep, |ep.targets|);
    forall op | op in Removes(rrs) ensures op.key.name == Fqdn(ep.dnsName) { InRemoves(rrs, op); }
    forall op | op in Inserts(rrs) ensures op.key.name == Fqdn(ep.dnsName) { InInserts(rrs, op); }
    KeepAllOrNone(s, Removes(rrs), Fqdn(ep.dnsName));
    KeepAllOrNone(s, Inserts(rrs), Fqdn(ep.dnsName));
  }

  /** The names of zone `i`. */
  ghost function ZoneNames(zones: seq<string>, i: nat): iset<string> {
    iset x: string | Route(zones, x) == Some(i)
  }

  lemma {:induction false} DeletePart(cfg: Config, zones: seq<string>, eps: seq<Endpoint>, i: nat)
    ensures DeleteOps(cfg, Kept(zones, eps, i)) == KeepOps(ZoneNames(zones, i), DeleteOps(cfg, eps))
  {
    if eps != [] {
      var n := |eps| - 1;
      DeletePart(cfg, zones, eps[..n], i);
      RouteFqdn(zones, eps[n].dnsName);
      var kept := Kept(zones, eps[..n], i);
      assert (kept + [eps[n]])[..|kept|] == kept;
      if EndpointToRRs(cfg, eps[n]).Some? {
        KeepConcat(ZoneNames(zones, i), DeleteOps(cfg, eps[..n]), Removes(EndpointToRRs(cfg, eps[n]).value));
        KeepConverted(ZoneNames(zones, i), cfg, eps[n]);
      }
    }
  }

  lemma {:induction false} CreatePart(cfg: Config, zones: seq<string>, eps: seq<Endpoint>, i: nat)
    ensures CreateOps(cfg, Kept(zones, eps, i)) == KeepOps(ZoneNames(zones, i), CreateOps(cfg, eps))
  {
    if eps != [] {
      var n := |eps| - 1;
      CreatePart(cfg, zones, eps[..n], i);
      RouteFqdn(zones, eps[n].dnsName);
      var kept := Kept(zones, eps[..n], i);
      assert (kept + [eps[n]])[..|kept|] == kept;
      if EndpointToRRs(cfg, eps[n]).Some? {
        KeepConcat(ZoneNames(zones, i), CreateOps(cfg, eps[..n]), Inserts(EndpointToRRs(cfg, eps[n]).value));
        KeepConverted(ZoneNames(zones, i), cfg, eps[n]);
      }
    }
  }

  /** The entries one update pair contributes. */
  ghost function PairEntries(cfg: Config, a: Endpoint, b: Endpoint): seq<Op> {
    match EndpointToRRs(cfg, a)
    case None => []
    case Some(rrs) => if EndpointToRRs(cfg, b).Some? then Removes(rrs) + Inserts(EndpointToRRs(cfg, b).value)
        else Removes(rrs)
  }

  lemma UpdateOpsSnoc(cfg: Config, olds: seq<Endpoint>, news: seq<Endpoint>, a: Endpoint)
    requires |olds| < |news|
    ensures UpdateOps(cfg, olds + [a], news) == UpdateOps(cfg, olds, news) + PairEntries(cfg, a, news[|olds|])
  {
    assert (olds + [a])[..|olds|] == olds;
    var before := UpdateOps(cfg, olds, news);
    match EndpointToRRs(cfg, a)
    case None => assert before + [] == before;
    case Some(rrs) =>
      if EndpointToRRs(cfg, news[|olds|]).Some? {
        var ins := Inserts(EndpointToRRs(cfg, news[|olds|]).value);
        assert before + Removes(rrs) + ins == before + (Removes(rrs) + ins);
      }
  }

  /** `UpdateOps` looks at no more new endpoints than there are old ones. */
  lemma {:induction false} UpdateOpsPrefix(cfg: Config, olds: seq<Endpoint>, news: seq<Endpoint>, more: seq<Endpoint>)
    requires |olds| <= |news|
    ensures UpdateOps(cfg, olds, news + more) == UpdateOps(cfg, olds, news)
  {
    if olds != [] {
      var n := |olds| - 1;
      UpdateOpsPrefix(cfg, olds[..n], news, more);
      assert (news + more)[n] == news[n];
    }
  }

  lemma KeepPair(s: iset<string>, cfg: Config, a: Endpoint, b: Endpoint)
    requires a.dnsName == b.dnsName
    ensures KeepOps(s, PairEntries(cfg, a, b)) == if Fqdn(a.dnsName) in s then PairEntries(cfg, a, b) else []
  {
    if EndpointToRRs(cfg, a).Some? {
      KeepConverted(s, cfg, a);
      if EndpointToRRs(cfg, b).Some? {
        KeepConverted(s, cfg, b);
        KeepConcat(s, Removes(EndpointToRRs(cfg, a).value), Inserts(EndpointToRRs(cfg, b).value));
      }
    }
  }

  ghost predicate Paired(c: Changes) {
    |c.updateOld| == |c.updateNew| && forall j :: 0 <= j < |c.updateOld| ==>
        c.updateOld[j].dnsName == c.updateNew[j].dnsName
  }

  lemma PairSnoc(cfg: Config, olds: seq<Endpoint>, news: seq<Endpoint>, a: Endpoint, b: Endpoint)
    requires |olds| == |news|
    ensures UpdateOps(cfg, olds + [a], news + [b]) == UpdateOps(cfg, olds, news) + PairEntries(cfg, a, b)
  {
    UpdateOpsSnoc(cfg, olds, news + [b], a);
    UpdateOpsPrefix(cfg, olds, news, [b]);
  }

  lemma KeptPairOps(cfg: Config, zones: seq<string>, olds: seq<Endpoint>, news: seq<Endpoint>, a: Endpoint, i: nat)
    requires |olds| < |news|
    ensures UpdateOps(cfg, Kept(zones, olds + [a], i), KeptNew(zones, olds + [a], news, i)) ==
      UpdateOps(cfg, Kept(zones, olds, i), KeptNew(zones, olds, news, i))
      + (if Route(zones, a.dnsName) == Some(i) then PairEntries(cfg, a, news[|olds|]) else [])
  {
    KeptSnoc(zones, olds, a, i);
    KeptNewSnoc(zones, olds, news, a, i);
    var ko, kn := Kept(zones, olds, i), KeptNew(zones, olds, news, i);
    if Route(zones, a.dnsName) == Some(i) {
      SplitByPositions(zones, olds, news, i);
      PairSnoc(cfg, ko, kn, a, news[|olds|]);
    }
  }

  lemma {:induction false} UpdatePart(cfg: Config, zones: seq<string>, olds: seq<Endpoint>, news: seq<Endpoint>, i: nat)
    requires |olds| <= |news| && forall j :: 0 <= j < |olds| ==> olds[j].dnsName == news[j].dnsName
    ensures UpdateOps(cfg, Kept(zones, olds, i), KeptNew(zones, olds, news, i)) ==
            KeepOps(ZoneNames(zones, i), UpdateOps(cfg, olds, news))
  {
    if olds != [] {
      var n := |olds| - 1;
      UpdatePart(cfg, zones, olds[..n], news, i);
      assert olds == olds[..n] + [olds[n]];
      UpdatePartSnoc(cfg, zones, olds[..n], news, olds[n], i);
    }
  }

  /** One more pair, on both sides of the equation. */
  lemma UpdatePartSnoc(cfg: Config, zones: seq<string>, olds: seq<Endpoint>, news: seq<Endpoint>, a: Endpoint, i: nat)
    requires |olds| < |news| && a.dnsName == news[|olds|].dnsName
    requires UpdateOps(cfg, Kept(zones, olds, i), KeptNew(zones, olds, news, i)) ==
             KeepOps(ZoneNames(zones, i), UpdateOps(cfg, olds, news))
    ensures UpdateOps(cfg, Kept(zones, olds + [a], i), KeptNew(zones, olds + [a], news, i)) ==
            KeepOps(ZoneNames(zones, i), UpdateOps(cfg, olds + [a], news))
  {
    var s, b := ZoneNames(zones, i), news[|olds|];
    UpdateOpsSnoc(cfg, olds, news, a);
    KeptPairOps(cfg, zones, olds, news, a, i);
    KeepConcat(s, UpdateOps(cfg, olds, news), PairEntries(cfg, a, b));
    KeepPair(s, cfg, a, b);
    RouteFqdn(zones, a.dnsName);
  }

  /** A zone's message holds exactly the entries of the whole message at the zone's names, in order. */
  lemma MessagePart(cfg: Config, zones: seq<string>, c: Changes, i: nat)
    requires Paired(c)
    ensures Message(cfg, SplitFor(zones, c, i)) == KeepOps(ZoneNames(zones, i), Message(cfg, c))
  {
    var s := ZoneNames(zones, i);
    var d, u, n := DeleteOps(cfg, c.delete), UpdateOps(cfg, c.updateOld, c.updateNew), CreateOps(cfg, c.create);
    DeletePart(cfg, zones, c.delete, i);
    UpdatePart(cfg, zones, c.updateOld, c.updateNew, i);
    CreatePart(cfg, zones, c.create, i);
    KeepConcat(s, d, u);
    KeepConcat(s, d + u, n);
  }

  // ----- merged zones -----

  /** Every zone holds only names routed to it. */
  ghost predicate Routed(zones: seq<string>, contents: seq<Zone>) {
    |contents| == |zones| && forall i, k :: 0 <= i < |zones| && k in contents[i] ==> Route(zones, k.name) == Some(i)
  }

  ghost function Merged(contents: seq<Zone>): Zone {
    if contents == [] then map[] else Merged(contents[..|contents| - 1]) + contents[|contents| - 1]
  }

  ghost function HomeLookup(zones: seq<string>, contents: seq<Zone>, n: nat, k: RRKey): Option<nat>
    requires |contents| == |zones|
  {
    match Route(zones, k.name)
    case Some(i) => if i < n then Lookup(contents[i], k) else None
    case None => None
  }

  lemma LookupUnion(y: Zone, z: Zone, k: RRKey)
    ensures Lookup(y + z, k) == if k in z then Lookup(z, k) else Lookup(y, k)
  {
  }

  lemma {:induction false} MergedPrefix(zones: seq<string>, contents: seq<Zone>, n: nat, k: RRKey)
    requires Routed(zones, contents) && n <= |zones|
    ensures Lookup(Merged(contents[..n]), k) == HomeLookup(zones, contents, n, k)
  {
    if n > 0 {
      var m := n - 1;
      MergedPrefix(zones, contents, m, k);
      assert contents[..n][..m] == contents[..m];
      assert Merged(contents[..n]) == Merged(contents[..m]) + contents[m];
      LookupUnion(Merged(contents[..m]), contents[m], k);
      assert k in contents[m] ==> Route(zones, k.name) == Some(m);
    }
  }

  lemma MergedLookup(zones: seq<string>, contents: seq<Zone>, k: RRKey)
    requires Routed(zones, contents)
    ensures Lookup(Merged(contents), k) == HomeLookup(zones, contents, |zones|, k)
  {
    MergedPrefix(zones, contents, |zones|, k);
    assert contents[..|zones|] == contents;
  }

  lemma MergedAgrees(zones: seq<string>, contents: seq<Zone>, i: nat)
    requires Routed(zones, contents) && i < |zones|
    ensures AgreeOn(ZoneNames(zones, i), Merged(contents), contents[i])
  {
    forall k: RRKey | k.name in ZoneNames(zones, i) ensures Lookup(Merged(contents), k) == Lookup(contents[i], k) {
      MergedLookup(zones, contents, k);
    }
  }

  // ----- split and dispatch -----

  predicate TookEffect(outcomes: seq<Outcome>, stop: nat, i: nat) {
    i < stop || (i == stop && i < |outcomes| && outcomes[i] == Failure(true))
  }

  /** The names of the zones that an apply reached. */
  ghost function Reached(zones: seq<string>, outcomes: seq<Outcome>, stop: nat): iset<string> {
    iset x: string | Route(zones, x).Some? && TookEffect(outcomes, stop, Route(zones, x).value)
  }

  ghost predicate Apply(cfg: Config, zones: seq<string>, contents: seq<Zone>, c: Changes, outcomes: seq<Outcome>,
                        contents': seq<Zone>, stop: nat) {
    && ZonesDistinct(zones) && Routed(zones, contents) && Paired(c) && |outcomes| == |zones|
    && Dispatched(seq(|zones|, _ => cfg), zones, contents, c, outcomes, contents', stop)
  }

  lemma ZoneAfter(cfg: Config, zones: seq<string>, contents: seq<Zone>, c: Changes, outcomes: seq<Outcome>,
                  contents': seq<Zone>, stop: nat, i: nat)
    requires Apply(cfg, zones, contents, c, outcomes, contents', stop) && i < |zones|
    ensures contents'[i] == if TookEffect(outcomes, stop, i)
            then Run(contents[i], Message(cfg, SplitFor(zones, c, i))) else contents[i]
  {
    assert FirstOf(zones, i) == i;
    if i < stop {
      assert Served(seq(|zones|, _ => cfg), zones, contents, c, outcomes, i, contents'[i]);
    }
  }

  lemma AppliedPart(cfg: Config, zones: seq<string>, contents: seq<Zone>, c: Changes, i: nat)
    requires Routed(zones, contents) && Paired(c) && i < |zones|
    ensures var z := Run(contents[i], Message(cfg, SplitFor(zones, c, i)));
            && AgreeOn(ZoneNames(zones, i), Run(Merged(contents), Message(cfg, c)), z)
            && AgreeOutside(ZoneNames(zones, i), z, contents[i])
  {
    MessagePart(cfg, zones, c, i);
    MergedAgrees(zones, contents, i);
    RunPart(ZoneNames(zones, i), Merged(contents), contents[i], Message(cfg, c));
  }

  lemma ApplyKeepsRouting(cfg: Config, zones: seq<string>, contents: seq<Zone>, c: Changes, outcomes: seq<Outcome>,
                          contents': seq<Zone>, stop: nat)
    requires Apply(cfg, zones, contents, c, outcomes, contents', stop)
    ensures Routed(zones, contents')
  {
    forall i, k | 0 <= i < |zones| && k in contents'[i] ensures Route(zones, k.name) == Some(i) {
      ZoneAfter(cfg, zones, contents, c, outcomes, contents', stop, i);
      AppliedPart(cfg, zones, contents, c, i);
      if k.name !in ZoneNames(zones, i) { assert Lookup(contents'[i], k) == Lookup(contents[i], k); }
    }
  }

  /** Multi-zone refines single-zone: whatever was reached is as one big zone would be, the rest is untouched. */
  lemma DispatchIsMix(cfg: Config, zones: seq<string>, contents: seq<Zone>, c: Changes, outcomes: seq<Outcome>,
                      contents': seq<Zone>, stop: nat)
    requires Apply(cfg, zones, contents, c, outcomes, contents', stop)
    ensures Routed(zones, contents')
    ensures Merged(contents') == Mix(Reached(zones, outcomes, stop), Run(Merged(contents), Message(cfg, c)),
            Merged(contents))
  {
    var m, s, y := Merged(contents), Reached(zones, outcomes, stop), Run(Merged(contents), Message(cfg, c));
    ApplyKeepsRouting(cfg, zones, contents, c, outcomes, contents', stop);
    forall k ensures Lookup(Merged(contents'), k) == Lookup(Mix(s, y, m), k) {
      MixLookup(s, y, m, k);
      MergedLookup(zones, contents, k);
      MergedLookup(zones, contents', k);
      if Route(zones, k.name).Some? {
        var i := Route(zones, k.name).value;
        ZoneAfter(cfg, zones, contents, c, outcomes, contents', stop, i);
        AppliedPart(cfg, zones, contents, c, i);
        assert k.name in ZoneNames(zones, i);
      }
    }
    SameLookupsSameZone(Merged(contents'), Mix(s, y, m));
  }

  // ----- a multi-zone cycle -----

  lemma ReachedClosed(zones: seq<string>, outcomes: seq<Outcome>, stop: nat)
    requires NoMarkerZones(zones)
    ensures Closed(Reached(zones, outcomes, stop))
  {
    forall x: string
      ensures x in Reached(zones, outcomes, stop) <==> OWNER_PREFIX + x in Reached(zones, outcomes, stop)
    {
      MarkerNameRouted(zones, x);
    }
  }

  /** A transfer of every zone, one after the other, is a transfer of the merged zone. */
  ghost predicate TransferAll(contents: seq<Zone>, rrss: seq<seq<RR>>) {
    |rrss| == |contents| && forall i :: 0 <= i < |contents| ==> Transfer(contents[i], rrss[i])
  }

  lemma JoinedIsMerged(zones: seq<string>, contents: seq<Zone>, rrss: seq<seq<RR>>, rr: RR)
    requires Routed(zones, contents) && TransferAll(contents, rrss)
    ensures rr in Flatten(rrss) <==> Lookup(Merged(contents), rr.key) == Some(rr.ttl)
  {
    InFlatten(rrss, rr);
    MergedLookup(zones, contents, rr.key);
    if i :| 0 <= i < |rrss| && rr in rrss[i] {
      assert Transfer(contents[i], rrss[i]);
      assert Route(zones, rr.key.name) == Some(i);
    }
    if Lookup(Merged(contents), rr.key) == Some(rr.ttl) {
      var i := Route(zones, rr.key.name).value;
      assert Transfer(contents[i], rrss[i]);
      assert RR(rr.key, contents[i][rr.key]) in rrss[i];
    }
  }

  lemma TransferMerged(zones: seq<string>, contents: seq<Zone>, rrss: seq<seq<RR>>)
    requires Routed(zones, contents) && TransferAll(contents, rrss)
    ensures Transfer(Merged(contents), Flatten(rrss))
  {
    var m := Merged(contents);
    forall rr | rr in Flatten(rrss)
      ensures rr.key in m && m[rr.key] == rr.ttl
    {
      JoinedIsMerged(zones, contents, rrss, rr);
    }
    forall k | k in m ensures RR(k, m[k]) in Flatten(rrss) { JoinedIsMerged(zones, contents, rrss, RR(k, m[k])); }
  }

  lemma {:induction false} ReadAllConcat(cfg: Config, a: seq<RR>, b: seq<RR>)
    ensures ReadAll(cfg, a + b) == ReadAll(cfg, a) + ReadAll(cfg, b)
  {
    if b == [] {
      assert a + b == a;
    } else {
      var n := |b| - 1;
      ReadAllConcat(cfg, a, b[..n]);
      assert (a + b)[..|a + b| - 1] == a + b[..n] && (a + b)[|a + b| - 1] == b[n];
    }
  }

  /** What `FanOut` returns is what a transfer of the merged zone reads as. */
  lemma {:induction false} FanOutReadsMerged(cfg: Config, parts: seq<seq<Endpoint>>, rrss: seq<seq<RR>>)
    requires |parts| == |rrss| && forall i :: 0 <= i < |rrss| ==> parts[i] == ReadAll(cfg, rrss[i])
    ensures Flatten(parts) == ReadAll(cfg, Flatten(rrss))
  {
    if rrss != [] {
      var n := |rrss| - 1;
      FanOutReadsMerged(cfg, parts[..n], rrss[..n]);
      ReadAllConcat(cfg, Flatten(rrss[..n]), rrss[n]);
    }
  }

  lemma PlansArePaired(g: Goal, z: Zone, desired: seq<Endpoint>, rrs: seq<RR>, p: Changes)
    requires PlanOf(g, z, desired, rrs, p)
    ensures Paired(p)
  {
    var changed := PlanMeaning(g.owner, desired, ReadAll(g.cfg, rrs), p);
    forall j | 0 <= j < |changed| ensures p.updateOld[j].dnsName == p.updateNew[j].dnsName {
      var s := changed[j];
      assert s in changed;
      var k := SlotHolder(g, z, rrs, s);
      WantAtSlot(g, k);
    }
  }

  ghost predicate ReadParts(cfg: Config, rrss: seq<seq<RR>>, parts: seq<seq<Endpoint>>) {
    |parts| == |rrss| && forall i :: 0 <= i < |rrss| ==> parts[i] == ReadAll(cfg, rrss[i])
  }

  /** One multi-zone cycle: every zone transferred in some order, the parts merged as `FanOut` merges them, one plan
      made for the merge, and the plan split and sent zone by zone as `ApplyAll` does, with any outcomes. */
  ghost predicate MultiPass(g: Goal, zones: seq<string>, contents: seq<Zone>, outcomes: seq<Outcome>,
                            contents': seq<Zone>, stop: nat, desired: seq<Endpoint>, rrss: seq<seq<RR>>,
                            parts: seq<seq<Endpoint>>, p: Changes)
    requires |zones| == |contents| == |outcomes|
  {
    && g.want == Index(desired) && TransferAll(contents, rrss) && ReadParts(g.cfg, rrss, parts)
    && IsPlan(g.owner, desired, Flatten(parts), p)
    && Dispatched(seq(|zones|, _ => g.cfg), zones, contents, p, outcomes, contents', stop)
  }

  ghost predicate MultiCycle(g: Goal, zones: seq<string>, contents: seq<Zone>, outcomes: seq<Outcome>,
                             contents': seq<Zone>, stop: nat) {
    && |zones| == |contents| == |outcomes|
    && exists desired, rrss, parts, p ::
        MultiPass(g, zones, contents, outcomes, contents', stop, desired, rrss, parts, p)
  }

  lemma DispatchExists(cfgs: seq<Config>, zones: seq<string>, contents: seq<Zone>, c: Changes, outcomes: seq<Outcome>)
    returns (contents': seq<Zone>, stop: nat)
    requires |cfgs| == |zones| == |contents| == |outcomes|
    ensures Dispatched(cfgs, zones, contents, c, outcomes, contents', stop)
  {
    contents' := contents;
    for i := 0 to |zones|
      invariant ServedUpTo(cfgs, zones, contents, c, outcomes, contents', i)
    {
      var z := Applied(cfgs, zones, contents, c, i);
      if outcomes[i].Failure? && !Part(zones, c, i).IsEmpty() {
        if !outcomes[i].tookEffect { z := contents[i]; }
        StopHere(cfgs, zones, contents, c, outcomes, contents', i, z);
        return contents'[i := z], i;
      }
      ServeNext(cfgs, zones, contents, c, outcomes, contents', i, z);
      contents' := contents'[i := z];
    }
    stop := |zones|;
  }

  /** Every contents admit a multi-zone cycle with every combination of outcomes. */
  lemma MultiCycleExists(g: Goal, zones: seq<string>, contents: seq<Zone>, desired: seq<Endpoint>,
                         outcomes: seq<Outcome>) returns (contents': seq<Zone>, stop: nat)
    requires g.want == Index(desired) && |zones| == |contents| == |outcomes|
    ensures MultiCycle(g, zones, contents, outcomes, contents', stop)
  {
    var rrss: seq<seq<RR>> := [];
    for i := 0 to |contents|
      invariant |rrss| == i && forall j :: 0 <= j < i ==> Transfer(contents[j], rrss[j])
    {
      var rrs := TransferExists(contents[i]);
      rrss := rrss + [rrs];
    }
    var parts := seq(|rrss|, i requires 0 <= i < |rrss| => ReadAll(g.cfg, rrss[i]));
    var p := PlanExists(g.owner, desired, Flatten(parts));
    contents', stop := DispatchExists(seq(|zones|, _ => g.cfg), zones, contents, p, outcomes);
    assert MultiPass(g, zones, contents, outcomes, contents', stop, desired, rrss, parts, p);
  }

  /** Zones that cut nothing in two: no repeated entry, and none under the marker label. */
  ghost predicate GoodZones(zones: seq<string>) {
    ZonesDistinct(zones) && NoMarkerZones(zones)
  }

  lemma MultiPassIsApply(g: Goal, zones: seq<string>, contents: seq<Zone>, outcomes: seq<Outcome>, contents': seq<Zone>,
                         stop: nat, desired: seq<Endpoint>, rrss: seq<seq<RR>>, parts: seq<seq<Endpoint>>, p: Changes)
    requires ZonesDistinct(zones) && GoodGoal(g) && Routed(zones, contents) && GoodZone(g, Merged(contents))
    requires |outcomes| == |zones| && MultiPass(g, zones, contents, outcomes, contents', stop, desired, rrss, parts, p)
    ensures PlanOf(g, Merged(contents), desired, Flatten(rrss), p)
    ensures Apply(g.cfg, zones, contents, p, outcomes, contents', stop)
  {
    TransferMerged(zones, contents, rrss);
    FanOutReadsMerged(g.cfg, parts, rrss);
    PlansArePaired(g, Merged(contents), desired, Flatten(rrss), p);
  }

  /** However a multi-zone cycle ends, the merged zone went through a partial cycle of the single-zone kind. */
  lemma MultiCycleIsPartial(g: Goal, zones: seq<string>, contents: seq<Zone>, outcomes: seq<Outcome>,
                            contents': seq<Zone>, stop: nat)
    requires GoodZones(zones) && GoodGoal(g) && Routed(zones, contents) && GoodZone(g, Merged(contents))
    requires MultiCycle(g, zones, contents, outcomes, contents', stop)
    ensures Routed(zones, contents')
    ensures PartialCycle(g, Merged(contents), Merged(contents'), Reached(zones, outcomes, stop))
  {
    var desired, rrss, parts, p :| MultiPass(g, zones, contents, outcomes, contents', stop, desired, rrss, parts, p);
    MultiPassIsApply(g, zones, contents, outcomes, contents', stop, desired, rrss, parts, p);
    CycleIsNextZone(g, Merged(contents), desired, Flatten(rrss), p);
    DispatchIsMix(g.cfg, zones, contents, p, outcomes, contents', stop);
    ReachedClosed(zones, outcomes, stop);
  }

  ghost predicate DesiredRouted(g: Goal, zones: seq<string>) {
    forall s :: s in g.want ==> Route(zones, g.want[s].dnsName).Some?
  }

  ghost predicate NamesRouted(zones: seq<string>, z: Zone) {
    forall k :: k in z ==> Route(zones, k.name).Some?
  }

  lemma NextIsRouted(g: Goal, zones: seq<string>, z: Zone)
    requires GoodGoal(g) && NoMarkerZones(zones) && DesiredRouted(g, zones) && NamesRouted(zones, z)
    ensures NamesRouted(zones, NextZone(g, z))
  {
    forall k | k in NextZone(g, z) && k !in z ensures Route(zones, k.name).Some? {
      if IsRecord(k) {
        RecordAfter(g, z, k);
        WantFacts(g, Slot(k));
        RouteFqdn(zones, g.want[Slot(k)].dnsName);
      } else {
        var s := NewMarker(g, z, k);
        MarkerNameRouted(zones, g.want[s].dnsName);
        RouteFqdn(zones, OwnershipName(g.want[s].dnsName));
      }
    }
  }

  lemma MergedIsRouted(zones: seq<string>, contents: seq<Zone>)
    requires Routed(zones, contents)
    ensures NamesRouted(zones, Merged(contents))
  {
    forall k | k in Merged(contents) ensures Route(zones, k.name).Some? {
      MergedLookup(zones, contents, k);
      assert Lookup(Merged(contents), k) != None;
    }
  }

  lemma MixOfReached(zones: seq<string>, outcomes: seq<Outcome>, y: Zone, z: Zone)
    requires NamesRouted(zones, y) && NamesRouted(zones, z)
    ensures Mix(Reached(zones, outcomes, |zones|), y, z) == y
  {
    var s := Reached(zones, outcomes, |zones|);
    forall k ensures Lookup(Mix(s, y, z), k) == Lookup(y, k) { MixLookup(s, y, z, k); }
    SameLookupsSameZone(Mix(s, y, z), y);
  }

  /** A multi-zone cycle without an error, all desired names routed, is one cycle of the merged zone. */
  lemma SuccessfulMultiCycle(g: Goal, zones: seq<string>, contents: seq<Zone>, outcomes: seq<Outcome>,
                             contents': seq<Zone>)
    requires GoodZones(zones) && GoodGoal(g) && Routed(zones, contents) && GoodZone(g, Merged(contents))
    requires DesiredRouted(g, zones) && MultiCycle(g, zones, contents, outcomes, contents', |zones|)
    ensures Routed(zones, contents') && Merged(contents') == NextZone(g, Merged(contents))
  {
    MultiCycleIsPartial(g, zones, contents, outcomes, contents', |zones|);
    MergedIsRouted(zones, contents);
    NextIsRouted(g, zones, Merged(contents));
    MixOfReached(zones, outcomes, NextZone(g, Merged(contents)), Merged(contents));
  }

  // ----- runs -----

  /** A run of multi-zone cycles with arbitrary outcomes. */
  ghost predicate MultiRun(g: Goal, zones: seq<string>, states: seq<seq<Zone>>, outcomes: seq<seq<Outcome>>,
                           stops: seq<nat>) {
    && |states| == |outcomes| + 1 == |stops| + 1
    && forall i :: 0 <= i < |outcomes| ==> MultiCycle(g, zones, states[i], outcomes[i], states[i + 1], stops[i])
  }

  ghost predicate GoodStart(g: Goal, zones: seq<string>, contents: seq<Zone>) {
    GoodZones(zones) && GoodGoal(g) && Routed(zones, contents) && GoodZone(g, Merged(contents))
  }

  lemma {:induction false} MultiRunKeepsFuture(g: Goal, zones: seq<string>, states: seq<seq<Zone>>,
                                               outcomes: seq<seq<Outcome>>, stops: seq<nat>, i: nat)
    requires MultiRun(g, zones, states, outcomes, stops) && GoodStart(g, zones, states[0]) && i < |states|
    ensures Routed(zones, states[i]) && SameFuture(g, Merged(states[0]), Merged(states[i]))
  {
    if i > 0 {
      var j := i - 1;
      MultiRunKeepsFuture(g, zones, states, outcomes, stops, j);
      assert MultiCycle(g, zones, states[j], outcomes[j], states[j + 1], stops[j]);
      MultiCycleIsPartial(g, zones, states[j], outcomes[j], states[i], stops[j]);
      OneMoreFault(g, Merged(states[0]), Merged(states[j]), Merged(states[i]), Reached(zones, outcomes[j], stops[j]));
    }
  }

  lemma TwoMultiCycles(g: Goal, zones: seq<string>, x: seq<Zone>, o: seq<Outcome>, y: seq<Zone>, o': seq<Outcome>,
                       z: seq<Zone>)
    requires GoodStart(g, zones, x) && DesiredRouted(g, zones)
    requires MultiCycle(g, zones, x, o, y, |zones|) && MultiCycle(g, zones, y, o', z, |zones|)
    ensures Routed(zones, z) && Merged(z) == NextZone(g, NextZone(g, Merged(x))) && Settled(g, Merged(z))
  {
    SuccessfulMultiCycle(g, zones, x, o, y);
    NextGood(g, Merged(x));
    SuccessfulMultiCycle(g, zones, y, o', z);
    TwoCyclesSettle(g, Merged(x));
  }

  /** Fault-tolerant convergence over zones: after any multi-zone cycles that stopped anywhere, two that meet no error
      bring the zones, merged, where two fault-free cycles of one big zone lead from the start, and nothing is left
      to plan. */
  lemma MultiZoneFaultsForgotten(g: Goal, zones: seq<string>, states: seq<seq<Zone>>, outcomes: seq<seq<Outcome>>,
                                 stops: seq<nat>)
    requires MultiRun(g, zones, states, outcomes, stops) && GoodStart(g, zones, states[0]) && DesiredRouted(g, zones)
    requires |stops| >= 2 && stops[|stops| - 2] == stops[|stops| - 1] == |zones|
    ensures var first, last := Merged(states[0]), Merged(states[|states| - 1]);
            last == NextZone(g, NextZone(g, first)) && Settled(g, last)
  {
    var n := |stops| - 2;
    MultiRunKeepsFuture(g, zones, states, outcomes, stops, n);
    assert MultiCycle(g, zones, states[n], outcomes[n], states[n + 1], stops[n]);
    assert MultiCycle(g, zones, states[n + 1], outcomes[n + 1], states[n + 1 + 1], stops[n + 1]);
    TwoMultiCycles(g, zones, states[n], outcomes[n], states[n + 1], outcomes[n + 1], states[n + 2]);
  }

  // ----- an unrouted name -----

  /** Zones that hold only names routed to them are never settled while a desired name is routed nowhere. */
  lemma UnroutedNeverSettles(g: Goal, zones: seq<string>, contents: seq<Zone>)
    requires Routed(zones, contents) && GoodZone(g, Merged(contents)) && DesiredReadable(g) &&
             Settled(g, Merged(contents))
    ensures DesiredRouted(g, zones)
  {
    var m := Merged(contents);
    MergedIsRouted(zones, contents);
    forall s | s in g.want ensures Route(zones, g.want[s].dnsName).Some? {
      assert SettledAt(g, m, g.want[s].dnsName);
      assert !Missing(g, m, s);
      var k :| k in m && IsRecord(k) && Slot(k) == s;
      WantAtSlot(g, k);
      FqdnTrim(k.name);
      RouteFqdn(zones, g.want[s].dnsName);
    }
  }

  /** The records of `z`, each in the zone its name is routed to. */
  ghost function Distribute(zones: seq<string>, z: Zone): seq<Zone> {
    seq(|zones|, i requires 0 <= i < |zones| => map k | k in z && Route(zones, k.name) == Some(i) :: z[k])
  }

  lemma MergedDistribute(zones: seq<string>, z: Zone)
    requires NamesRouted(zones, z)
    ensures Routed(zones, Distribute(zones, z)) && Merged(Distribute(zones, z)) == z
  {
    var contents := Distribute(zones, z);
    forall k ensures Lookup(Merged(contents), k) == Lookup(z, k) {
      MergedLookup(zones, contents, k);
    }
    SameLookupsSameZone(Merged(contents), z);
  }

  /** Some zones that keep to their names are settled exactly when every desired name is routed somewhere. */
  lemma SettlesIffRouted(g: Goal, zones: seq<string>)
    requires GoodGoal(g) && NoMarkerZones(zones)
    ensures (exists contents ::
               Routed(zones, contents) && GoodZone(g, Merged(contents)) && Settled(g, Merged(contents)))
            <==> DesiredRouted(g, zones)
  {
    if contents :| Routed(zones, contents) && GoodZone(g, Merged(contents)) && Settled(g, Merged(contents)) {
      UnroutedNeverSettles(g, zones, contents);
    }
    if DesiredRouted(g, zones) {
      var z := NextZone(g, map[]);
      NextGood(g, map[]);
      OneCycleSettles(g, map[]);
      NextIsRouted(g, zones, map[]);
      MergedDistribute(zones, z);
      assert Settled(g, Merged(Distribute(zones, z)));
    }
  }
}
