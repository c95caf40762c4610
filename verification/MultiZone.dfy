/** The multi-zone provider (pkg/provider/rfc2136/multizone.go:72-146): fan-out, split and dispatch, and why
    splitting by zone changes nothing. */
module MultiZone {
  import opened Text
  import opened Endpoints
  import opened Dns
  import opened Provider
  import opened Routing

  /** No two entries are for the same zone.  `NewMulti` does not see to it; split and dispatch do not need it. */
  ghost predicate ZonesDistinct(zones: seq<string>) {
    forall i, j :: 0 <= i < j < |zones| ==> zones[i] != zones[j]
  }

  // ----- Records -----

  ghost predicate ReadBy(cfg: Config, env: seq<Envelope>, r: Option<seq<Endpoint>>) {
    (r.None? <==> TransferError in env) && (r.Some? ==> r.value == ReadAll(cfg, AllAnswers(env)))
  }

  datatype Fetched = All(eps: seq<Endpoint>) | Failed(zone: nat)

  /** Goroutines finish in some `order`, each writing its own slot; whatever the order, the result is the merge in
      zone order, or the error of the first zone whose transfer failed. */
  method FanOut(cfgs: seq<Config>, envs: seq<seq<Envelope>>, order: seq<nat>) returns (r: Fetched)
    requires |cfgs| == |envs|
    requires forall i :: 0 <= i < |envs| ==> i in order
    ensures r.All? ==> Merge(cfgs, envs, r.eps) && forall i :: 0 <= i < |envs| ==> TransferError !in envs[i]
    ensures r.Failed? ==>
              && r.zone < |envs| && TransferError in envs[r.zone]
              && forall i :: 0 <= i < r.zone ==> TransferError !in envs[i]
  {
    var results := new Option<seq<Endpoint>>[|envs|](_ => None);
    for t := 0 to |order|
      invariant forall i :: 0 <= i < |envs| && i in order[..t] ==> ReadBy(cfgs[i], envs[i], results[i])
    {
      var idx := order[t];
      if idx < |envs| {
        results[idx] := Records(cfgs[idx], envs[idx]);
      }
    }
    assert order[..|order|] == order;
    r := MergeResults(cfgs, envs, results[..]);
  }

  ghost predicate PartsOf(cfgs: seq<Config>, envs: seq<seq<Envelope>>, parts: seq<seq<Endpoint>>)
    requires |cfgs| == |envs|
  {
    && |parts| <= |envs|
    && forall i :: 0 <= i < |parts| ==>
         TransferError !in envs[i] && parts[i] == ReadAll(cfgs[i], AllAnswers(envs[i]))
  }

  /** `eps` is what the zones read as, one after the other. */
  ghost predicate Merge(cfgs: seq<Config>, envs: seq<seq<Envelope>>, eps: seq<Endpoint>)
    requires |cfgs| == |envs|
  {
    exists parts :: |parts| == |envs| && PartsOf(cfgs, envs, parts) && eps == Flatten(parts)
  }

  /** The loop after the wait. */
  method MergeResults(cfgs: seq<Config>, envs: seq<seq<Envelope>>, results: seq<Option<seq<Endpoint>>>)
    returns (r: Fetched)
    requires |cfgs| == |envs| == |results| && forall i :: 0 <= i < |envs| ==> ReadBy(cfgs[i], envs[i], results[i])
    ensures r.All? ==> Merge(cfgs, envs, r.eps) && forall i :: 0 <= i < |envs| ==> TransferError !in envs[i]
    ensures r.Failed? ==>
              && r.zone < |envs| && TransferError in envs[r.zone]
              && forall i :: 0 <= i < r.zone ==> TransferError !in envs[i]
  {
    var all: seq<Endpoint> := [];
    ghost var parts: seq<seq<Endpoint>> := [];
    for i := 0 to |envs|
      invariant |parts| == i && all == Flatten(parts) && PartsOf(cfgs, envs, parts)
    {
      assert ReadBy(cfgs[i], envs[i], results[i]);
      if results[i].None? { return Failed(i); }
      assert (parts + [results[i].value])[..i] == parts;
      parts := parts + [results[i].value];
      all := all + results[i].value;
    }
    return All(all);
  }

  // ----- splitting -----

  function Kept(zones: seq<string>, eps: seq<Endpoint>, i: nat): seq<Endpoint> {
    if eps == [] then []
    else
      var n := |eps| - 1;
      if Route(zones, eps[n].dnsName) == Some(i) then Kept(zones, eps[..n], i) + [eps[n]] else Kept(zones, eps[..n], i)
  }

  /** The new endpoints follow the routes of the old ones they replace. */
  function KeptNew(zones: seq<string>, olds: seq<Endpoint>, news: seq<Endpoint>, i: nat): seq<Endpoint> {
    if olds == [] then []
    else
      var n := |olds| - 1;
      var before := KeptNew(zones, olds[..n], news, i);
      if Route(zones, olds[n].dnsName) == Some(i) && n < |news| then before + [news[n]] else before
  }

  function SplitFor(zones: seq<string>, c: Changes, i: nat): Changes {
    Changes(Kept(zones, c.create, i), Kept(zones, c.updateOld, i), KeptNew(zones, c.updateOld, c.updateNew, i),
        Kept(zones, c.delete, i))
  }

  function FirstFrom(zones: seq<string>, i: nat, j: nat): (r: nat)
    requires j <= i < |zones| && forall t :: 0 <= t < j ==> zones[t] != zones[i]
    ensures r <= i && zones[r] == zones[i] && forall t :: 0 <= t < r ==> zones[t] != zones[i]
    decreases i - j
  {
    if zones[j] == zones[i] then j else FirstFrom(zones, i, j + 1)
  }

  /** The first entry for the same zone. */
  function FirstOf(zones: seq<string>, i: nat): (r: nat)
    requires i < |zones|
    ensures r <= i && zones[r] == zones[i] && forall t :: 0 <= t < r ==> zones[t] != zones[i]
  {
    FirstFrom(zones, i, 0)
  }

  /** The changes sent to entry `i`: those routed to its zone, which repeated entries of a zone share. */
  function Part(zones: seq<string>, c: Changes, i: nat): Changes
    requires i < |zones|
  {
    SplitFor(zones, c, FirstOf(zones, i))
  }

  ghost predicate SplitSoFar(zones: seq<string>, byZone: map<string, Changes>, c: Changes) {
    && (forall i :: 0 <= i < |zones| ==> zones[i] in byZone)
    && (forall i :: 0 <= i < |zones| ==> byZone[zones[i]] == Part(zones, c, i))
  }

  lemma KeptSnoc(zones: seq<string>, eps: seq<Endpoint>, ep: Endpoint, i: nat)
    ensures Kept(zones, eps + [ep], i) ==
            if Route(zones, ep.dnsName) == Some(i) then Kept(zones, eps, i) + [ep] else Kept(zones, eps, i)
  {
    assert (eps + [ep])[..|eps|] == eps;
  }

  lemma KeptNewSnoc(zones: seq<string>, olds: seq<Endpoint>, news: seq<Endpoint>, ep: Endpoint, i: nat)
    ensures KeptNew(zones, olds + [ep], news, i) ==
      if Route(zones, ep.dnsName) == Some(i) && |olds| < |news|
      then KeptNew(zones, olds, news, i) + [news[|olds|]]
      else KeptNew(zones, olds, news, i)
  {
    assert (olds + [ep])[..|olds|] == olds;
  }

  /** One more endpoint changes the part of one zone only. */
  lemma SplitStep(zones: seq<string>, byZone: map<string, Changes>, c: Changes, c': Changes, r: nat)
    requires SplitSoFar(zones, byZone, c) && r < |zones| && FirstOf(zones, r) == r
    requires forall i :: 0 <= i < |zones| && i != r ==> SplitFor(zones, c', i) == SplitFor(zones, c, i)
    ensures SplitSoFar(zones, byZone[zones[r] := SplitFor(zones, c', r)], c')
  {
    forall i | 0 <= i < |zones| ensures zones[i] == zones[r] <==> FirstOf(zones, i) == r {}
  }

  lemma RoutedFirst(zones: seq<string>, dnsName: string)
    requires Route(zones, dnsName).Some?
    ensures FirstOf(zones, Route(zones, dnsName).value) == Route(zones, dnsName).value
  {
    var r := Route(zones, dnsName).value;
    var f := FirstOf(zones, r);
    if f < r { RouteIsFirst(zones, dnsName, f); }
  }

  lemma CreateStep(zones: seq<string>, c: Changes, ep: Endpoint, i: nat)
    ensures SplitFor(zones, c.(create := c.create + [ep]), i) ==
      var zc := SplitFor(zones, c, i);
      if Route(zones, ep.dnsName) == Some(i) then zc.(create := zc.create + [ep]) else zc
  {
    KeptSnoc(zones, c.create, ep, i);
  }

  lemma DeleteStep(zones: seq<string>, c: Changes, ep: Endpoint, i: nat)
    ensures SplitFor(zones, c.(delete := c.delete + [ep]), i) ==
      var zc := SplitFor(zones, c, i);
      if Route(zones, ep.dnsName) == Some(i) then zc.(delete := zc.delete + [ep]) else zc
  {
    KeptSnoc(zones, c.delete, ep, i);
  }

  lemma UpdateStep(zones: seq<string>, c: Changes, ep: Endpoint, i: nat)
    ensures SplitFor(zones, c.(updateOld := c.updateOld + [ep]), i) ==
      var zc := SplitFor(zones, c, i);
      var n := |c.updateOld|;
      if Route(zones, ep.dnsName) != Some(i) then zc
      else zc.(updateOld := zc.updateOld + [ep],
          updateNew := if n < |c.updateNew| then zc.updateNew + [c.updateNew[n]] else zc.updateNew)
  {
    KeptSnoc(zones, c.updateOld, ep, i);
    KeptNewSnoc(zones, c.updateOld, c.updateNew, ep, i);
  }

  method SplitCreates(zones: seq<string>, start: map<string, Changes>, ghost c: Changes, create: seq<Endpoint>)
    returns (byZone: map<string, Changes>)
    requires c.create == [] && SplitSoFar(zones, start, c)
    ensures SplitSoFar(zones, byZone, c.(create := create))
  {
    byZone := start;
    for j := 0 to |create|
      invariant SplitSoFar(zones, byZone, c.(create := create[..j]))
    {
      var ep := create[j];
      ghost var before, after := c.(create := create[..j]), c.(create := create[..j + 1]);
      assert create[..j + 1] == create[..j] + [ep];
      forall i: nat | i < |zones|
        ensures SplitFor(zones, after, i) ==
                var zc := SplitFor(zones, before, i);
                if Route(zones, ep.dnsName) == Some(i) then zc.(create := zc.create + [ep]) else zc
      { CreateStep(zones, before, ep, i); }
      var r := ZoneFor(zones, ep.dnsName);
      if r.Some? {
        RoutedFirst(zones, ep.dnsName);
        var zc := byZone[zones[r.value]];
        SplitStep(zones, byZone, before, after, r.value);
        byZone := byZone[zones[r.value] := zc.(create := zc.create + [ep])];
      }
    }
    assert create[..|create|] == create;
  }

  method SplitDeletes(zones: seq<string>, start: map<string, Changes>, ghost c: Changes, delete: seq<Endpoint>)
    returns (byZone: map<string, Changes>)
    requires c.delete == [] && SplitSoFar(zones, start, c)
    ensures SplitSoFar(zones, byZone, c.(delete := delete))
  {
    byZone := start;
    for j := 0 to |delete|
      invariant SplitSoFar(zones, byZone, c.(delete := delete[..j]))
    {
      var ep := delete[j];
      ghost var before, after := c.(delete := delete[..j]), c.(delete := delete[..j + 1]);
      assert delete[..j + 1] == delete[..j] + [ep];
      forall i: nat | i < |zones|
        ensures SplitFor(zones, after, i) ==
                var zc := SplitFor(zones, before, i);
                if Route(zones, ep.dnsName) == Some(i) then zc.(delete := zc.delete + [ep]) else zc
      { DeleteStep(zones, before, ep, i); }
      var r := ZoneFor(zones, ep.dnsName);
      if r.Some? {
        RoutedFirst(zones, ep.dnsName);
        var zc := byZone[zones[r.value]];
        SplitStep(zones, byZone, before, after, r.value);
        byZone := byZone[zones[r.value] := zc.(delete := zc.delete + [ep])];
      }
    }
    assert delete[..|delete|] == delete;
  }

  method SplitUpdates(zones: seq<string>, start: map<string, Changes>, ghost c: Changes, olds: seq<Endpoint>,
                      news: seq<Endpoint>)
    returns (byZone: map<string, Changes>)
    requires c.updateOld == [] && SplitSoFar(zones, start, c) && c.updateNew == news
    ensures SplitSoFar(zones, byZone, c.(updateOld := olds))
  {
    byZone := start;
    for j := 0 to |olds|
      invariant SplitSoFar(zones, byZone, c.(updateOld := olds[..j]))
    {
      var ep := olds[j];
      ghost var before, after := c.(updateOld := olds[..j]), c.(updateOld := olds[..j + 1]);
      assert olds[..j + 1] == olds[..j] + [ep];
      forall i: nat | i < |zones|
        ensures SplitFor(zones, after, i) == var zc := SplitFor(zones, before, i);
                  if Route(zones, ep.dnsName) != Some(i) then zc
                  else zc.(updateOld := zc.updateOld + [ep],
                      updateNew := if j < |news| then zc.updateNew + [news[j]] else zc.updateNew)
      { UpdateStep(zones, before, ep, i); }
      var r := ZoneFor(zones, ep.dnsName);
      if r.Some? {
        RoutedFirst(zones, ep.dnsName);
        var zc := byZone[zones[r.value]];
        SplitStep(zones, byZone, before, after, r.value);
        zc := zc.(updateOld := zc.updateOld + [ep]);
        if j < |news| { zc := zc.(updateNew := zc.updateNew + [news[j]]); }
        byZone := byZone[zones[r.value] := zc];
      }
    }
    assert olds[..|olds|] == olds;
  }

  /** The `byZone` map: an exact, order-preserving partition of the routed endpoints. */
  method SplitChanges(zones: seq<string>, c: Changes) returns (byZone: map<string, Changes>)
    ensures SplitSoFar(zones, byZone, c)
  {
    byZone := map i | 0 <= i < |zones| :: zones[i] := Changes([], [], [], []);
    ghost var empty := Changes([], [], c.updateNew, []);
    byZone := SplitCreates(zones, byZone, empty, c.create);
    byZone := SplitDeletes(zones, byZone, empty.(create := c.create), c.delete);
    byZone := SplitUpdates(zones, byZone, empty.(create := c.create, delete := c.delete), c.updateOld, c.updateNew);
  }

  // ----- dispatch -----

  ghost function Applied(cfgs: seq<Config>, zones: seq<string>, contents: seq<Zone>, c: Changes, i: nat): Zone
    requires i < |cfgs| && i < |contents| && i < |zones|
  {
    Run(contents[i], Message(cfgs[i], Part(zones, c, i)))
  }

  /** Zone `i` has its part of the changes, and no error came of it. */
  ghost predicate Served(cfgs: seq<Config>, zones: seq<string>, contents: seq<Zone>, c: Changes,
                         outcomes: seq<Outcome>, i: nat, z: Zone)
    requires i < |cfgs| && i < |contents| && i < |outcomes| && i < |zones|
  {
    z == Applied(cfgs, zones, contents, c, i) && (outcomes[i].Success? || Part(zones, c, i).IsEmpty())
  }

  /** The update of zone `i` was sent and failed, with or without having taken effect. */
  ghost predicate Stopped(cfgs: seq<Config>, zones: seq<string>, contents: seq<Zone>, c: Changes,
                          outcomes: seq<Outcome>, i: nat, z: Zone)
    requires i < |cfgs| && i < |contents| && i < |outcomes| && i < |zones|
  {
    && outcomes[i].Failure? && !Part(zones, c, i).IsEmpty()
    && z == if outcomes[i].tookEffect then Applied(cfgs, zones, contents, c, i) else contents[i]
  }

  /** The zones before `stop` are served, those after it are as they were, and `stop`, if it is a zone, is the
      first whose update was sent and failed. */
  ghost predicate Dispatched(cfgs: seq<Config>, zones: seq<string>, contents: seq<Zone>, c: Changes,
                             outcomes: seq<Outcome>, contents': seq<Zone>, stop: nat)
    requires |cfgs| == |zones| == |contents| == |outcomes|
  {
    && |contents'| == |zones| && stop <= |zones|
    && (forall i :: 0 <= i < stop ==> Served(cfgs, zones, contents, c, outcomes, i, contents'[i]))
    && (stop < |zones| ==> Stopped(cfgs, zones, contents, c, outcomes, stop, contents'[stop]))
    && (forall i :: stop < i < |zones| ==> contents'[i] == contents[i])
  }

  /** One turn of the dispatch loop. */
  method ApplyOne(cfgs: seq<Config>, zones: seq<string>, ghost contents: seq<Zone>, ghost c: Changes,
                  outcomes: seq<Outcome>, i: nat, z: Zone, zc: Changes) returns (z': Zone, err: bool)
    requires |cfgs| == |zones| == |contents| == |outcomes| && i < |zones| && z == contents[i] && zc == Part(zones, c, i)
    ensures if err then Stopped(cfgs, zones, contents, c, outcomes, i, z')
            else Served(cfgs, zones, contents, c, outcomes, i, z')
  {
    z', err := Provider.ApplyChanges(cfgs[i], z, zc, outcomes[i]);
    if zc.IsEmpty() { EmptyMessage(cfgs[i], z, zc); }
  }

  ghost predicate ServedUpTo(cfgs: seq<Config>, zones: seq<string>, contents: seq<Zone>, c: Changes,
                             outcomes: seq<Outcome>, zs: seq<Zone>, i: nat)
    requires |cfgs| == |zones| == |contents| == |outcomes|
  {
    && |zs| == |zones| && i <= |zones|
    && (forall j :: 0 <= j < i ==> Served(cfgs, zones, contents, c, outcomes, j, zs[j]))
    && (forall j :: i <= j < |zones| ==> zs[j] == contents[j])
  }

  lemma ServeNext(cfgs: seq<Config>, zones: seq<string>, contents: seq<Zone>, c: Changes, outcomes: seq<Outcome>,
                  zs: seq<Zone>, i: nat, z: Zone)
    requires |cfgs| == |zones| == |contents| == |outcomes| && i < |zones|
    requires ServedUpTo(cfgs, zones, contents, c, outcomes, zs, i) && Served(cfgs, zones, contents, c, outcomes, i, z)
    ensures ServedUpTo(cfgs, zones, contents, c, outcomes, zs[i := z], i + 1)
  {
  }

  lemma StopHere(cfgs: seq<Config>, zones: seq<string>, contents: seq<Zone>, c: Changes, outcomes: seq<Outcome>,
                 zs: seq<Zone>, i: nat, z: Zone)
    requires |cfgs| == |zones| == |contents| == |outcomes| && i < |zones|
    requires ServedUpTo(cfgs, zones, contents, c, outcomes, zs, i) && Stopped(cfgs, zones, contents, c, outcomes, i, z)
    ensures Dispatched(cfgs, zones, contents, c, outcomes, zs[i := z], i)
  {
  }

  /** `ApplyChanges`: the servers' zones are the state it changes, zone by zone, up to the first error. */
  method ApplyAll(cfgs: seq<Config>, zones: seq<string>, servers: array<Zone>, c: Changes, outcomes: seq<Outcome>)
    returns (failed: bool, ghost stop: nat)
    requires |cfgs| == |zones| == servers.Length == |outcomes|
    modifies servers
    ensures failed <==> stop < |zones|
    ensures Dispatched(cfgs, zones, old(servers[..]), c, outcomes, servers[..], stop)
  {
    var byZone := SplitChanges(zones, c);
    ghost var before := servers[..];
    for i := 0 to |zones|
      invariant ServedUpTo(cfgs, zones, before, c, outcomes, servers[..], i)
    {
      ghost var zs := servers[..];
      var z, err := ApplyOne(cfgs, zones, before, c, outcomes, i, servers[i], byZone[zones[i]]);
      servers[i] := z;
      assert servers[..] == zs[i := z];
      if err {
        StopHere(cfgs, zones, before, c, outcomes, zs, i, z);
        return true, i;
      }
      ServeNext(cfgs, zones, before, c, outcomes, zs, i, z);
    }
    return false, |zones|;
  }
}
