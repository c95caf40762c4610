/** What the code does, transfer to plan to message to server, is what `Cycle.NextZone` says: for every order of
    the transfer and every order of the map walks. */
module Refinement {
  import opened Text
  import opened Endpoints
  import opened Dns
  import opened Phases
  import opened Provider
  import opened Plan
  import opened Cycle

  // ----- what the plan sees of the zone -----

  lemma ReadMarks(g: Goal, k: RRKey, ttl: nat, n: string)
    requires !k.data.Other?
    ensures Marks(g.owner, Read(g.cfg, k, ttl), n) <==> Claims(g.owner, k, n)
    ensures IsOwnershipTXT(Read(g.cfg, k, ttl)) <==> IsMarker(k)
    ensures EpKey(Read(g.cfg, k, ttl)) == Slot(k)
  {
    if OWNER_PREFIX <= NameOf(k) {
      assert NameOf(k) == OWNER_PREFIX + NameOf(k)[|OWNER_PREFIX|..];
    }
    assert OwnershipName(n)[|OWNER_PREFIX|..] == n;
  }

  lemma OwnershipSeen(g: Goal, z: Zone, rrs: seq<RR>, n: string)
    requires Transfer(z, rrs)
    ensures OwnedIn(g.owner, ReadAll(g.cfg, rrs), n) <==> Owned(g.owner, z, n)
  {
    var eps := ReadAll(g.cfg, rrs);
    if OwnedIn(g.owner, eps, n) {
      var ep :| ep in eps && Marks(g.owner, ep, n);
      InReadAll(g.cfg, rrs, ep);
      var rr :| rr in rrs && RrToEndpoint(g.cfg, rr) == Some(ep);
      ReadMarks(g, rr.key, rr.ttl, n);
      assert rr.key in z && Claims(g.owner, rr.key, n);
    }
    if Owned(g.owner, z, n) {
      var k :| k in z && Claims(g.owner, k, n);
      ReadMarks(g, k, z[k], n);
      assert RrToEndpoint(g.cfg, RR(k, z[k])) == Some(Read(g.cfg, k, z[k]));
      InReadAll(g.cfg, rrs, Read(g.cfg, k, z[k]));
    }
  }

  lemma RecordSeen(g: Goal, z: Zone, rrs: seq<RR>, ep: Endpoint)
    requires Transfer(z, rrs)
    ensures ep in WithoutOwnership(ReadAll(g.cfg, rrs)) <==>
            exists k :: k in z && IsRecord(k) && ep == Read(g.cfg, k, z[k])
  {
    var eps := ReadAll(g.cfg, rrs);
    InWithoutOwnership(eps, ep);
    InReadAll(g.cfg, rrs, ep);
    if ep in WithoutOwnership(eps) {
      var rr :| rr in rrs && RrToEndpoint(g.cfg, rr) == Some(ep);
      ReadMarks(g, rr.key, rr.ttl, "");
      assert rr.key in z && IsRecord(rr.key);
    }
    if k :| k in z && IsRecord(k) && ep == Read(g.cfg, k, z[k]) {
      ReadMarks(g, k, z[k], "");
      assert RrToEndpoint(g.cfg, RR(k, z[k])) == Some(ep);
    }
  }

  lemma SlotsSeen(g: Goal, z: Zone, rrs: seq<RR>, s: string)
    requires Transfer(z, rrs)
    ensures s in CurrentIndex(ReadAll(g.cfg, rrs)) <==> Has(z, s)
  {
    var kept := WithoutOwnership(ReadAll(g.cfg, rrs));
    InIndex(kept, s);
    if ep :| ep in kept && EpKey(ep) == s {
      RecordSeen(g, z, rrs, ep);
      var k :| k in z && IsRecord(k) && ep == Read(g.cfg, k, z[k]);
      ReadMarks(g, k, z[k], "");
    }
    if Has(z, s) {
      var k :| k in z && IsRecord(k) && Slot(k) == s;
      ReadMarks(g, k, z[k], "");
      RecordSeen(g, z, rrs, Read(g.cfg, k, z[k]));
    }
  }

  /** The record the index holds for a slot; at a managed name it is the only one. */
  lemma SlotHolder(g: Goal, z: Zone, rrs: seq<RR>, s: string) returns (k: RRKey)
    requires Transfer(z, rrs) && s in CurrentIndex(ReadAll(g.cfg, rrs))
    ensures k in z && IsRecord(k) && Slot(k) == s && CurrentIndex(ReadAll(g.cfg, rrs))[s] == Read(g.cfg, k, z[k])
  {
    var kept := WithoutOwnership(ReadAll(g.cfg, rrs));
    InIndex(kept, s);
    var ep := Index(kept)[s];
    RecordSeen(g, z, rrs, ep);
    k :| k in z && IsRecord(k) && ep == Read(g.cfg, k, z[k]);
    ReadMarks(g, k, z[k], "");
  }

  lemma SlotHolderAt(g: Goal, z: Zone, rrs: seq<RR>, k: RRKey)
    requires Transfer(z, rrs) && Singletons(g, z) && k in z && IsRecord(k) && Managed(g, z, NameOf(k))
    ensures Slot(k) in CurrentIndex(ReadAll(g.cfg, rrs)) &&
            CurrentIndex(ReadAll(g.cfg, rrs))[Slot(k)] == Read(g.cfg, k, z[k])
  {
    SlotsSeen(g, z, rrs, Slot(k));
    var k' := SlotHolder(g, z, rrs, Slot(k));
    SlotInjective(k, k');
  }

  lemma MarkerWrites(g: Goal, n: string)
    ensures EndpointToRRs(g.cfg, OwnershipTXT(g.owner, n)) ==
            Some([RR(MarkerKey(g.owner, n), WrittenTTL(g.cfg, OWNER_TTL))])
  {
    OneTarget(g.cfg, OwnershipTXT(g.owner, n));
  }

  lemma RecordRemovesNoMarker(cfg: Config, o: RRKey, ttl: nat, k: RRKey)
    requires Legal(o.name) && IsRecord(o) && YieldsKey(cfg, Read(cfg, o, ttl), k)
    ensures !IsMarker(k)
  {
    YieldedName(cfg, Read(cfg, o, ttl), k);
    YieldedType(cfg, Read(cfg, o, ttl), k);
    FqdnTrim(o.name);
  }

  // ----- phase 1: deletes -----

  ghost predicate Deleted(g: Goal, z: Zone, k: RRKey) {
    Dropped(g, z, k) || exists n :: DropsAt(g, z, n) && k == MarkerKey(g.owner, n)
  }

  ghost predicate PlanOf(g: Goal, z: Zone, desired: seq<Endpoint>, rrs: seq<RR>, p: Changes) {
    && g.want == Index(desired) && GoodGoal(g) && GoodZone(g, z)
    && Transfer(z, rrs) && IsPlan(g.owner, desired, ReadAll(g.cfg, rrs), p)
  }

  lemma DeleteYields(g: Goal, z: Zone, rrs: seq<RR>, s: string, ep: Endpoint, k: RRKey)
    requires GoodGoal(g) && GoodZone(g, z) && Transfer(z, rrs)
    requires s !in g.want && s in CurrentIndex(ReadAll(g.cfg, rrs))
    requires var have := CurrentIndex(ReadAll(g.cfg, rrs))[s];
             OwnedIn(g.owner, ReadAll(g.cfg, rrs), have.dnsName) &&
                 (ep == have || ep == OwnershipTXT(g.owner, have.dnsName))
    requires YieldsKey(g.cfg, ep, k)
    ensures Deleted(g, z, k)
  {
    var k0 := SlotHolder(g, z, rrs, s);
    var have := CurrentIndex(ReadAll(g.cfg, rrs))[s];
    OwnershipSeen(g, z, rrs, have.dnsName);
    assert have.dnsName == NameOf(k0) && Dropped(g, z, k0);
    assert DropsAt(g, z, NameOf(k0));
    if ep == have {
      RecordRoundTrip(g.cfg, k0, z[k0]);
    } else {
      MarkerWrites(g, NameOf(k0));
    }
  }

  lemma DroppedIsPlanned(g: Goal, z: Zone, rrs: seq<RR>, k: RRKey)
    requires GoodGoal(g) && GoodZone(g, z) && Transfer(z, rrs) && Dropped(g, z, k)
    ensures var c, owned := CurrentIndex(ReadAll(g.cfg, rrs)), OwnedNames(g.owner, ReadAll(g.cfg, rrs));
            && PlansDelete(g.owner, owned, g.want, c, Read(g.cfg, k, z[k]))
            && PlansDelete(g.owner, owned, g.want, c, OwnershipTXT(g.owner, NameOf(k)))
    ensures YieldsKey(g.cfg, Read(g.cfg, k, z[k]), k)
  {
    SlotHolderAt(g, z, rrs, k);
    OwnershipSeen(g, z, rrs, NameOf(k));
    RewriteHitsIff(g.cfg, k, z[k]);
  }

  lemma PlannedIsDeleted(g: Goal, z: Zone, rrs: seq<RR>, ep: Endpoint, k: RRKey)
    requires GoodGoal(g) && GoodZone(g, z) && Transfer(z, rrs) && YieldsKey(g.cfg, ep, k)
    requires PlansDelete(g.owner, OwnedNames(g.owner, ReadAll(g.cfg, rrs)), g.want, CurrentIndex(ReadAll(g.cfg, rrs)),
             ep)
    ensures Deleted(g, z, k)
  {
    var current := ReadAll(g.cfg, rrs);
    var c, owned := CurrentIndex(current), OwnedNames(g.owner, current);
    var s :| s in c && s !in g.want && c[s].dnsName in owned &&
        (ep == c[s] || ep == OwnershipTXT(g.owner, c[s].dnsName));
    DeleteYields(g, z, rrs, s, ep, k);
  }

  lemma DeletesInMessage(g: Goal, z: Zone, rrs: seq<RR>, delete: seq<Endpoint>, k: RRKey)
    requires GoodGoal(g) && GoodZone(g, z) && Transfer(z, rrs)
    requires forall ep :: ep in delete <==>
               PlansDelete(g.owner, OwnedNames(g.owner, ReadAll(g.cfg, rrs)), g.want,
                   CurrentIndex(ReadAll(g.cfg, rrs)), ep)
    ensures Remove(k) in DeleteOps(g.cfg, delete) <==> Deleted(g, z, k)
  {
    InDeleteOps(g.cfg, delete, Remove(k));
    if Remove(k) in DeleteOps(g.cfg, delete) {
      var ep :| ep in delete && YieldsKey(g.cfg, ep, k);
      PlannedIsDeleted(g, z, rrs, ep, k);
    }
    if Deleted(g, z, k) { var ep := DeletedIsPlanned(g, z, rrs, k); }
  }

  lemma DeletedIsPlanned(g: Goal, z: Zone, rrs: seq<RR>, k: RRKey) returns (ep: Endpoint)
    requires GoodGoal(g) && GoodZone(g, z) && Transfer(z, rrs) && Deleted(g, z, k)
    ensures PlansDelete(g.owner, OwnedNames(g.owner, ReadAll(g.cfg, rrs)), g.want, CurrentIndex(ReadAll(g.cfg, rrs)),
            ep)
    ensures YieldsKey(g.cfg, ep, k)
  {
    if Dropped(g, z, k) {
      DroppedIsPlanned(g, z, rrs, k);
      ep := Read(g.cfg, k, z[k]);
    } else {
      var n :| DropsAt(g, z, n) && k == MarkerKey(g.owner, n);
      var k0 :| Dropped(g, z, k0) && NameOf(k0) == n;
      DroppedIsPlanned(g, z, rrs, k0);
      MarkerWrites(g, n);
      ep := OwnershipTXT(g.owner, n);
      assert Yields(g.cfg, ep, RR(k, WrittenTTL(g.cfg, OWNER_TTL)));
    }
  }

  // ----- phase 2: updates -----

  /** An owned record that differs from the one desired in its slot. */
  ghost predicate Stale(g: Goal, z: Zone, k: RRKey) {
    k in z && IsRecord(k) && Owned(g.owner, z, NameOf(k)) && Slot(k) in g.want &&
        !SameRecord(Read(g.cfg, k, z[k]), g.want[Slot(k)])
  }

  ghost predicate StaleSlot(g: Goal, z: Zone, s: string) {
    exists k :: Stale(g, z, k) && Slot(k) == s
  }

  lemma OutdatedIsStale(g: Goal, z: Zone, rrs: seq<RR>, s: string)
    requires GoodGoal(g) && GoodZone(g, z) && Transfer(z, rrs)
    ensures Outdated(OwnedNames(g.owner, ReadAll(g.cfg, rrs)), g.want, CurrentIndex(ReadAll(g.cfg, rrs)), s) <==>
            StaleSlot(g, z, s)
  {
    var current := ReadAll(g.cfg, rrs);
    var c := CurrentIndex(current);
    if s in g.want { OwnershipSeen(g, z, rrs, g.want[s].dnsName); }
    if s in g.want && s in c {
      var k := SlotHolder(g, z, rrs, s);
      WantFacts(g, s);
      SlotInjective(k, KeyOf(g.cfg, g.want[s]));
      if Outdated(OwnedNames(g.owner, current), g.want, c, s) { assert Stale(g, z, k); }
    }
    if StaleSlot(g, z, s) {
      var k :| Stale(g, z, k) && Slot(k) == s;
      SlotHolderAt(g, z, rrs, k);
      WantFacts(g, s);
      SlotInjective(k, KeyOf(g.cfg, g.want[s]));
    }
  }

  const NOWHERE: RRKey := RRKey("", Other(0, ""))

  /** The record a desired slot is written as. */
  function NewRR(g: Goal, s: string): RR {
    if s in g.want then RR(KeyOf(g.cfg, g.want[s]), WrittenTTL(g.cfg, g.want[s].ttl)) else RR(NOWHERE, 0)
  }

  /** The record that holds a slot. */
  ghost function Holder(z: Zone, s: string): RRKey {
    if k :| k in z && IsRecord(k) && Slot(k) == s then k else NOWHERE
  }

  ghost function OldRecords(z: Zone, changed: seq<string>): seq<RRKey> {
    seq(|changed|, i requires 0 <= i < |changed| => Holder(z, changed[i]))
  }

  ghost function NewRecords(g: Goal, changed: seq<string>): seq<RR> {
    seq(|changed|, i requires 0 <= i < |changed| => NewRR(g, changed[i]))
  }

  lemma StaleHolder(g: Goal, z: Zone, k: RRKey)
    requires GoodZone(g, z) && Stale(g, z, k)
    ensures Holder(z, Slot(k)) == k && Slot(k) in g.want
  {
    var k' := Holder(z, Slot(k));
    assert k' in z && IsRecord(k') && Slot(k') == Slot(k);
    SlotInjective(k, k');
  }

  /** The plan's old endpoint of a stale slot is written as the one record that holds the slot. */
  lemma StaleSlotConverts(g: Goal, z: Zone, rrs: seq<RR>, s: string)
    requires GoodGoal(g) && GoodZone(g, z) && Transfer(z, rrs) && StaleSlot(g, z, s)
    ensures s in g.want && s in CurrentIndex(ReadAll(g.cfg, rrs))
    ensures PairConverts(g.cfg, CurrentIndex(ReadAll(g.cfg, rrs))[s], g.want[s], Holder(z, s), NewRR(g, s))
  {
    var k :| Stale(g, z, k) && Slot(k) == s;
    StaleHolder(g, z, k);
    SlotHolderAt(g, z, rrs, k);
    RecordRoundTrip(g.cfg, k, z[k]);
    WantFacts(g, s);
  }

  ghost predicate PairConverts(cfg: Config, epOld: Endpoint, epNew: Endpoint, before: RRKey, after: RR) {
    && (exists ttl :: EndpointToRRs(cfg, epOld) == Some([RR(before, ttl)]))
    && EndpointToRRs(cfg, epNew) == Some([after])
  }

  lemma SinglePair(before: seq<Op>, a: RR, b: RR)
    ensures before + Removes([a]) + Inserts([b]) == before + [Remove(a.key), Insert(b.key, b.ttl)]
  {
    assert Removes([a]) == [Remove(a.key)] && Inserts([b]) == [Insert(b.key, b.ttl)];
  }

  lemma {:induction false} PairsConvert(cfg: Config, epOlds: seq<Endpoint>, epNews: seq<Endpoint>, olds: seq<RRKey>,
                                        news: seq<RR>, n: nat)
    requires |epOlds| == |olds| == |news| == |epNews| && n <= |olds|
    requires forall i :: 0 <= i < |olds| ==> PairConverts(cfg, epOlds[i], epNews[i], olds[i], news[i])
    ensures UpdateOps(cfg, epOlds[..n], epNews) == PairOps(olds[..n], news[..n])
  {
    if n > 0 {
      var m := n - 1;
      PairsConvert(cfg, epOlds, epNews, olds, news, m);
      assert PairConverts(cfg, epOlds[m], epNews[m], olds[m], news[m]);
      var ttl :| EndpointToRRs(cfg, epOlds[m]) == Some([RR(olds[m], ttl)]);
      assert epOlds[..n][..m] == epOlds[..m] && olds[..n][..m] == olds[..m] && news[..n][..m] == news[..m];
      SinglePair(PairOps(olds[..m], news[..m]), RR(olds[m], ttl), news[m]);
    }
  }

  ghost predicate StaleSlots(g: Goal, z: Zone, changed: seq<string>) {
    Distinct(changed) && forall s :: s in changed <==> StaleSlot(g, z, s)
  }

  lemma PairsConvertAll(cfg: Config, epOlds: seq<Endpoint>, epNews: seq<Endpoint>, olds: seq<RRKey>, news: seq<RR>)
    requires |epOlds| == |olds| == |news| == |epNews|
    requires forall i :: 0 <= i < |olds| ==> PairConverts(cfg, epOlds[i], epNews[i], olds[i], news[i])
    ensures UpdateOps(cfg, epOlds, epNews) == PairOps(olds, news)
  {
    PairsConvert(cfg, epOlds, epNews, olds, news, |olds|);
    assert epOlds[..|olds|] == epOlds && olds[..|olds|] == olds && news[..|olds|] == news;
  }

  lemma StaleEndpointsConvert(g: Goal, z: Zone, rrs: seq<RR>, c: map<string, Endpoint>, changed: seq<string>)
    requires GoodGoal(g) && GoodZone(g, z) && Transfer(z, rrs) && c == CurrentIndex(ReadAll(g.cfg, rrs)) &&
             StaleSlots(g, z, changed)
    requires forall s :: s in changed ==> s in c && s in g.want
    ensures forall i :: 0 <= i < |changed| ==>
              PairConverts(g.cfg, Pick(c, changed)[i], Pick(g.want, changed)[i], OldRecords(z, changed)[i],
                  NewRecords(g, changed)[i])
  {
    forall i | 0 <= i < |changed|
      ensures PairConverts(g.cfg, Pick(c, changed)[i], Pick(g.want, changed)[i], OldRecords(z, changed)[i],
              NewRecords(g, changed)[i])
    {
      assert changed[i] in changed;
      StaleSlotConverts(g, z, rrs, changed[i]);
    }
  }

  lemma UpdatesInMessage(g: Goal, z: Zone, desired: seq<Endpoint>, rrs: seq<RR>, p: Changes)
    returns (changed: seq<string>)
    requires PlanOf(g, z, desired, rrs, p)
    ensures StaleSlots(g, z, changed)
    ensures UpdateOps(g.cfg, p.updateOld, p.updateNew) == PairOps(OldRecords(z, changed), NewRecords(g, changed))
  {
    changed := PlanMeaning(g.owner, desired, ReadAll(g.cfg, rrs), p);
    forall s ensures s in changed <==> StaleSlot(g, z, s) { OutdatedIsStale(g, z, rrs, s); }
    StaleEndpointsConvert(g, z, rrs, CurrentIndex(ReadAll(g.cfg, rrs)), changed);
    PairsConvertAll(g.cfg, p.updateOld, p.updateNew, OldRecords(z, changed), NewRecords(g, changed));
  }

  // ----- phase 3: creates -----

  ghost predicate Added(g: Goal, z: Zone, s: string, op: Op) {
    Missing(g, z, s) &&
    (op == Insert(NewRR(g, s).key, NewRR(g, s).ttl) ||
        op == Insert(MarkerKey(g.owner, g.want[s].dnsName), WrittenTTL(g.cfg, OWNER_TTL)))
  }

  lemma DesiredYields(g: Goal, s: string, rr: RR)
    requires DesiredReadable(g) && s in g.want
    ensures Yields(g.cfg, g.want[s], rr) <==> rr == NewRR(g, s)
  {
    CanonicalWrites(g.cfg, g.want[s]);
  }

  lemma MarkerYields(g: Goal, n: string, rr: RR)
    ensures Yields(g.cfg, OwnershipTXT(g.owner, n), rr) <==>
            rr == RR(MarkerKey(g.owner, n), WrittenTTL(g.cfg, OWNER_TTL))
  {
    MarkerWrites(g, n);
  }

  lemma CreateYields(g: Goal, z: Zone, rrs: seq<RR>, ep: Endpoint, op: Op) returns (s: string)
    requires DesiredReadable(g) && Transfer(z, rrs) && op.Insert?
    requires PlansCreate(g.owner, g.want, CurrentIndex(ReadAll(g.cfg, rrs)), ep) &&
             Yields(g.cfg, ep, RR(op.key, op.ttl))
    ensures Added(g, z, s, op)
  {
    s :| s in g.want && s !in CurrentIndex(ReadAll(g.cfg, rrs)) &&
        (ep == g.want[s] || ep == OwnershipTXT(g.owner, g.want[s].dnsName));
    SlotsSeen(g, z, rrs, s);
    DesiredYields(g, s, RR(op.key, op.ttl));
    MarkerYields(g, g.want[s].dnsName, RR(op.key, op.ttl));
  }

  lemma AddedIsPlanned(g: Goal, z: Zone, rrs: seq<RR>, s: string, op: Op) returns (ep: Endpoint)
    requires DesiredReadable(g) && Transfer(z, rrs) && Added(g, z, s, op)
    ensures PlansCreate(g.owner, g.want, CurrentIndex(ReadAll(g.cfg, rrs)), ep) && Yields(g.cfg, ep, RR(op.key, op.ttl))
  {
    SlotsSeen(g, z, rrs, s);
    DesiredYields(g, s, RR(op.key, op.ttl));
    MarkerYields(g, g.want[s].dnsName, RR(op.key, op.ttl));
    ep := if op == Insert(NewRR(g, s).key, NewRR(g, s).ttl) then g.want[s]
        else OwnershipTXT(g.owner, g.want[s].dnsName);
  }

  lemma CreatesInMessage(g: Goal, z: Zone, rrs: seq<RR>, create: seq<Endpoint>, op: Op)
    requires DesiredReadable(g) && Transfer(z, rrs)
    requires forall ep :: ep in create <==> PlansCreate(g.owner, g.want, CurrentIndex(ReadAll(g.cfg, rrs)), ep)
    ensures op in CreateOps(g.cfg, create) <==> exists s :: Added(g, z, s, op)
  {
    InCreateOps(g.cfg, create, op);
    if op in CreateOps(g.cfg, create) {
      var ep :| ep in create && Yields(g.cfg, ep, RR(op.key, op.ttl));
      var s := CreateYields(g, z, rrs, ep, op);
    }
    if s :| Added(g, z, s, op) {
      var ep := AddedIsPlanned(g, z, rrs, s, op);
    }
  }

  // ----- the phases in closed form -----

  ghost predicate AfterDeletes(g: Goal, z: Zone, z1: Zone) {
    forall k :: Lookup(z1, k) == if Deleted(g, z, k) then None else Lookup(z, k)
  }

  /** A desired record whose slot held a stale one. */
  ghost predicate Renewed(g: Goal, z: Zone, k: RRKey) {
    IsRecord(k) && IsWanted(g, k) && StaleSlot(g, z, Slot(k))
  }

  ghost predicate AfterUpdates(g: Goal, z: Zone, z2: Zone) {
    forall k :: Lookup(z2, k) ==
      if Renewed(g, z, k) then Some(NewRR(g, Slot(k)).ttl)
      else if Deleted(g, z, k) || Stale(g, z, k) then None
      else Lookup(z, k)
  }

  lemma DeletePhase(g: Goal, z: Zone, desired: seq<Endpoint>, rrs: seq<RR>, p: Changes)
    requires PlanOf(g, z, desired, rrs, p)
    ensures AfterDeletes(g, z, Run(z, DeleteOps(g.cfg, p.delete)))
  {
    var ops := DeleteOps(g.cfg, p.delete);
    var _ := PlanMeaning(g.owner, desired, ReadAll(g.cfg, rrs), p);
    forall op | op in ops ensures op.Remove? { InDeleteOps(g.cfg, p.delete, op); }
    forall k ensures Lookup(Run(z, ops), k) == if Deleted(g, z, k) then None else Lookup(z, k) {
      RunRemovals(z, ops, k);
      DeletesInMessage(g, z, rrs, p.delete, k);
    }
  }

  lemma DeletedFacts(g: Goal, z: Zone, k: RRKey)
    requires GoodZone(g, z) && Deleted(g, z, k)
    ensures IsRecord(k) ==> Dropped(g, z, k)
    ensures !IsRecord(k) ==> exists n :: DropsAt(g, z, n) && k == MarkerKey(g.owner, n) && n != "" && !EndsWithDot(n)
  {
    if !Dropped(g, z, k) {
      var n :| DropsAt(g, z, n) && k == MarkerKey(g.owner, n);
      OwnedIsMarker(g, z, n);
      MarkerKeyFacts(g.owner, n);
    }
  }

  lemma StaleNotDeleted(g: Goal, z: Zone, k: RRKey)
    requires GoodZone(g, z) && Stale(g, z, k)
    ensures !Deleted(g, z, k)
  {
    if Deleted(g, z, k) { DeletedFacts(g, z, k); }
  }

  lemma NewRRFacts(g: Goal, s: string)
    requires GoodGoal(g) && s in g.want
    ensures var k := NewRR(g, s).key; Slot(k) == s && IsRecord(k) && IsWanted(g, k) && Legal(k.name)
  {
    WantFacts(g, s);
  }

  lemma StalePair(g: Goal, z: Zone, s: string)
    requires GoodGoal(g) && GoodZone(g, z) && StaleSlot(g, z, s)
    ensures Stale(g, z, Holder(z, s)) && Slot(Holder(z, s)) == s
    ensures var k := NewRR(g, s).key; Slot(k) == s && IsRecord(k) && IsWanted(g, k)
    ensures Holder(z, s).name == NewRR(g, s).key.name && Holder(z, s).data.CNAME? == NewRR(g, s).key.data.CNAME?
  {
    var k :| Stale(g, z, k) && Slot(k) == s;
    StaleHolder(g, z, k);
    NewRRFacts(g, s);
    SlotInjective(k, NewRR(g, s).key);
    SameName(k, NewRR(g, s).key);
  }

  /** The update pairs meet the conditions of `Phases.RunReplacements`. */
  lemma UpdatesReplace(g: Goal, z: Zone, z1: Zone, changed: seq<string>)
    requires GoodGoal(g) && GoodZone(g, z) && AfterDeletes(g, z, z1) && StaleSlots(g, z, changed)
    ensures CnameExclusive(z1) && Replacements(z1, OldRecords(z, changed), NewRecords(g, changed))
  {
    forall k | k in z1 ensures k in z { assert Lookup(z1, k) != None; }
    var olds, news := OldRecords(z, changed), NewRecords(g, changed);
    forall i | 0 <= i < |changed|
      ensures olds[i] in z1 && olds[i].name == news[i].key.name && olds[i].data.CNAME? == news[i].key.data.CNAME?
      ensures Slot(olds[i]) == changed[i] && Slot(news[i].key) == changed[i]
    {
      StalePair(g, z, changed[i]);
      StaleNotDeleted(g, z, olds[i]);
      assert Lookup(z1, olds[i]) == Lookup(z, olds[i]);
    }
  }

  lemma UpdatePhase(g: Goal, z: Zone, z1: Zone, changed: seq<string>, z2: Zone)
    requires GoodGoal(g) && GoodZone(g, z) && AfterDeletes(g, z, z1) && StaleSlots(g, z, changed)
    requires Replaced(z1, OldRecords(z, changed), NewRecords(g, changed), z2)
    ensures AfterUpdates(g, z, z2)
  {
    var olds, news := OldRecords(z, changed), NewRecords(g, changed);
    forall k
      ensures Lookup(z2, k) ==
              if Renewed(g, z, k) then Some(NewRR(g, Slot(k)).ttl)
              else if Deleted(g, z, k) || Stale(g, z, k) then None
              else Lookup(z, k)
    {
      NewIsRenewed(g, z, changed, k);
      OldIsStale(g, z, changed, k);
      assert Lookup(z1, k) == if Deleted(g, z, k) then None else Lookup(z, k);
    }
  }

  lemma NewIsRenewed(g: Goal, z: Zone, changed: seq<string>, k: RRKey)
    requires GoodGoal(g) && GoodZone(g, z) && StaleSlots(g, z, changed)
    ensures var news := NewRecords(g, changed);
            Renewed(g, z, k) <==>
              exists i :: 0 <= i < |news| && news[i].key == k && news[i].ttl == NewRR(g, Slot(k)).ttl
    ensures !Renewed(g, z, k) ==> forall i :: 0 <= i < |NewRecords(g, changed)| ==> NewRecords(g, changed)[i].key != k
  {
    var news := NewRecords(g, changed);
    if Renewed(g, z, k) {
      assert Slot(k) in changed;
      var i :| 0 <= i < |changed| && changed[i] == Slot(k);
      assert news[i].key == k;
    }
    forall i | 0 <= i < |news| && news[i].key == k ensures Renewed(g, z, k) {
      StalePair(g, z, changed[i]);
    }
  }

  lemma OldIsStale(g: Goal, z: Zone, changed: seq<string>, k: RRKey)
    requires GoodGoal(g) && GoodZone(g, z) && StaleSlots(g, z, changed)
    ensures k in OldRecords(z, changed) <==> Stale(g, z, k)
  {
    if k in OldRecords(z, changed) { OldRecordIsStale(g, z, changed, k); }
    if Stale(g, z, k) { StaleIsOld(g, z, changed, k); }
  }

  lemma OldRecordIsStale(g: Goal, z: Zone, changed: seq<string>, k: RRKey)
    requires GoodGoal(g) && GoodZone(g, z) && StaleSlots(g, z, changed) && k in OldRecords(z, changed)
    ensures Stale(g, z, k)
  {
    var olds := OldRecords(z, changed);
    var i :| 0 <= i < |olds| && olds[i] == k;
    assert changed[i] in changed;
    StalePair(g, z, changed[i]);
  }

  lemma StaleIsOld(g: Goal, z: Zone, changed: seq<string>, k: RRKey)
    requires GoodZone(g, z) && StaleSlots(g, z, changed) && Stale(g, z, k)
    ensures k in OldRecords(z, changed)
  {
    StaleHolder(g, z, k);
    assert Slot(k) in changed;
    var i :| 0 <= i < |changed| && changed[i] == Slot(k);
    assert OldRecords(z, changed)[i] == k;
  }

  /** A record found after the updates continues one of the old zone; at an owned name it is desired, at any
      other name it is that very record. */
  lemma Origin(g: Goal, z: Zone, z2: Zone, k: RRKey) returns (o: RRKey)
    requires GoodGoal(g) && GoodZone(g, z) && AfterUpdates(g, z, z2) && k in z2 && IsRecord(k)
    ensures o in z && IsRecord(o) && Slot(o) == Slot(k) && o.name == k.name
    ensures if Owned(g.owner, z, NameOf(k)) then Slot(k) in g.want else o == k
  {
    assert Lookup(z2, k) != None;
    if Renewed(g, z, k) {
      o :| Stale(g, z, o) && Slot(o) == Slot(k);
      SlotInjective(o, k);
      WantFacts(g, Slot(k));
      SameName(o, k);
    } else {
      o := k;
    }
  }

  lemma UnownedStays(g: Goal, z: Zone, z2: Zone, k: RRKey)
    requires GoodGoal(g) && GoodZone(g, z) && AfterUpdates(g, z, z2)
    requires k in z && IsRecord(k) && !Owned(g.owner, z, NameOf(k))
    ensures Lookup(z2, k) == Lookup(z, k)
  {
    if Deleted(g, z, k) { DeletedFacts(g, z, k); }
    if Renewed(g, z, k) {
      var o :| Stale(g, z, o) && Slot(o) == Slot(k);
      SlotInjective(o, k);
    }
  }

  lemma CnameSlot(k: RRKey, k': RRKey)
    requires k.name == k'.name && k.data.CNAME? && k'.data.CNAME?
    ensures Slot(k) == Slot(k')
  {
  }

  lemma MissingCnameAbsent(g: Goal, z: Zone, z2: Zone, s: string)
    requires GoodGoal(g) && GoodZone(g, z) && AfterUpdates(g, z, z2) && Missing(g, z, s) &&
             g.want[s].recordType == TYPE_CNAME
    ensures !HasCname(z2, NewRR(g, s).key.name) && !HasCname(z, NewRR(g, s).key.name)
  {
    WantFacts(g, s);
    forall r: RRKey | r.name == NewRR(g, s).key.name && r.data.CNAME? ensures r !in z && r !in z2 {
      CnameSlot(r, NewRR(g, s).key);
      assert !Has(z, Slot(r));
      if r in z2 { var o := Origin(g, z, z2, r); }
    }
  }

  lemma VisibleAfterUpdates(g: Goal, z: Zone, z2: Zone, s: string, r: RRKey)
    requires GoodGoal(g) && GoodZone(g, z) && AfterUpdates(g, z, z2) && s in g.want &&
             g.want[s].recordType == TYPE_CNAME
    requires r in z2 && r.name == Fqdn(g.want[s].dnsName)
    ensures IsRecord(r)
  {
    assert Lookup(z2, r) != None;
  }

  /** A desired CNAME is refused only where an unowned name already has something. */
  lemma CnameRefused(g: Goal, z: Zone, z2: Zone, s: string)
    requires GoodGoal(g) && GoodZone(g, z) && AfterUpdates(g, z, z2) && Missing(g, z, s) &&
             g.want[s].recordType == TYPE_CNAME
    requires HasNonCname(z2, NewRR(g, s).key.name)
    ensures !Owned(g.owner, z, g.want[s].dnsName) && !Free(z, NewRR(g, s).key)
  {
    var k := NewRR(g, s).key;
    WantFacts(g, s);
    var r :| r in z2 && r.name == k.name && !r.data.CNAME?;
    VisibleAfterUpdates(g, z, z2, s, r);
    var o := Origin(g, z, z2, r);
    if Slot(r) in g.want { WantAtSlot(g, r); }
  }

  lemma CnameRefusal(g: Goal, z: Zone, z2: Zone, s: string)
    requires GoodGoal(g) && GoodZone(g, z) && AfterUpdates(g, z, z2) && Missing(g, z, s) &&
             g.want[s].recordType == TYPE_CNAME
    ensures var k := NewRR(g, s).key; HasNonCname(z2, k.name) <==> !Owned(g.owner, z, g.want[s].dnsName) && !Free(z, k)
  {
    var k := NewRR(g, s).key;
    WantFacts(g, s);
    if HasNonCname(z2, k.name) { CnameRefused(g, z, z2, s); }
    if !Owned(g.owner, z, g.want[s].dnsName) && !Free(z, k) {
      var r :| r in z && r.name == k.name;
      MissingCnameAbsent(g, z, z2, s);
      UnownedStays(g, z, z2, r);
      assert r in z2;
    }
  }

  /** A desired record of another type is refused exactly beside a CNAME at an unowned name. */
  lemma OtherRefusal(g: Goal, z: Zone, z2: Zone, s: string)
    requires GoodGoal(g) && GoodZone(g, z) && AfterUpdates(g, z, z2) && Missing(g, z, s) &&
             g.want[s].recordType != TYPE_CNAME
    ensures var k := NewRR(g, s).key; HasCname(z2, k.name) <==> !Owned(g.owner, z, g.want[s].dnsName) && !Free(z, k)
  {
    var k := NewRR(g, s).key;
    WantFacts(g, s);
    if HasCname(z2, k.name) {
      var r :| r in z2 && r.name == k.name && r.data.CNAME?;
      var o := Origin(g, z, z2, r);
      SlotInjective(o, r);
      if Slot(r) in g.want { WantAtSlot(g, r); }
    }
    if !Owned(g.owner, z, g.want[s].dnsName) && !Free(z, k) {
      var r :| r in z && r.name == k.name && r.data.CNAME?;
      UnownedStays(g, z, z2, r);
      assert r in z2;
    }
  }

  lemma RecordRefusal(g: Goal, z: Zone, z2: Zone, s: string)
    requires GoodGoal(g) && GoodZone(g, z) && AfterUpdates(g, z, z2) && Missing(g, z, s)
    ensures var k := NewRR(g, s).key; Refused(z2, k) <==> !Owned(g.owner, z, g.want[s].dnsName) && !Free(z, k)
  {
    WantFacts(g, s);
    if g.want[s].recordType == TYPE_CNAME { CnameRefusal(g, z, z2, s); } else { OtherRefusal(g, z, z2, s); }
  }

  lemma MarkerNotRefused(g: Goal, z: Zone, z2: Zone, s: string)
    requires GoodGoal(g) && GoodZone(g, z) && AfterUpdates(g, z, z2) && s in g.want
    ensures !Refused(z2, MarkerKey(g.owner, g.want[s].dnsName))
  {
    WantFacts(g, s);
    MarkerKeyFacts(g.owner, g.want[s].dnsName);
    if HasCname(z2, MarkerKey(g.owner, g.want[s].dnsName).name) {
      var r :| r in z2 && r.name == MarkerKey(g.owner, g.want[s].dnsName).name && r.data.CNAME?;
      var o := Origin(g, z, z2, r);
      SlotInjective(o, r);
      assert HasCname(z, r.name);
    }
  }

  lemma AddedFacts(g: Goal, z: Zone, s: string, op: Op)
    requires GoodGoal(g) && Added(g, z, s, op)
    ensures IsRecord(op.key) ==> op == Insert(NewRR(g, s).key, NewRR(g, s).ttl) && Slot(op.key) == s
    ensures !IsRecord(op.key) ==>
            op == Insert(MarkerKey(g.owner, g.want[s].dnsName), WrittenTTL(g.cfg, OWNER_TTL)) && IsMarker(op.key)
    ensures NameOf(op.key) == if IsRecord(op.key) then g.want[s].dnsName else OwnershipName(g.want[s].dnsName)
    ensures op.key.data.CNAME? ==> IsRecord(op.key) && g.want[s].recordType == TYPE_CNAME
  {
    WantFacts(g, s);
    MarkerKeyFacts(g.owner, g.want[s].dnsName);
  }

  lemma AddedCompatible(g: Goal, z: Zone, s: string, a: Op, t: string, b: Op)
    requires GoodGoal(g) && Added(g, z, s, a) && Added(g, z, t, b)
    ensures Compatible(a, b)
  {
    AddedFacts(g, z, s, a);
    AddedFacts(g, z, t, b);
    if a.key.name == b.key.name {
      if IsRecord(a.key) && IsRecord(b.key) {
        assert g.want[s].dnsName == g.want[t].dnsName;
      } else if !IsRecord(a.key) && !IsRecord(b.key) {
        assert OwnershipName(g.want[s].dnsName)[|OWNER_PREFIX|..] == g.want[s].dnsName;
        assert OwnershipName(g.want[t].dnsName)[|OWNER_PREFIX|..] == g.want[t].dnsName;
      }
    }
  }

  ghost predicate AddsExactly(g: Goal, z: Zone, ops: seq<Op>) {
    forall op :: op in ops <==> exists s :: Added(g, z, s, op)
  }

  lemma CreatePhase(g: Goal, z: Zone, desired: seq<Endpoint>, rrs: seq<RR>, p: Changes)
    requires PlanOf(g, z, desired, rrs, p)
    ensures AddsExactly(g, z, CreateOps(g.cfg, p.create))
  {
    var _ := PlanMeaning(g.owner, desired, ReadAll(g.cfg, rrs), p);
    forall op ensures op in CreateOps(g.cfg, p.create) <==> exists s :: Added(g, z, s, op) {
      CreatesInMessage(g, z, rrs, p.create, op);
    }
  }

  lemma CreatesInsertable(g: Goal, z: Zone, z2: Zone, ops: seq<Op>)
    requires GoodGoal(g) && GoodZone(g, z) && AfterUpdates(g, z, z2) && AddsExactly(g, z, ops)
    ensures Insertable(z2, ops)
  {
    forall op | op in ops ensures op.Insert? && (op.key.data.CNAME? ==> !HasCname(z2, op.key.name)) {
      var s :| Added(g, z, s, op);
      AddedFacts(g, z, s, op);
      if op.key.data.CNAME? { MissingCnameAbsent(g, z, z2, s); }
    }
    forall a, b | a in ops && b in ops ensures Compatible(a, b) {
      var s :| Added(g, z, s, a);
      var t :| Added(g, z, t, b);
      AddedCompatible(g, z, s, a, t, b);
    }
  }

  // ----- the whole message -----

  lemma RecordAfterCreates(g: Goal, z: Zone, z2: Zone, ops: seq<Op>, z3: Zone, k: RRKey)
    requires GoodGoal(g) && GoodZone(g, z) && AfterUpdates(g, z, z2) && AddsExactly(g, z, ops) &&
             Landed(z2, ops, z3) && IsRecord(k)
    ensures Lookup(z3, k) ==
      if IsWanted(g, k) && !Has(z, Slot(k)) &&
          (Owned(g.owner, z, NameOf(k)) || Free(z, k)) then Some(NewRR(g, Slot(k)).ttl)
      else Lookup(z2, k)
  {
    if IsWanted(g, k) && !Has(z, Slot(k)) {
      MissingRecordLands(g, z, z2, ops, k);
      if Refused(z2, k) {
        forall ttl: nat ensures !Lands(z2, ops, k, ttl) {}
      }
    } else {
      forall ttl: nat ensures !Lands(z2, ops, k, ttl) { OtherRecordMissesLanding(g, z, ops, k, ttl); }
    }
  }

  /** A missing desired record is inserted, and refused exactly at a name that is neither ours nor free. */
  lemma MissingRecordLands(g: Goal, z: Zone, z2: Zone, ops: seq<Op>, k: RRKey)
    requires GoodGoal(g) && GoodZone(g, z) && AfterUpdates(g, z, z2) && AddsExactly(g, z, ops)
    requires IsRecord(k) && IsWanted(g, k) && !Has(z, Slot(k))
    ensures Refused(z2, k) <==> !(Owned(g.owner, z, NameOf(k)) || Free(z, k))
    ensures !Refused(z2, k) ==> Lands(z2, ops, k, NewRR(g, Slot(k)).ttl)
  {
    WantAtSlot(g, k);
    assert Added(g, z, Slot(k), Insert(k, NewRR(g, Slot(k)).ttl));
    RecordRefusal(g, z, z2, Slot(k));
  }

  lemma OtherRecordMissesLanding(g: Goal, z: Zone, ops: seq<Op>, k: RRKey, ttl: nat)
    requires GoodGoal(g) && AddsExactly(g, z, ops) && IsRecord(k) && !(IsWanted(g, k) && !Has(z, Slot(k)))
    ensures Insert(k, ttl) !in ops
  {
    if Insert(k, ttl) in ops {
      var s :| Added(g, z, s, Insert(k, ttl));
      AddedFacts(g, z, s, Insert(k, ttl));
    }
  }

  lemma RecordCase(g: Goal, z: Zone, z2: Zone, k: RRKey)
    requires GoodGoal(g) && GoodZone(g, z) && AfterUpdates(g, z, z2) && IsRecord(k)
    requires !(IsWanted(g, k) && !Has(z, Slot(k)) && (Owned(g.owner, z, NameOf(k)) || Free(z, k)))
    ensures Lookup(z2, k) == After(g, z, k)
  {
    if !Owned(g.owner, z, NameOf(k)) {
      if k in z { UnownedStays(g, z, z2, k); }
      assert !Renewed(g, z, k) by {
        if Renewed(g, z, k) {
          var o :| Stale(g, z, o) && Slot(o) == Slot(k);
          SlotInjective(o, k);
        }
      }
    } else {
      OwnedRecordCase(g, z, z2, k);
    }
  }

  lemma SameReadSameKey(g: Goal, z: Zone, k: RRKey)
    requires GoodGoal(g) && GoodZone(g, z) && k in z && IsRecord(k) && Owned(g.owner, z, NameOf(k))
    requires Slot(k) in g.want && SameRecord(Read(g.cfg, k, z[k]), g.want[Slot(k)])
    ensures IsWanted(g, k)
  {
    var ep, want := Read(g.cfg, k, z[k]), g.want[Slot(k)];
    WantAtSlot(g, k);
    WantFacts(g, Slot(k));
    RecordRoundTrip(g.cfg, k, z[k]);
    SingletonTargets(ep.targets, want.targets);
    SlotInjective(k, KeyOf(g.cfg, want));
  }

  lemma SingletonTargets(a: seq<string>, b: seq<string>)
    requires |a| == 1 && multiset(a) == multiset(b)
    ensures a == b
  {
    assert |multiset(a)| == 1 && |multiset(b)| == |b|;
    assert a[0] in multiset(b);
  }

  lemma OwnedRecordCase(g: Goal, z: Zone, z2: Zone, k: RRKey)
    requires GoodGoal(g) && GoodZone(g, z) && AfterUpdates(g, z, z2) && IsRecord(k) && Owned(g.owner, z, NameOf(k))
    requires !(IsWanted(g, k) && !Has(z, Slot(k)))
    ensures Lookup(z2, k) == After(g, z, k)
  {
    if IsWanted(g, k) {
      var o :| o in z && IsRecord(o) && Slot(o) == Slot(k);
      SlotInjective(o, k);
      WantAtSlot(g, k);
      if SameRecord(Read(g.cfg, o, z[o]), g.want[Slot(k)]) {
        SameReadSameKey(g, z, o);
        assert o == k;
        OwnedFreshStays(g, z, z2, k);
      } else {
        assert Stale(g, z, o);
        assert o == k || k !in z;
        assert Renewed(g, z, k);
      }
    } else if k in z {
      if Slot(k) in g.want {
        if SameRecord(Read(g.cfg, k, z[k]), g.want[Slot(k)]) { SameReadSameKey(g, z, k); }
        assert Stale(g, z, k);
      } else {
        assert Dropped(g, z, k);
      }
    }
  }

  lemma OwnedFreshStays(g: Goal, z: Zone, z2: Zone, k: RRKey)
    requires GoodGoal(g) && GoodZone(g, z) && AfterUpdates(g, z, z2) && k in z && IsRecord(k) &&
             Owned(g.owner, z, NameOf(k))
    requires Slot(k) in g.want && SameRecord(Read(g.cfg, k, z[k]), g.want[Slot(k)])
    ensures Lookup(z2, k) == Lookup(z, k)
  {
    if Deleted(g, z, k) { DeletedFacts(g, z, k); }
    forall o | Slot(o) == Slot(k) ensures !Stale(g, z, o) {
      SlotInjective(o, k);
      assert o in z && IsRecord(o) ==> o == k;
    }
  }

  /** `k` is our marker, and a record is created at the name it marks. */
  ghost predicate CreatedMarker(g: Goal, z: Zone, k: RRKey) {
    IsMarker(k) && k == MarkerKey(g.owner, NameOf(k)[|OWNER_PREFIX|..]) && CreatesAt(g, z, NameOf(k)[|OWNER_PREFIX|..])
  }

  lemma CreatedMarkerLands(g: Goal, z: Zone, z2: Zone, ops: seq<Op>, k: RRKey)
    requires GoodGoal(g) && GoodZone(g, z) && AfterUpdates(g, z, z2) && AddsExactly(g, z, ops) && CreatedMarker(g, z, k)
    ensures Lands(z2, ops, k, WrittenTTL(g.cfg, OWNER_TTL))
  {
    var s :| Missing(g, z, s) && g.want[s].dnsName == NameOf(k)[|OWNER_PREFIX|..];
    assert Added(g, z, s, Insert(k, WrittenTTL(g.cfg, OWNER_TTL)));
    MarkerNotRefused(g, z, z2, s);
  }

  lemma MarkerAfterCreates(g: Goal, z: Zone, z2: Zone, ops: seq<Op>, z3: Zone, k: RRKey)
    requires GoodGoal(g) && AddsExactly(g, z, ops) && Landed(z2, ops, z3) && !IsRecord(k)
    requires CreatedMarker(g, z, k) ==> Lands(z2, ops, k, WrittenTTL(g.cfg, OWNER_TTL))
    ensures Lookup(z3, k) == if CreatedMarker(g, z, k) then Some(WrittenTTL(g.cfg, OWNER_TTL)) else Lookup(z2, k)
  {
    if !CreatedMarker(g, z, k) {
      forall ttl: nat ensures !Lands(z2, ops, k, ttl) {
        if Insert(k, ttl) in ops { InsertedMarker(g, z, ops, k, ttl); }
      }
    }
  }

  lemma OtherCase(g: Goal, z: Zone, z2: Zone, ops: seq<Op>, z3: Zone, k: RRKey)
    requires GoodGoal(g) && GoodZone(g, z) && AfterUpdates(g, z, z2) && AddsExactly(g, z, ops) &&
             Landed(z2, ops, z3) && !IsRecord(k)
    ensures Lookup(z3, k) == After(g, z, k)
  {
    if CreatedMarker(g, z, k) { CreatedMarkerLands(g, z, z2, ops, k); }
    MarkerAfterCreates(g, z, z2, ops, z3, k);
    MarkerDeleted(g, z, k);
    assert !Renewed(g, z, k) && !Stale(g, z, k);
    assert Lookup(z2, k) == if Deleted(g, z, k) then None else Lookup(z, k);
  }

  lemma InsertedMarker(g: Goal, z: Zone, ops: seq<Op>, k: RRKey, ttl: nat)
    requires GoodGoal(g) && AddsExactly(g, z, ops) && !IsRecord(k) && Insert(k, ttl) in ops
    ensures IsMarker(k)
    ensures var n := NameOf(k)[|OWNER_PREFIX|..]; k == MarkerKey(g.owner, n) && CreatesAt(g, z, n)
  {
    var s :| Added(g, z, s, Insert(k, ttl));
    AddedFacts(g, z, s, Insert(k, ttl));
    WantFacts(g, s);
    MarkerKeyFacts(g.owner, g.want[s].dnsName);
    assert CreatesAt(g, z, g.want[s].dnsName);
  }

  lemma MarkerDeleted(g: Goal, z: Zone, k: RRKey)
    requires GoodGoal(g) && GoodZone(g, z) && !IsRecord(k)
    ensures Deleted(g, z, k) <==>
            IsMarker(k) && k == MarkerKey(g.owner, NameOf(k)[|OWNER_PREFIX|..]) &&
            DropsAt(g, z, NameOf(k)[|OWNER_PREFIX|..])
  {
    if Deleted(g, z, k) {
      DeletedFacts(g, z, k);
      var n :| DropsAt(g, z, n) && k == MarkerKey(g.owner, n) && n != "" && !EndsWithDot(n);
      MarkerKeyFacts(g.owner, n);
    }
  }

  /** One cycle, for every transfer order and every plan `Calculate` may return, is `NextZone`. */
  lemma CycleIsNextZone(g: Goal, z: Zone, desired: seq<Endpoint>, rrs: seq<RR>, p: Changes)
    requires PlanOf(g, z, desired, rrs, p)
    ensures Run(z, Message(g.cfg, p)) == NextZone(g, z)
  {
    var dels, upds, adds := DeleteOps(g.cfg, p.delete), UpdateOps(g.cfg, p.updateOld, p.updateNew),
        CreateOps(g.cfg, p.create);
    var z1 := Run(z, dels);
    var z2 := Run(z1, upds);
    var z3 := Run(z2, adds);
    RunConcat(z, dels, upds);
    RunConcat(z, dels + upds, adds);
    DeletePhase(g, z, desired, rrs, p);
    var changed := UpdatesInMessage(g, z, desired, rrs, p);
    UpdatesReplace(g, z, z1, changed);
    RunReplacements(z1, OldRecords(z, changed), NewRecords(g, changed));
    UpdatePhase(g, z, z1, changed, z2);
    CreatePhase(g, z, desired, rrs, p);
    CreatesInsertable(g, z, z2, adds);
    RunInsertions(z2, adds);
    forall k ensures Lookup(z3, k) == Lookup(NextZone(g, z), k) {
      NextZoneLookup(g, z, k);
      FinalCase(g, z, z2, adds, z3, k);
    }
    SameLookupsSameZone(z3, NextZone(g, z));
  }

  lemma FinalCase(g: Goal, z: Zone, z2: Zone, ops: seq<Op>, z3: Zone, k: RRKey)
    requires GoodGoal(g) && GoodZone(g, z) && AfterUpdates(g, z, z2) && AddsExactly(g, z, ops) && Landed(z2, ops, z3)
    ensures Lookup(z3, k) == After(g, z, k)
  {
    if IsRecord(k) {
      RecordAfterCreates(g, z, z2, ops, z3, k);
      if !(IsWanted(g, k) && !Has(z, Slot(k)) && (Owned(g.owner, z, NameOf(k)) || Free(z, k))) {
        RecordCase(g, z, z2, k);
      }
    } else {
      OtherCase(g, z, z2, ops, z3, k);
    }
  }
}
