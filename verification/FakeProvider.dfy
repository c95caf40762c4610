/** The in-memory provider (pkg/provider/fake/fake.go), and how far it agrees with a zone. */
module FakeProvider {
  import opened Text
  import opened Endpoints
  import opened Dns
  import opened Provider
  import opened Plan
  import opened Cycle
  import opened CycleLaws
  import opened Refinement
  import opened Convergence

  type Store = map<string, Endpoint>

  function PutAll(m: Store, eps: seq<Endpoint>): Store {
    if eps == [] then m else PutAll(m, eps[..|eps| - 1])[EpKey(eps[|eps| - 1]) := eps[|eps| - 1]]
  }

  function ReplaceAll(m: Store, olds: seq<Endpoint>, news: seq<Endpoint>): Store {
    if olds == [] then m
    else
      var n := |olds| - 1;
      var removed := ReplaceAll(m, olds[..n], news) - {EpKey(olds[n])};
      if n < |news| then removed[EpKey(news[n]) := news[n]] else removed
  }

  function RemoveAll(m: Store, eps: seq<Endpoint>): Store {
    if eps == [] then m else RemoveAll(m, eps[..|eps| - 1]) - {EpKey(eps[|eps| - 1])}
  }

  /** Creates, then updates, then deletes: the opposite of the message order of the RFC 2136 provider. */
  function Applied(m: Store, c: Changes): Store {
    RemoveAll(ReplaceAll(PutAll(m, c.create), c.updateOld, c.updateNew), c.delete)
  }

  function Replay(m: Store, history: seq<Changes>): Store {
    if history == [] then m else Applied(Replay(m, history[..|history| - 1]), history[|history| - 1])
  }

  class Memory {
    var records: Store
    var history: seq<Changes>
    ghost const start: Store

    /** The store is always the replay of its history from the initial records. */
    ghost predicate Valid()
      reads this
    {
      records == Replay(start, history)
    }

    constructor (initial: seq<Endpoint>)
      ensures Valid() && start == Index(initial) && history == []
    {
      var idx := IndexEndpoints(initial);
      records := idx;
      history := [];
      start := idx;
    }

    /** Every stored endpoint once, in any order. */
    method Records() returns (out: seq<Endpoint>)
      ensures |out| == |records| && Lists(out, records)
    {
      out := [];
      var todo := records.Keys;
      ghost var done: set<string> := {};
      while todo != {}
        invariant todo <= records.Keys && done == records.Keys - todo && |out| == |done|
        invariant forall ep :: ep in out <==> exists s :: s in done && records[s] == ep
      {
        var s :| s in todo;
        out := out + [records[s]];
        todo := todo - {s};
        done := done + {s};
      }
    }

    method ApplyChanges(c: Changes)
      requires Valid()
      modifies this
      ensures Valid()
      ensures records == Applied(old(records), c) && history == old(history) + [c]
    {
      for i := 0 to |c.create|
        invariant records == PutAll(old(records), c.create[..i]) && history == old(history)
      {
        assert c.create[..i + 1][..i] == c.create[..i];
        records := records[EpKey(c.create[i]) := c.create[i]];
      }
      assert c.create[..|c.create|] == c.create;
      ghost var created := records;
      for i := 0 to |c.updateOld|
        invariant records == ReplaceAll(created, c.updateOld[..i], c.updateNew) && history == old(history)
      {
        assert c.updateOld[..i + 1][..i] == c.updateOld[..i];
        records := records - {EpKey(c.updateOld[i])};
        if i < |c.updateNew| { records := records[EpKey(c.updateNew[i]) := c.updateNew[i]]; }
      }
      assert c.updateOld[..|c.updateOld|] == c.updateOld;
      ghost var updated := records;
      for i := 0 to |c.delete|
        invariant records == RemoveAll(updated, c.delete[..i]) && history == old(history)
      {
        assert c.delete[..i + 1][..i] == c.delete[..i];
        records := records - {EpKey(c.delete[i])};
      }
      assert c.delete[..|c.delete|] == c.delete;
      history := history + [c];
      assert history[..|history| - 1] == old(history);
    }
  }

  // ----- the store after a change set, key by key -----

  function Get(m: Store, s: string): Option<Endpoint> { if s in m then Some(m[s]) else None }

  ghost predicate KeyIn(eps: seq<Endpoint>, s: string) {
    exists ep :: ep in eps && EpKey(ep) == s
  }

  /** Of several creates with one key the last wins. */
  lemma {:induction false} PutAllGet(m: Store, eps: seq<Endpoint>, s: string)
    ensures Get(PutAll(m, eps), s) == if s in Index(eps) then Some(Index(eps)[s]) else Get(m, s)
  {
    if eps != [] { PutAllGet(m, eps[..|eps| - 1], s); }
  }

  lemma {:induction false} RemoveAllGet(m: Store, eps: seq<Endpoint>, s: string)
    ensures Get(RemoveAll(m, eps), s) == if KeyIn(eps, s) then None else Get(m, s)
  {
    if eps != [] {
      var n := |eps| - 1;
      RemoveAllGet(m, eps[..n], s);
      assert eps == eps[..n] + [eps[n]];
    }
  }

  /** Update pair `i` removes or stores something under `s`. */
  predicate Touches(olds: seq<Endpoint>, news: seq<Endpoint>, s: string, i: nat)
    requires i < |olds|
  {
    EpKey(olds[i]) == s || (i < |news| && EpKey(news[i]) == s)
  }

  /** The last of the first `n` update pairs that touches the key. */
  function LastTouch(olds: seq<Endpoint>, news: seq<Endpoint>, s: string, n: nat): (r: Option<nat>)
    requires n <= |olds|
    ensures match r
            case None => forall i :: 0 <= i < n ==> !Touches(olds, news, s, i)
            case Some(i) => i < n && Touches(olds, news, s, i) && forall j :: i < j < n ==> !Touches(olds, news, s, j)
  {
    if n == 0 then None
    else if Touches(olds, news, s, n - 1) then Some(n - 1)
    else LastTouch(olds, news, s, n - 1)
  }

  lemma {:induction false} ReplaceFirst(m: Store, olds: seq<Endpoint>, news: seq<Endpoint>, s: string, n: nat)
    requires n <= |olds|
    ensures Get(ReplaceAll(m, olds[..n], news), s) ==
            match LastTouch(olds, news, s, n)
            case None => Get(m, s)
            case Some(i) => if i < |news| && EpKey(news[i]) == s then Some(news[i]) else None
  {
    if n > 0 {
      ReplaceFirst(m, olds, news, s, n - 1);
      assert olds[..n][..n - 1] == olds[..n - 1];
      assert olds[..n][n - 1] == olds[n - 1];
    }
  }

  /** The last pair that touches a key decides: its new endpoint is stored, or the key is gone. */
  lemma ReplaceAllGet(m: Store, olds: seq<Endpoint>, news: seq<Endpoint>, s: string)
    ensures Get(ReplaceAll(m, olds, news), s) ==
            match LastTouch(olds, news, s, |olds|)
            case None => Get(m, s)
            case Some(i) => if i < |news| && EpKey(news[i]) == s then Some(news[i]) else None
  {
    ReplaceFirst(m, olds, news, s, |olds|);
    assert olds[..|olds|] == olds;
  }

  /** Pairs that replace each key by itself, each key once. */
  lemma ReplaceInPlace(m: Store, olds: seq<Endpoint>, news: seq<Endpoint>, keys: seq<string>, s: string)
    requires |olds| == |keys| <= |news| && Distinct(keys)
    requires forall i :: 0 <= i < |olds| ==> EpKey(olds[i]) == keys[i] && EpKey(news[i]) == keys[i]
    ensures s !in keys ==> Get(ReplaceAll(m, olds, news), s) == Get(m, s)
    ensures forall i :: 0 <= i < |keys| && keys[i] == s ==> Get(ReplaceAll(m, olds, news), s) == Some(news[i])
  {
    ReplaceAllGet(m, olds, news, s);
    forall i | 0 <= i < |keys| && keys[i] == s ensures LastTouch(olds, news, s, |olds|) == Some(i) {
      assert Touches(olds, news, s, i);
    }
  }

  // ----- a store that mirrors a zone -----

  function MarkerSlot(n: string): string { OwnershipName(n) + "|" + TYPE_TXT }

  /** Endpoints are stored under their own keys, and every marker among them is ours. */
  ghost predicate SingleOwner(g: Goal, st: Store) {
    forall s :: s in st ==> EpKey(st[s]) == s && (IsOwnershipTXT(st[s]) ==> OwnershipValue(g.owner) in st[s].targets)
  }

  ghost predicate RecordsAgree(g: Goal, st: Store, z: Zone) {
    && (forall k :: k in z && IsRecord(k) ==> Get(st, Slot(k)) == Some(Read(g.cfg, k, z[k])))
    && (forall s :: s in st && !IsOwnershipTXT(st[s]) ==> Has(z, s))
  }

  ghost predicate MarkersAgree(g: Goal, st: Store, z: Zone) {
    forall n :: MarkerSlot(n) in st <==> Owned(g.owner, z, n)
  }

  ghost predicate Mirrors(g: Goal, st: Store, z: Zone) {
    SingleOwner(g, st) && RecordsAgree(g, st, z) && MarkersAgree(g, st, z)
  }

  /** The server refuses to create the record of this slot: the name is not ours and is occupied. */
  ghost predicate RefusedCreate(g: Goal, z: Zone, s: string) {
    Missing(g, z, s) && !Owned(g.owner, z, g.want[s].dnsName) && !Free(z, KeyOf(g.cfg, g.want[s]))
  }

  ghost predicate Replaces(g: Goal, z: Zone, n: string) {
    CreatesAt(g, z, n) && DropsAt(g, z, n)
  }

  lemma MarkerSlotInjective(n: string, n': string)
    requires MarkerSlot(n) == MarkerSlot(n')
    ensures n == n'
  {
    EpKeyInjective(OwnershipName(n), TYPE_TXT, OwnershipName(n'), TYPE_TXT);
    assert n == OwnershipName(n)[|OWNER_PREFIX|..] && n' == OwnershipName(n')[|OWNER_PREFIX|..];
  }

  lemma RecordSlotIsNoMarkerSlot(k: RRKey, n: string)
    requires IsRecord(k)
    ensures Slot(k) != MarkerSlot(n)
  {
    if Slot(k) == MarkerSlot(n) {
      TypesHaveNoBar(k.data);
      EpKeyInjective(NameOf(k), TypeOf(k.data), OwnershipName(n), TYPE_TXT);
    }
  }

  lemma OwnershipSlot(ep: Endpoint)
    requires IsOwnershipTXT(ep)
    ensures EpKey(ep) == MarkerSlot(ep.dnsName[|OWNER_PREFIX|..])
  {
    assert ep.dnsName == OwnershipName(ep.dnsName[|OWNER_PREFIX|..]);
  }

  lemma WantIsNoMarkerSlot(g: Goal, s: string, n: string)
    requires GoodGoal(g) && s in g.want
    ensures s != MarkerSlot(n)
  {
    WantFacts(g, s);
    RecordSlotIsNoMarkerSlot(KeyOf(g.cfg, g.want[s]), n);
  }

  // ----- which keys a plan touches -----

  lemma CreatedKeys(g: Goal, z: Zone, desired: seq<Endpoint>, rrs: seq<RR>, p: Changes, ep: Endpoint)
    returns (s: string)
    requires PlanOf(g, z, desired, rrs, p) && ep in p.create
    ensures Missing(g, z, s)
    ensures (ep == g.want[s] && EpKey(ep) == s) ||
            (ep == OwnershipTXT(g.owner, g.want[s].dnsName) && EpKey(ep) == MarkerSlot(g.want[s].dnsName))
  {
    var _ := PlanMeaning(g.owner, desired, ReadAll(g.cfg, rrs), p);
    s :| s in g.want && s !in CurrentIndex(ReadAll(g.cfg, rrs)) &&
        (ep == g.want[s] || ep == OwnershipTXT(g.owner, g.want[s].dnsName));
    SlotsSeen(g, z, rrs, s);
  }

  lemma MissingIsCreated(g: Goal, z: Zone, desired: seq<Endpoint>, rrs: seq<RR>, p: Changes, s: string)
    requires PlanOf(g, z, desired, rrs, p) && Missing(g, z, s)
    ensures g.want[s] in p.create && OwnershipTXT(g.owner, g.want[s].dnsName) in p.create
  {
    var _ := PlanMeaning(g.owner, desired, ReadAll(g.cfg, rrs), p);
    SlotsSeen(g, z, rrs, s);
  }

  lemma CreatedOncePerKey(g: Goal, z: Zone, desired: seq<Endpoint>, rrs: seq<RR>, p: Changes, a: Endpoint, b: Endpoint)
    requires PlanOf(g, z, desired, rrs, p) && a in p.create && b in p.create && EpKey(a) == EpKey(b)
    ensures a == b
  {
    var s := CreatedKeys(g, z, desired, rrs, p, a);
    var s' := CreatedKeys(g, z, desired, rrs, p, b);
    WantIsNoMarkerSlot(g, s, g.want[s'].dnsName);
    WantIsNoMarkerSlot(g, s', g.want[s].dnsName);
    if MarkerSlot(g.want[s].dnsName) == MarkerSlot(g.want[s'].dnsName) {
      MarkerSlotInjective(g.want[s].dnsName, g.want[s'].dnsName);
    }
  }

  lemma DeletedKeys(g: Goal, z: Zone, desired: seq<Endpoint>, rrs: seq<RR>, p: Changes, ep: Endpoint) returns (k: RRKey)
    requires PlanOf(g, z, desired, rrs, p) && ep in p.delete
    ensures Dropped(g, z, k) && (EpKey(ep) == Slot(k) || EpKey(ep) == MarkerSlot(NameOf(k)))
  {
    var current := ReadAll(g.cfg, rrs);
    var _ := PlanMeaning(g.owner, desired, current, p);
    var c := CurrentIndex(current);
    var s :| s in c && s !in g.want && c[s].dnsName in OwnedNames(g.owner, current) &&
        (ep == c[s] || ep == OwnershipTXT(g.owner, c[s].dnsName));
    k := SlotHolder(g, z, rrs, s);
    OwnershipSeen(g, z, rrs, c[s].dnsName);
    ReadMarks(g, k, z[k], "");
  }

  lemma DroppedIsDeleted(g: Goal, z: Zone, desired: seq<Endpoint>, rrs: seq<RR>, p: Changes, k: RRKey)
    requires PlanOf(g, z, desired, rrs, p) && Dropped(g, z, k)
    ensures KeyIn(p.delete, Slot(k)) && KeyIn(p.delete, MarkerSlot(NameOf(k)))
  {
    var _ := PlanMeaning(g.owner, desired, ReadAll(g.cfg, rrs), p);
    DroppedIsPlanned(g, z, rrs, k);
    ReadMarks(g, k, z[k], "");
    var a, b := Read(g.cfg, k, z[k]), OwnershipTXT(g.owner, NameOf(k));
    assert a in p.delete && b in p.delete && EpKey(b) == MarkerSlot(NameOf(k));
  }

  ghost predicate DroppedSlot(g: Goal, z: Zone, s: string) {
    exists k :: Dropped(g, z, k) && Slot(k) == s
  }

  lemma DeletesRecordSlot(g: Goal, z: Zone, desired: seq<Endpoint>, rrs: seq<RR>, p: Changes, k: RRKey)
    requires PlanOf(g, z, desired, rrs, p) && IsRecord(k)
    ensures KeyIn(p.delete, Slot(k)) <==> DroppedSlot(g, z, Slot(k))
  {
    if ep :| ep in p.delete && EpKey(ep) == Slot(k) {
      var o := DeletedKeys(g, z, desired, rrs, p, ep);
      RecordSlotIsNoMarkerSlot(k, NameOf(o));
    }
    if o :| Dropped(g, z, o) && Slot(o) == Slot(k) { DroppedIsDeleted(g, z, desired, rrs, p, o); }
  }

  lemma DeletesMarkerSlot(g: Goal, z: Zone, desired: seq<Endpoint>, rrs: seq<RR>, p: Changes, n: string)
    requires PlanOf(g, z, desired, rrs, p)
    ensures KeyIn(p.delete, MarkerSlot(n)) <==> DropsAt(g, z, n)
  {
    if ep :| ep in p.delete && EpKey(ep) == MarkerSlot(n) {
      var o := DeletedKeys(g, z, desired, rrs, p, ep);
      RecordSlotIsNoMarkerSlot(o, n);
      MarkerSlotInjective(n, NameOf(o));
    }
    if o :| Dropped(g, z, o) && NameOf(o) == n { DroppedIsDeleted(g, z, desired, rrs, p, o); }
  }

  lemma CreatesRecordSlot(g: Goal, z: Zone, desired: seq<Endpoint>, rrs: seq<RR>, p: Changes, st: Store, k: RRKey)
    requires PlanOf(g, z, desired, rrs, p) && IsRecord(k)
    ensures Get(PutAll(st, p.create), Slot(k)) ==
            if Missing(g, z, Slot(k)) then Some(g.want[Slot(k)]) else Get(st, Slot(k))
  {
    PutAllGet(st, p.create, Slot(k));
    InIndex(p.create, Slot(k));
    if Missing(g, z, Slot(k)) {
      MissingIsCreated(g, z, desired, rrs, p, Slot(k));
      CreatedOncePerKey(g, z, desired, rrs, p, Index(p.create)[Slot(k)], g.want[Slot(k)]);
    } else if ep :| ep in p.create && EpKey(ep) == Slot(k) {
      var s := CreatedKeys(g, z, desired, rrs, p, ep);
      RecordSlotIsNoMarkerSlot(k, g.want[s].dnsName);
    }
  }

  lemma CreatesMarkerSlot(g: Goal, z: Zone, desired: seq<Endpoint>, rrs: seq<RR>, p: Changes, st: Store, n: string)
    requires PlanOf(g, z, desired, rrs, p)
    ensures Get(PutAll(st, p.create), MarkerSlot(n)) ==
            if CreatesAt(g, z, n) then Some(OwnershipTXT(g.owner, n)) else Get(st, MarkerSlot(n))
  {
    PutAllGet(st, p.create, MarkerSlot(n));
    InIndex(p.create, MarkerSlot(n));
    if CreatesAt(g, z, n) {
      var s :| Missing(g, z, s) && g.want[s].dnsName == n;
      MissingIsCreated(g, z, desired, rrs, p, s);
      CreatedOncePerKey(g, z, desired, rrs, p, Index(p.create)[MarkerSlot(n)], OwnershipTXT(g.owner, n));
    } else if ep :| ep in p.create && EpKey(ep) == MarkerSlot(n) {
      var s := CreatedKeys(g, z, desired, rrs, p, ep);
      WantIsNoMarkerSlot(g, s, n);
      MarkerSlotInjective(n, g.want[s].dnsName);
    }
  }

  lemma UpdatesSlot(g: Goal, z: Zone, desired: seq<Endpoint>, rrs: seq<RR>, p: Changes, m: Store, s: string)
    requires PlanOf(g, z, desired, rrs, p)
    ensures Get(ReplaceAll(m, p.updateOld, p.updateNew), s) == if StaleSlot(g, z, s) then Some(g.want[s]) else Get(m, s)
  {
    var current := ReadAll(g.cfg, rrs);
    var c := CurrentIndex(current);
    var changed := PlanMeaning(g.owner, desired, current, p);
    OutdatedIsStale(g, z, rrs, s);
    forall i | 0 <= i < |changed| ensures EpKey(p.updateOld[i]) == changed[i] && EpKey(p.updateNew[i]) == changed[i] {
      assert changed[i] in changed;
      var k := SlotHolder(g, z, rrs, changed[i]);
      ReadMarks(g, k, z[k], "");
    }
    ReplaceInPlace(m, p.updateOld, p.updateNew, changed, s);
  }

  // ----- the store after a planned cycle -----

  lemma RecordSlotAfter(g: Goal, z: Zone, desired: seq<Endpoint>, rrs: seq<RR>, p: Changes, st: Store, k: RRKey)
    requires PlanOf(g, z, desired, rrs, p) && IsRecord(k)
    ensures Get(Applied(st, p), Slot(k)) ==
            if DroppedSlot(g, z, Slot(k)) then None
            else if StaleSlot(g, z, Slot(k)) || Missing(g, z, Slot(k)) then Some(g.want[Slot(k)])
            else Get(st, Slot(k))
  {
    var m := PutAll(st, p.create);
    CreatesRecordSlot(g, z, desired, rrs, p, st, k);
    UpdatesSlot(g, z, desired, rrs, p, m, Slot(k));
    RemoveAllGet(ReplaceAll(m, p.updateOld, p.updateNew), p.delete, Slot(k));
    DeletesRecordSlot(g, z, desired, rrs, p, k);
  }

  lemma MarkerSlotAfter(g: Goal, z: Zone, desired: seq<Endpoint>, rrs: seq<RR>, p: Changes, st: Store, n: string)
    requires PlanOf(g, z, desired, rrs, p)
    ensures Get(Applied(st, p), MarkerSlot(n)) ==
            if DropsAt(g, z, n) then None
            else if CreatesAt(g, z, n) then Some(OwnershipTXT(g.owner, n))
            else Get(st, MarkerSlot(n))
  {
    var m := PutAll(st, p.create);
    CreatesMarkerSlot(g, z, desired, rrs, p, st, n);
    UpdatesSlot(g, z, desired, rrs, p, m, MarkerSlot(n));
    RemoveAllGet(ReplaceAll(m, p.updateOld, p.updateNew), p.delete, MarkerSlot(n));
    DeletesMarkerSlot(g, z, desired, rrs, p, n);
    if StaleSlot(g, z, MarkerSlot(n)) {
      var k :| Stale(g, z, k) && Slot(k) == MarkerSlot(n);
      RecordSlotIsNoMarkerSlot(k, n);
    }
  }

  lemma OwnedSlotAgrees(g: Goal, z: Zone, desired: seq<Endpoint>, rrs: seq<RR>, p: Changes, st: Store, k: RRKey)
    requires PlanOf(g, z, desired, rrs, p) && Mirrors(g, st, z) && IsRecord(k) && Owned(g.owner, z, NameOf(k))
    ensures Get(Applied(st, p), Slot(k)) == if Slot(k) in g.want then Some(g.want[Slot(k)]) else None
  {
    RecordSlotAfter(g, z, desired, rrs, p, st, k);
    if Has(z, Slot(k)) {
      var o :| o in z && IsRecord(o) && Slot(o) == Slot(k);
      SlotInjective(o, k);
      if Slot(k) !in g.want {
        assert Dropped(g, z, o);
      } else if !StaleSlot(g, z, Slot(k)) {
        assert !Stale(g, z, o);
        SameMeansEqual(g, z, o);
      }
    } else if Slot(k) in st && Slot(k) !in g.want {
      StoredInRecordSlot(g, st, z, k);
    }
  }

  /** What a mirror stores in the slot of a record is a record of the zone. */
  lemma StoredInRecordSlot(g: Goal, st: Store, z: Zone, k: RRKey)
    requires Mirrors(g, st, z) && IsRecord(k) && Slot(k) in st
    ensures !IsOwnershipTXT(st[Slot(k)]) && Has(z, Slot(k))
  {
    var ep := st[Slot(k)];
    if IsOwnershipTXT(ep) {
      OwnershipSlot(ep);
      RecordSlotIsNoMarkerSlot(k, ep.dnsName[|OWNER_PREFIX|..]);
    }
  }

  lemma StoredInMarkerSlot(g: Goal, st: Store, z: Zone, n: string)
    requires Mirrors(g, st, z) && MarkerSlot(n) in st
    ensures IsOwnershipTXT(st[MarkerSlot(n)])
  {
    if !IsOwnershipTXT(st[MarkerSlot(n)]) {
      var k :| k in z && IsRecord(k) && Slot(k) == MarkerSlot(n);
      RecordSlotIsNoMarkerSlot(k, n);
    }
  }

  lemma UnownedSlotAgrees(g: Goal, z: Zone, desired: seq<Endpoint>, rrs: seq<RR>, p: Changes, st: Store, k: RRKey)
    requires PlanOf(g, z, desired, rrs, p) && IsRecord(k) && !Owned(g.owner, z, NameOf(k))
    ensures Get(Applied(st, p), Slot(k)) == if Missing(g, z, Slot(k)) then Some(g.want[Slot(k)]) else Get(st, Slot(k))
  {
    RecordSlotAfter(g, z, desired, rrs, p, st, k);
    forall o | Slot(o) == Slot(k) ensures !Dropped(g, z, o) && !Stale(g, z, o) { SlotInjective(o, k); }
  }

  /** Every record of the next zone is in the store. */
  lemma NextRecordStored(g: Goal, z: Zone, desired: seq<Endpoint>, rrs: seq<RR>, p: Changes, st: Store, k: RRKey)
    requires PlanOf(g, z, desired, rrs, p) && Mirrors(g, st, z) && IsRecord(k) && k in NextZone(g, z)
    ensures Get(Applied(st, p), Slot(k)) == Some(Read(g.cfg, k, NextZone(g, z)[k]))
  {
    RecordAfter(g, z, k);
    if Owned(g.owner, z, NameOf(k)) {
      OwnedSlotAgrees(g, z, desired, rrs, p, st, k);
      OwnedNameBecomesDesired(g, z, NameOf(k));
    } else {
      UnownedSlotAgrees(g, z, desired, rrs, p, st, k);
      UnownedNameIsKept(g, z, NameOf(k));
      if k in z { assert Has(z, Slot(k)); }
    }
  }

  /** A stored slot is in the next zone unless the server refused to create its record. */
  lemma StoredSlotInNext(g: Goal, z: Zone, desired: seq<Endpoint>, rrs: seq<RR>, p: Changes, st: Store, k: RRKey)
    requires PlanOf(g, z, desired, rrs, p) && Mirrors(g, st, z) && IsRecord(k) && Slot(k) in Applied(st, p)
    ensures !IsOwnershipTXT(Applied(st, p)[Slot(k)])
    ensures Has(NextZone(g, z), Slot(k)) <==> !RefusedCreate(g, z, Slot(k))
  {
    var s, n := Slot(k), NameOf(k);
    if s in st { StoredInRecordSlot(g, st, z, k); }
    if s in g.want { WantAtSlot(g, k); }
    if Owned(g.owner, z, n) {
      OwnedSlotAgrees(g, z, desired, rrs, p, st, k);
      OwnedNameBecomesDesired(g, z, n);
    } else {
      UnownedSlotAgrees(g, z, desired, rrs, p, st, k);
      UnownedSlotNext(g, z, k);
    }
  }

  lemma UnownedSlotNext(g: Goal, z: Zone, k: RRKey)
    requires GoodGoal(g) && GoodZone(g, z) && IsRecord(k) && !Owned(g.owner, z, NameOf(k))
    ensures Has(NextZone(g, z), Slot(k)) <==>
            Has(z, Slot(k)) || (Missing(g, z, Slot(k)) && !RefusedCreate(g, z, Slot(k)))
  {
    var s := Slot(k);
    if s in g.want { WantAtSlot(g, k); WantFacts(g, s); }
    if Has(NextZone(g, z), s) {
      var o :| o in NextZone(g, z) && IsRecord(o) && Slot(o) == s;
      SlotInjective(o, k);
      RecordAfter(g, z, o);
    }
    if Has(z, s) {
      var o :| o in z && IsRecord(o) && Slot(o) == s;
      SlotInjective(o, k);
      RecordAfter(g, z, o);
    } else if Missing(g, z, s) && !RefusedCreate(g, z, s) {
      RecordAfter(g, z, KeyOf(g.cfg, g.want[s]));
    }
  }

  lemma RefusedIsStored(g: Goal, z: Zone, desired: seq<Endpoint>, rrs: seq<RR>, p: Changes, st: Store, s: string)
    requires PlanOf(g, z, desired, rrs, p) && Mirrors(g, st, z) && RefusedCreate(g, z, s)
    ensures s in Applied(st, p) && !IsOwnershipTXT(Applied(st, p)[s]) && !Has(NextZone(g, z), s)
  {
    WantFacts(g, s);
    var k := KeyOf(g.cfg, g.want[s]);
    UnownedSlotAgrees(g, z, desired, rrs, p, st, k);
    StoredSlotInNext(g, z, desired, rrs, p, st, k);
  }

  /** Every key of the new store is the slot of a record or of a marker. */
  lemma StoredKinds(g: Goal, z: Zone, desired: seq<Endpoint>, rrs: seq<RR>, p: Changes, st: Store, s: string)
    requires PlanOf(g, z, desired, rrs, p) && Mirrors(g, st, z) && s in Applied(st, p)
    ensures (exists n :: s == MarkerSlot(n)) || (exists k :: IsRecord(k) && Slot(k) == s)
  {
    if s in st {
      if IsOwnershipTXT(st[s]) { OwnershipSlot(st[s]); }
    } else if s in g.want {
      WantFacts(g, s);
    } else {
      var m := PutAll(st, p.create);
      RemoveAllGet(ReplaceAll(m, p.updateOld, p.updateNew), p.delete, s);
      UpdatesSlot(g, z, desired, rrs, p, m, s);
      PutAllGet(st, p.create, s);
      InIndex(p.create, s);
      var ep :| ep in p.create && EpKey(ep) == s;
      var _ := CreatedKeys(g, z, desired, rrs, p, ep);
    }
  }

  lemma SingleOwnerKept(g: Goal, z: Zone, desired: seq<Endpoint>, rrs: seq<RR>, p: Changes, st: Store)
    requires PlanOf(g, z, desired, rrs, p) && Mirrors(g, st, z)
    ensures SingleOwner(g, Applied(st, p))
  {
    var st' := Applied(st, p);
    forall s | s in st'
      ensures EpKey(st'[s]) == s && (IsOwnershipTXT(st'[s]) ==> OwnershipValue(g.owner) in st'[s].targets)
    {
      StoredKinds(g, z, desired, rrs, p, st, s);
      if n :| s == MarkerSlot(n) {
        MarkerSlotAfter(g, z, desired, rrs, p, st, n);
      } else {
        var k :| IsRecord(k) && Slot(k) == s;
        RecordSlotAfter(g, z, desired, rrs, p, st, k);
      }
    }
  }

  lemma StoredIsHeld(g: Goal, z: Zone, desired: seq<Endpoint>, rrs: seq<RR>, p: Changes, st: Store, s: string)
    requires PlanOf(g, z, desired, rrs, p) && Mirrors(g, st, z)
    requires s in Applied(st, p) && !IsOwnershipTXT(Applied(st, p)[s])
    ensures Has(NextZone(g, z), s) || RefusedCreate(g, z, s)
  {
    StoredKinds(g, z, desired, rrs, p, st, s);
    if n :| s == MarkerSlot(n) {
      MarkerSlotAfter(g, z, desired, rrs, p, st, n);
      StoredInMarkerSlot(g, st, z, n);
    } else {
      var k :| IsRecord(k) && Slot(k) == s;
      StoredSlotInNext(g, z, desired, rrs, p, st, k);
    }
  }

  /** The same plan applied to a mirror and to the zone: the records agree again exactly when the server refused
      none of the creates. */
  lemma StoreRecordsAgree(g: Goal, z: Zone, desired: seq<Endpoint>, rrs: seq<RR>, p: Changes, st: Store)
    requires PlanOf(g, z, desired, rrs, p) && Mirrors(g, st, z)
    ensures RecordsAgree(g, Applied(st, p), NextZone(g, z)) <==> forall s :: !RefusedCreate(g, z, s)
  {
    var st', z' := Applied(st, p), NextZone(g, z);
    forall k | k in z' && IsRecord(k) ensures Get(st', Slot(k)) == Some(Read(g.cfg, k, z'[k])) {
      NextRecordStored(g, z, desired, rrs, p, st, k);
    }
    forall s | s in st' && !IsOwnershipTXT(st'[s]) ensures Has(z', s) || RefusedCreate(g, z, s) {
      StoredIsHeld(g, z, desired, rrs, p, st, s);
    }
    if s :| RefusedCreate(g, z, s) { RefusedIsStored(g, z, desired, rrs, p, st, s); }
  }

  /** The store deletes last, so it loses the marker of a name at which one type replaces another; everywhere else
      the markers agree. */
  lemma StoreMarkers(g: Goal, z: Zone, desired: seq<Endpoint>, rrs: seq<RR>, p: Changes, st: Store, n: string)
    requires PlanOf(g, z, desired, rrs, p) && Mirrors(g, st, z)
    ensures MarkerSlot(n) in Applied(st, p) <==> Owned(g.owner, NextZone(g, z), n) && !Replaces(g, z, n)
    ensures Replaces(g, z, n) ==> Owned(g.owner, NextZone(g, z), n)
  {
    MarkerSlotAfter(g, z, desired, rrs, p, st, n);
    OwnershipLaw(g, z, n);
  }

  /** The store mirrors the zone again exactly when nothing was refused and no name had both a create and a delete. */
  lemma StoreTracksZone(g: Goal, z: Zone, desired: seq<Endpoint>, rrs: seq<RR>, p: Changes, st: Store)
    requires PlanOf(g, z, desired, rrs, p) && Mirrors(g, st, z)
    ensures Mirrors(g, Applied(st, p), NextZone(g, z)) <==>
            (forall s :: !RefusedCreate(g, z, s)) && (forall n :: !Replaces(g, z, n))
  {
    SingleOwnerKept(g, z, desired, rrs, p, st);
    StoreRecordsAgree(g, z, desired, rrs, p, st);
    forall n ensures MarkerSlot(n) in Applied(st, p) <==> Owned(g.owner, NextZone(g, z), n) && !Replaces(g, z, n) {
      StoreMarkers(g, z, desired, rrs, p, st, n);
    }
    if n :| Replaces(g, z, n) {
      StoreMarkers(g, z, desired, rrs, p, st, n);
      assert !MarkersAgree(g, Applied(st, p), NextZone(g, z));
    }
  }

  // ----- the store and the zone give the same plans -----

  ghost predicate Lists(eps: seq<Endpoint>, st: Store) {
    forall ep :: ep in eps <==> exists s :: s in st && st[s] == ep
  }

  lemma StoreOwnership(g: Goal, z: Zone, rrs: seq<RR>, st: Store, eps: seq<Endpoint>)
    requires Mirrors(g, st, z) && Transfer(z, rrs) && Lists(eps, st)
    ensures OwnedNames(g.owner, eps) == OwnedNames(g.owner, ReadAll(g.cfg, rrs))
  {
    forall n ensures OwnedIn(g.owner, eps, n) <==> OwnedIn(g.owner, ReadAll(g.cfg, rrs), n) {
      OwnershipSeen(g, z, rrs, n);
      if OwnedIn(g.owner, eps, n) {
        var ep :| ep in eps && Marks(g.owner, ep, n);
        OwnershipSlot(ep);
        assert MarkerSlot(n) in st;
      }
      if Owned(g.owner, z, n) {
        var ep := st[MarkerSlot(n)];
        StoredInMarkerSlot(g, st, z, n);
        OwnershipSlot(ep);
        MarkerSlotInjective(n, ep.dnsName[|OWNER_PREFIX|..]);
        assert Marks(g.owner, ep, n);
      }
    }
  }

  lemma StoreIndex(g: Goal, z: Zone, rrs: seq<RR>, st: Store, eps: seq<Endpoint>)
    requires Mirrors(g, st, z) && Transfer(z, rrs) && Lists(eps, st)
    ensures CurrentIndex(eps) == CurrentIndex(ReadAll(g.cfg, rrs))
  {
    var a, b := CurrentIndex(eps), CurrentIndex(ReadAll(g.cfg, rrs));
    forall s ensures Get(a, s) == Get(b, s) { StoreIndexAt(g, z, rrs, st, eps, s); }
    assert a.Keys == b.Keys by {
      forall s ensures s in a <==> s in b { assert Get(a, s) == Get(b, s); }
    }
    forall s | s in a ensures a[s] == b[s] { assert Get(a, s) == Get(b, s); }
  }

  lemma StoreIndexAt(g: Goal, z: Zone, rrs: seq<RR>, st: Store, eps: seq<Endpoint>, s: string)
    requires Mirrors(g, st, z) && Transfer(z, rrs) && Lists(eps, st)
    ensures Get(CurrentIndex(eps), s) == Get(CurrentIndex(ReadAll(g.cfg, rrs)), s)
  {
    var kept := WithoutOwnership(eps);
    InIndex(kept, s);
    SlotsSeen(g, z, rrs, s);
    if s in Index(kept) {
      InWithoutOwnership(eps, Index(kept)[s]);
      assert st[s] == Index(kept)[s];
    }
    if Has(z, s) {
      var k := SlotHolder(g, z, rrs, s);
      StoredInRecordSlot(g, st, z, k);
      InWithoutOwnership(eps, st[s]);
    }
  }

  /** A mirror's own records lead `Calculate` to the same plans as the zone's transfer. */
  lemma StorePlans(g: Goal, z: Zone, desired: seq<Endpoint>, rrs: seq<RR>, st: Store, eps: seq<Endpoint>, p: Changes)
    requires Mirrors(g, st, z) && Transfer(z, rrs) && Lists(eps, st)
    ensures IsPlan(g.owner, desired, eps, p) <==> IsPlan(g.owner, desired, ReadAll(g.cfg, rrs), p)
  {
    StoreOwnership(g, z, rrs, st, eps);
    StoreIndex(g, z, rrs, st, eps);
  }
}
