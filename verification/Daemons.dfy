/** Several daemons on one zone.  Each fetches, plans and applies in separate steps, interleaved in any way; an
    apply may fail with or without having taken effect. */
module Daemons {
  import opened Text
  import opened Endpoints
  import opened Dns
  import opened Provider
  import opened Plan
  import opened Cycle
  import opened CycleLaws
  import opened Refinement
  import opened Locality

  /** A daemon and the names it may be asked to manage. */
  datatype Daemon = Daemon(cfg: Config, owner: string, names: iset<string>)

  datatype Phase =
    | Idle
    | Fetched(snapshot: Zone, rrs: seq<RR>)
    | Planned(snapshot: Zone, rrs: seq<RR>, desired: seq<Endpoint>, changes: Changes)

  datatype State = State(zone: Zone, phases: seq<Phase>)

  // ----- territories -----

  /** The name without its owner prefixes. */
  function Base(x: string): string
    decreases |x|
  {
    if |OWNER_PREFIX| > 0 && OWNER_PREFIX <= x then Base(x[|OWNER_PREFIX|..]) else x
  }

  lemma BaseOfMarker(x: string)
    ensures Base(OWNER_PREFIX + x) == Base(x)
  {
    assert (OWNER_PREFIX + x)[|OWNER_PREFIX|..] == x;
  }

  /** The names of a daemon with their markers, markers of markers, and so on. */
  ghost function Territory(d: Daemon): iset<string> {
    iset x: string | exists n :: n in d.names && Base(x) == Base(Fqdn(n))
  }

  lemma TerritoryClosed(d: Daemon)
    ensures Closed(Territory(d))
  {
    forall x: string ensures x in Territory(d) <==> OWNER_PREFIX + x in Territory(d) { BaseOfMarker(x); }
  }

  lemma InTerritory(d: Daemon, n: string)
    requires n in d.names && n != "" && !EndsWithDot(n)
    ensures Fqdn(n) in Territory(d) && Fqdn(OwnershipName(n)) in Territory(d)
  {
    MarkerKeyFacts(d.owner, n);
    BaseOfMarker(Fqdn(n));
  }

  /** Distinct owner IDs, disjoint territories, proper names. */
  ghost predicate Separate(ds: seq<Daemon>) {
    && (forall i, j :: 0 <= i < j < |ds| ==> ds[i].owner != ds[j].owner)
    && (forall i, j, x :: 0 <= i < |ds| && 0 <= j < |ds| && i != j && x in Territory(ds[i]) ==> x !in Territory(ds[j]))
    && (forall i :: 0 <= i < |ds| ==> ProperNames(ds[i]))
  }

  // ----- steps -----

  function GoalOf(d: Daemon, desired: seq<Endpoint>): Goal {
    Goal(d.cfg, d.owner, Index(desired))
  }

  /** A desired set a daemon may be given: within its names, with types without a bar and CNAME targets a server takes,
      and no owner-prefixed TXT.  It need not be readable, unmixed or single-target. */
  ghost predicate Allowed(d: Daemon, desired: seq<Endpoint>) {
    WantsOwn(d, Index(desired)) && forall s :: s in Index(desired) ==> Acceptable(Index(desired)[s])
  }

  ghost predicate Acceptable(ep: Endpoint) {
    && '|' !in ep.recordType && !IsOwnershipTXT(ep)
    && (ep.recordType == TYPE_CNAME ==> forall t :: t in ep.targets ==> Legal(Fqdn(t)))
  }

  /** Sound goals are among them. */
  lemma GoodGoalAllowed(d: Daemon, desired: seq<Endpoint>)
    requires GoodGoal(GoalOf(d, desired)) && WantsOwn(d, Index(desired))
    ensures Allowed(d, desired)
  {
    var g := GoalOf(d, desired);
    forall s | s in g.want ensures Acceptable(g.want[s]) { CanonicalAcceptable(g.cfg, g.want[s]); }
  }

  lemma CanonicalAcceptable(cfg: Config, ep: Endpoint)
    requires Canonical(cfg, ep) && !IsOwnershipTXT(ep)
    ensures Acceptable(ep)
  {
    CanonicalWrites(cfg, ep);
    TypesHaveNoBar(KeyOf(cfg, ep).data);
    if ep.recordType == TYPE_CNAME {
      assert ToRData(cfg, TYPE_CNAME, ep.targets[0]) == Some(CNAME(Fqdn(ep.targets[0])));
      assert ep.targets == [ep.targets[0]];
    }
  }

  ghost predicate FetchStep(ds: seq<Daemon>, i: nat, s: State, s': State)
    requires i < |s.phases|
  {
    s.phases[i].Idle? && exists rrs :: Transfer(s.zone, rrs) && s' == s.(phases := s.phases[i := Fetched(s.zone, rrs)])
  }

  ghost predicate PlanStep(ds: seq<Daemon>, i: nat, s: State, s': State)
    requires i < |s.phases| && i < |ds|
  {
    var ph := s.phases[i];
    ph.Fetched? && exists desired, p ::
      && Allowed(ds[i], desired) && IsPlan(ds[i].owner, desired, ReadAll(ds[i].cfg, ph.rrs), p)
      && s' == s.(phases := s.phases[i := Planned(ph.snapshot, ph.rrs, desired, p)])
  }

  ghost predicate ApplyStep(ds: seq<Daemon>, i: nat, s: State, s': State)
    requires i < |s.phases| && i < |ds|
  {
    var ph := s.phases[i];
    ph.Planned? && s' == State(Run(s.zone, Message(ds[i].cfg, ph.changes)), s.phases[i := Idle])
  }

  /** A fetch, plan or apply that failed without effect. */
  ghost predicate GiveUpStep(ds: seq<Daemon>, i: nat, s: State, s': State)
    requires i < |s.phases|
  {
    s' == s.(phases := s.phases[i := Idle])
  }

  ghost predicate StepBy(ds: seq<Daemon>, i: nat, s: State, s': State) {
    && i < |ds| == |s.phases|
    && (FetchStep(ds, i, s, s') || PlanStep(ds, i, s, s') || ApplyStep(ds, i, s, s') || GiveUpStep(ds, i, s, s'))
  }

  /** No daemon ever waits for another: whatever the state, its next step is possible. */
  lemma NextStepExists(ds: seq<Daemon>, i: nat, s: State, desired: seq<Endpoint>) returns (s': State)
    requires i < |ds| == |s.phases| && Allowed(ds[i], desired)
    ensures match s.phases[i]
            case Idle => FetchStep(ds, i, s, s')
            case Fetched(_, _) => PlanStep(ds, i, s, s')
            case Planned(_, _, _, _) => ApplyStep(ds, i, s, s')
  {
    match s.phases[i]
    case Idle =>
      var rrs := TransferExists(s.zone);
      s' := s.(phases := s.phases[i := Fetched(s.zone, rrs)]);
    case Fetched(snap, rrs) =>
      var p := PlanExists(ds[i].owner, desired, ReadAll(ds[i].cfg, rrs));
      s' := s.(phases := s.phases[i := Planned(snap, rrs, desired, p)]);
    case Planned(_, _, _, changes) =>
      s' := State(Run(s.zone, Message(ds[i].cfg, changes)), s.phases[i := Idle]);
  }

  // ----- the invariant -----

  /** A daemon's markers are at its own names. */
  ghost predicate MarkersHome(d: Daemon, z: Zone) {
    forall n :: Owned(d.owner, z, n) ==> n in d.names
  }

  /** What a pending phase still knows: the zone at its names is as it was fetched, and a pending plan touches its
      own territory only and marks with its own value only. */
  ghost predicate PhaseOK(d: Daemon, z: Zone, ph: Phase) {
    match ph
    case Idle => true
    case Fetched(snap, rrs) => Transfer(snap, rrs) && WellFormed(snap) && MarkersHome(d, snap) &&
        AgreeOn(Territory(d), snap, z)
    case Planned(snap, rrs, desired, p) =>
      && Transfer(snap, rrs) && WellFormed(snap) && MarkersHome(d, snap) && AgreeOn(Territory(d), snap, z)
      && Allowed(d, desired) && IsPlan(d.owner, desired, ReadAll(d.cfg, rrs), p)
      && TouchesOnly(Territory(d), Message(d.cfg, p)) && WritesOwn(d, Message(d.cfg, p))
  }

  /** Every marker a message inserts or removes is this daemon's, at one of its names; what it inserts is legal. */
  ghost predicate WritesOwn(d: Daemon, ops: seq<Op>) {
    forall op :: op in ops ==> if op.Insert? then OwnKey(d, op.key) else IsMarker(op.key) ==> OwnMarker(d, op.key)
  }

  ghost predicate OwnMarker(d: Daemon, k: RRKey) {
    exists n :: n in d.names && k == MarkerKey(d.owner, n)
  }

  ghost predicate Nobodys(ds: seq<Daemon>, x: string) {
    forall i :: 0 <= i < |ds| ==> x !in Territory(ds[i])
  }

  ghost predicate Inv(ds: seq<Daemon>, start: Zone, s: State) {
    && |s.phases| == |ds| && WellFormed(s.zone)
    && (forall i :: 0 <= i < |ds| ==> MarkersHome(ds[i], s.zone) && PhaseOK(ds[i], s.zone, s.phases[i]))
    && (forall k: RRKey {:trigger Lookup(s.zone, k)} :: Nobodys(ds, k.name) ==> Lookup(s.zone, k) == Lookup(start, k))
  }

  ghost predicate Initial(ds: seq<Daemon>, s: State) {
    && |s.phases| == |ds| && (forall i :: 0 <= i < |ds| ==> s.phases[i].Idle? && MarkersHome(ds[i], s.zone))
    && WellFormed(s.zone)
  }

  // ----- planning -----

  ghost predicate OfName(d: Daemon, ep: Endpoint) {
    exists n :: n in d.names && (ep.dnsName == n || ep.dnsName == OwnershipName(n))
  }

  lemma DeletedName(d: Daemon, g: Goal, snap: Zone, rrs: seq<RR>, ep: Endpoint)
    requires g.cfg == d.cfg && g.owner == d.owner && Transfer(snap, rrs) && MarkersHome(d, snap)
    requires PlansDelete(g.owner, OwnedNames(g.owner, ReadAll(g.cfg, rrs)), g.want, CurrentIndex(ReadAll(g.cfg, rrs)),
             ep)
    ensures OfName(d, ep)
  {
    var c := CurrentIndex(ReadAll(g.cfg, rrs));
    var k :| k in c && k !in g.want && c[k].dnsName in OwnedNames(g.owner, ReadAll(g.cfg, rrs)) &&
        (ep == c[k] || ep == OwnershipTXT(g.owner, c[k].dnsName));
    OwnershipSeen(g, snap, rrs, c[k].dnsName);
    assert c[k].dnsName in d.names;
  }

  ghost predicate WantsOwn(d: Daemon, want: map<string, Endpoint>) {
    forall s :: s in want ==> want[s].dnsName in d.names
  }

  /** A created endpoint is desired, or is the marker of a desired name. */
  lemma CreatedSource(d: Daemon, want: map<string, Endpoint>, c: map<string, Endpoint>, ep: Endpoint)
    requires WantsOwn(d, want) && PlansCreate(d.owner, want, c, ep)
    ensures OfName(d, ep)
    ensures (exists s :: s in want && ep == want[s]) || (exists n :: n in d.names && ep == OwnershipTXT(d.owner, n))
  {
    var s :| s in want && s !in c && (ep == want[s] || ep == OwnershipTXT(d.owner, want[s].dnsName));
    assert want[s].dnsName in d.names;
  }

  lemma UpdatedNames(d: Daemon, g: Goal, snap: Zone, rrs: seq<RR>, changed: seq<string>, ep: Endpoint)
    requires WantsOwn(d, g.want) && Transfer(snap, rrs)
    requires forall s :: s in g.want ==> EpKey(g.want[s]) == s && Acceptable(g.want[s])
    requires forall s :: s in changed ==> s in g.want && s in CurrentIndex(ReadAll(g.cfg, rrs))
    requires ep in Pick(CurrentIndex(ReadAll(g.cfg, rrs)), changed)
    ensures OfName(d, ep)
  {
    var i :| 0 <= i < |changed| && ep == CurrentIndex(ReadAll(g.cfg, rrs))[changed[i]];
    assert changed[i] in changed;
    var k := SlotHolder(g, snap, rrs, changed[i]);
    TypesHaveNoBar(k.data);
    EpKeyInjective(NameOf(k), TypeOf(k.data), g.want[changed[i]].dnsName, g.want[changed[i]].recordType);
    assert ep.dnsName in d.names;
  }

  lemma PickedIsWanted(want: map<string, Endpoint>, changed: seq<string>, ep: Endpoint)
    requires (forall s :: s in changed ==> s in want) && ep in Pick(want, changed)
    ensures exists s :: s in want && ep == want[s]
  {
    var i :| 0 <= i < |changed| && ep == want[changed[i]];
    assert changed[i] in changed;
  }

  /** Everything a plan touches belongs to a name of the daemon. */
  lemma PlannedName(d: Daemon, snap: Zone, rrs: seq<RR>, desired: seq<Endpoint>, p: Changes, ep: Endpoint)
    requires Transfer(snap, rrs) && MarkersHome(d, snap) && Allowed(d, desired)
    requires IsPlan(d.owner, desired, ReadAll(d.cfg, rrs), p)
    requires ep in p.delete || ep in p.create || ep in p.updateOld || ep in p.updateNew
    ensures OfName(d, ep)
  {
    var g := GoalOf(d, desired);
    var changed := PlanMeaning(d.owner, desired, ReadAll(d.cfg, rrs), p);
    if ep in p.delete {
      DeletedName(d, g, snap, rrs, ep);
    } else if ep in p.create {
      CreatedSource(d, g.want, CurrentIndex(ReadAll(d.cfg, rrs)), ep);
    } else if ep in p.updateNew {
      PickedIsWanted(g.want, changed, ep);
    } else {
      forall s | s in g.want ensures EpKey(g.want[s]) == s { InIndex(desired, s); }
      UpdatedNames(d, g, snap, rrs, changed, ep);
    }
  }

  lemma PlanTouchesOwn(d: Daemon, snap: Zone, rrs: seq<RR>, desired: seq<Endpoint>, p: Changes)
    requires ProperNames(d) && Transfer(snap, rrs) && MarkersHome(d, snap) && Allowed(d, desired)
    requires IsPlan(d.owner, desired, ReadAll(d.cfg, rrs), p)
    ensures TouchesOnly(Territory(d), Message(d.cfg, p))
  {
    forall op | op in Message(d.cfg, p) ensures op.key.name in Territory(d) {
      var ep := MessageSource(d.cfg, p, op);
      YieldedName(d.cfg, ep, op.key);
      PlannedName(d, snap, rrs, desired, p, ep);
      var n :| n in d.names && (ep.dnsName == n || ep.dnsName == OwnershipName(n));
      InTerritory(d, n);
    }
  }

  lemma DesiredWrites(d: Daemon, desired: seq<Endpoint>, s: string, k: RRKey)
    requires ProperNames(d) && Allowed(d, desired) && s in Index(desired) && YieldsKey(d.cfg, Index(desired)[s], k)
    ensures Legal(k.name) && LegalData(k.data) && !IsMarker(k)
  {
    var ep := Index(desired)[s];
    YieldedName(d.cfg, ep, k);
    YieldedType(d.cfg, ep, k);
    TrimFqdn(ep.dnsName);
    if k.data.CNAME? { YieldedTarget(d.cfg, ep, k); }
  }

  lemma InsertedSource(d: Daemon, rrs: seq<RR>, desired: seq<Endpoint>, p: Changes, ep: Endpoint)
    requires Allowed(d, desired) && IsPlan(d.owner, desired, ReadAll(d.cfg, rrs), p) &&
             (ep in p.create || ep in p.updateNew)
    ensures (exists s :: s in Index(desired) && ep == Index(desired)[s]) ||
            (exists n :: n in d.names && ep == OwnershipTXT(d.owner, n))
  {
    var changed := PlanMeaning(d.owner, desired, ReadAll(d.cfg, rrs), p);
    if ep in p.create {
      CreatedSource(d, Index(desired), CurrentIndex(ReadAll(d.cfg, rrs)), ep);
    } else {
      PickedIsWanted(Index(desired), changed, ep);
    }
  }

  ghost predicate OwnKey(d: Daemon, k: RRKey) {
    Legal(k.name) && LegalData(k.data) && (IsMarker(k) ==> OwnMarker(d, k))
  }

  lemma InsertedIsOwn(d: Daemon, desired: seq<Endpoint>, ep: Endpoint, k: RRKey)
    requires Allowed(d, desired) && YieldsKey(d.cfg, ep, k)
    requires ProperNames(d)
    requires (exists s :: s in Index(desired) && ep == Index(desired)[s]) ||
             (exists n :: n in d.names && ep == OwnershipTXT(d.owner, n))
    ensures OwnKey(d, k)
  {
    if s :| s in Index(desired) && ep == Index(desired)[s] {
      DesiredWrites(d, desired, s, k);
    } else {
      var n :| n in d.names && ep == OwnershipTXT(d.owner, n);
      MarkerWrites(GoalOf(d, desired), n);
      MarkerKeyFacts(d.owner, n);
    }
  }

  ghost predicate ProperNames(d: Daemon) {
    forall n :: n in d.names ==> n != "" && !EndsWithDot(n)
  }

  lemma InsertOwn(d: Daemon, rrs: seq<RR>, desired: seq<Endpoint>, p: Changes, op: Op)
    requires ProperNames(d) && Allowed(d, desired) && IsPlan(d.owner, desired, ReadAll(d.cfg, rrs), p)
    requires op in Message(d.cfg, p) && op.Insert?
    ensures OwnKey(d, op.key)
  {
    var ep := MessageSource(d.cfg, p, op);
    InsertedSource(d, rrs, desired, p, ep);
    InsertedIsOwn(d, desired, ep, op.key);
  }

  lemma DeletedMarkerHome(d: Daemon, g: Goal, snap: Zone, rrs: seq<RR>, ep: Endpoint)
    requires g.cfg == d.cfg && g.owner == d.owner && Transfer(snap, rrs) && MarkersHome(d, snap)
    requires PlansDelete(g.owner, OwnedNames(g.owner, ReadAll(g.cfg, rrs)), g.want, CurrentIndex(ReadAll(g.cfg, rrs)),
             ep)
    ensures (exists k :: k in snap && IsRecord(k) && ep == Read(g.cfg, k, snap[k]))
         || (exists n :: n in d.names && ep == OwnershipTXT(d.owner, n))
  {
    var c := CurrentIndex(ReadAll(g.cfg, rrs));
    var s :| && s in c && s !in g.want && c[s].dnsName in OwnedNames(g.owner, ReadAll(g.cfg, rrs))
             && (ep == c[s] || ep == OwnershipTXT(g.owner, c[s].dnsName));
    OwnershipSeen(g, snap, rrs, c[s].dnsName);
    var k := SlotHolder(g, snap, rrs, s);
  }

  /** A removal comes from a record that the snapshot holds or from a marker of the daemon. */
  lemma RemovedSource(d: Daemon, snap: Zone, rrs: seq<RR>, desired: seq<Endpoint>, p: Changes, ep: Endpoint)
    requires Transfer(snap, rrs) && MarkersHome(d, snap) && IsPlan(d.owner, desired, ReadAll(d.cfg, rrs), p)
    requires ep in p.delete || ep in p.updateOld
    ensures (exists k :: k in snap && IsRecord(k) && ep == Read(d.cfg, k, snap[k]))
         || (exists n :: n in d.names && ep == OwnershipTXT(d.owner, n))
  {
    var g := GoalOf(d, desired);
    var changed := PlanMeaning(d.owner, desired, ReadAll(d.cfg, rrs), p);
    if ep in p.delete {
      DeletedMarkerHome(d, g, snap, rrs, ep);
    } else {
      var i :| 0 <= i < |changed| && ep == p.updateOld[i];
      assert changed[i] in changed;
      var k := SlotHolder(g, snap, rrs, changed[i]);
    }
  }

  lemma RemoveOwn(d: Daemon, snap: Zone, rrs: seq<RR>, desired: seq<Endpoint>, p: Changes, op: Op)
    requires Transfer(snap, rrs) && WellFormed(snap) && MarkersHome(d, snap)
    requires IsPlan(d.owner, desired, ReadAll(d.cfg, rrs), p) && op in Message(d.cfg, p) && op.Remove? &&
             IsMarker(op.key)
    ensures OwnMarker(d, op.key)
  {
    var ep := MessageSource(d.cfg, p, op);
    RemovedSource(d, snap, rrs, desired, p, ep);
    if k :| k in snap && IsRecord(k) && ep == Read(d.cfg, k, snap[k]) {
      RecordRemovesNoMarker(d.cfg, k, snap[k], op.key);
    } else {
      var n :| n in d.names && ep == OwnershipTXT(d.owner, n);
      MarkerWrites(GoalOf(d, desired), n);
    }
  }

  lemma PlanWritesOwn(d: Daemon, snap: Zone, rrs: seq<RR>, desired: seq<Endpoint>, p: Changes)
    requires Transfer(snap, rrs) && WellFormed(snap) && MarkersHome(d, snap)
    requires ProperNames(d) && Allowed(d, desired) && IsPlan(d.owner, desired, ReadAll(d.cfg, rrs), p)
    ensures WritesOwn(d, Message(d.cfg, p))
  {
    forall op | op in Message(d.cfg, p)
      ensures if op.Insert? then OwnKey(d, op.key) else IsMarker(op.key) ==> OwnMarker(d, op.key)
    {
      if op.Insert? {
        InsertOwn(d, rrs, desired, p, op);
      } else if IsMarker(op.key) {
        RemoveOwn(d, snap, rrs, desired, p, op);
      }
    }
  }

  // ----- applying -----

  lemma ValuesDiffer(a: string, b: string)
    requires OwnershipValue(a) == OwnershipValue(b)
    ensures a == b
  {
    assert OwnershipValue(a)[|OWNER_VALUE_PREFIX|..] == a;
    assert OwnershipValue(b)[|OWNER_VALUE_PREFIX|..] == b;
  }

  /** No daemon's apply puts any daemon's marker anywhere but home. */
  lemma ApplyKeepsMarkersHome(ds: seq<Daemon>, i: nat, j: nat, z: Zone, ops: seq<Op>)
    requires Separate(ds) && i < |ds| && j < |ds| && MarkersHome(ds[j], z) && WritesOwn(ds[i], ops)
    ensures MarkersHome(ds[j], Run(z, ops))
  {
    forall n | Owned(ds[j].owner, Run(z, ops), n) ensures n in ds[j].names {
      var k :| k in Run(z, ops) && Claims(ds[j].owner, k, n);
      if k in z {
        assert Owned(ds[j].owner, z, n);
      } else {
        RunSource(z, ops, k);
        assert OwnKey(ds[i], k);
        var m :| m in ds[i].names && k == MarkerKey(ds[i].owner, m);
        MarkerKeyFacts(ds[i].owner, m);
        ValuesDiffer(ds[i].owner, ds[j].owner);
        assert i == j;
        assert NameOf(k)[|OWNER_PREFIX|..] == n;
      }
    }
  }

  lemma OtherPhaseKept(ds: seq<Daemon>, i: nat, j: nat, z: Zone, ops: seq<Op>, ph: Phase)
    requires Separate(ds) && i < |ds| && j < |ds| && i != j && TouchesOnly(Territory(ds[i]), ops) &&
             PhaseOK(ds[j], z, ph)
    ensures PhaseOK(ds[j], Run(z, ops), ph)
  {
    RunIsLocal(Territory(ds[i]), z, z, ops);
    var z' := Run(z, ops);
    if !ph.Idle? {
      forall k: RRKey | k.name in Territory(ds[j]) ensures Lookup(ph.snapshot, k) == Lookup(z', k) {
        assert k.name !in Territory(ds[i]);
        assert Lookup(z', k) == Lookup(z, k);
      }
    }
  }

  lemma ApplyKeepsInv(ds: seq<Daemon>, start: Zone, i: nat, s: State, s': State)
    requires Separate(ds) && Inv(ds, start, s) && i < |ds| && ApplyStep(ds, i, s, s')
    ensures Inv(ds, start, s')
  {
    var ops := Message(ds[i].cfg, s.phases[i].changes);
    assert PhaseOK(ds[i], s.zone, s.phases[i]);
    RunKeepsWellFormed(s.zone, ops);
    forall j | 0 <= j < |ds| ensures MarkersHome(ds[j], s'.zone) && PhaseOK(ds[j], s'.zone, s'.phases[j]) {
      ApplyKeepsMarkersHome(ds, i, j, s.zone, ops);
      if j != i { OtherPhaseKept(ds, i, j, s.zone, ops, s.phases[j]); }
    }
    RunIsLocal(Territory(ds[i]), s.zone, s.zone, ops);
    forall k: RRKey | Nobodys(ds, k.name) ensures Lookup(s'.zone, k) == Lookup(start, k) {
      assert Lookup(s'.zone, k) == Lookup(s.zone, k);
    }
  }

  lemma StepKeepsInv(ds: seq<Daemon>, start: Zone, i: nat, s: State, s': State)
    requires Separate(ds) && Inv(ds, start, s) && StepBy(ds, i, s, s')
    ensures Inv(ds, start, s')
  {
    if ApplyStep(ds, i, s, s') {
      ApplyKeepsInv(ds, start, i, s, s');
    } else if PlanStep(ds, i, s, s') {
      PlanKeepsInv(ds, start, i, s, s');
    } else {
      assert s'.zone == s.zone;
    }
  }

  lemma PlanKeepsInv(ds: seq<Daemon>, start: Zone, i: nat, s: State, s': State)
    requires Separate(ds) && Inv(ds, start, s) && i < |ds| && PlanStep(ds, i, s, s')
    ensures Inv(ds, start, s')
  {
    var ph := s.phases[i];
    var desired, p :| Allowed(ds[i], desired) && IsPlan(ds[i].owner, desired, ReadAll(ds[i].cfg, ph.rrs), p)
      && s' == s.(phases := s.phases[i := Planned(ph.snapshot, ph.rrs, desired, p)]);
    assert PhaseOK(ds[i], s.zone, ph);
    PlanTouchesOwn(ds[i], ph.snapshot, ph.rrs, desired, p);
    PlanWritesOwn(ds[i], ph.snapshot, ph.rrs, desired, p);
    assert PhaseOK(ds[i], s'.zone, s'.phases[i]);
  }

  ghost predicate Execution(ds: seq<Daemon>, ss: seq<State>, who: seq<nat>) {
    && |ss| == |who| + 1 && Initial(ds, ss[0])
    && forall t :: 0 <= t < |who| ==> StepBy(ds, who[t], ss[t], ss[t + 1])
  }

  /** In every state of every interleaving: each pending plan touches only its daemon's names and marks with its
      own value, each snapshot still equals the zone at its daemon's names, markers are at home, and a record at
      nobody's name is as it was at the start. */
  lemma {:induction false} ExecutionSafe(ds: seq<Daemon>, ss: seq<State>, who: seq<nat>, t: nat)
    requires Separate(ds) && Execution(ds, ss, who) && t < |ss|
    ensures Inv(ds, ss[0].zone, ss[t])
  {
    if t > 0 {
      ExecutionSafe(ds, ss, who, t - 1);
      StepKeepsInv(ds, ss[0].zone, who[t - 1], ss[t - 1], ss[t]);
    }
  }

  // ----- every apply is an atomic cycle -----

  lemma QuietOutside(d: Daemon, g: Goal, z: Zone, k: RRKey)
    requires GoodGoal(g) && g.owner == d.owner && WantsOwn(d, g.want) && MarkersHome(d, z) && WellFormed(z)
    requires Legal(k.name) && k.name !in Territory(d)
    requires ProperNames(d)
    ensures After(g, z, k) == Lookup(z, k)
  {
    FqdnTrim(k.name);
    if IsRecord(k) {
      if NameOf(k) in d.names { InTerritory(d, NameOf(k)); }
      if IsWanted(g, k) { WantAtSlot(g, k); }
    } else if OurMarker(g, k) {
      var n := NameOf(k)[|OWNER_PREFIX|..];
      if n in d.names { InTerritory(d, n); }
    }
  }

  lemma AgreedMember(d: Daemon, y: Zone, z: Zone, k: RRKey)
    requires AgreeOn(Territory(d), y, z) && k.name in Territory(d)
    ensures k in y <==> k in z
  {
    assert Lookup(y, k) == Lookup(z, k);
  }

  lemma ManagedCarries(d: Daemon, g: Goal, snap: Zone, z: Zone, k: RRKey)
    requires g.owner == d.owner && WantsOwn(d, g.want) && NamesLegal(snap) && NamesLegal(z) && ProperNames(d)
    requires AgreeOn(Territory(d), snap, z) && MarkersHome(d, z) && k in z && Managed(g, z, NameOf(k))
    ensures k in snap && Managed(g, snap, NameOf(k))
  {
    TerritoryClosed(d);
    FqdnTrim(k.name);
    assert NameOf(k) in d.names;
    InTerritory(d, NameOf(k));
    AgreedMember(d, snap, z, k);
    OwnedIsLocal(g.owner, Territory(d), snap, z, NameOf(k));
  }

  lemma SingletonsCarry(d: Daemon, g: Goal, snap: Zone, z: Zone)
    requires g.owner == d.owner && WantsOwn(d, g.want) && NamesLegal(snap) && NamesLegal(z) && ProperNames(d)
    requires AgreeOn(Territory(d), snap, z) && MarkersHome(d, z) && Singletons(g, snap)
    ensures Singletons(g, z)
  {
    forall k, k' | k in z && k' in z && IsRecord(k) && IsRecord(k') && Slot(k) == Slot(k') && Managed(g, z, NameOf(k))
      ensures k == k'
    {
      SlotInjective(k, k');
      ManagedCarries(d, g, snap, z, k);
      ManagedCarries(d, g, snap, z, k');
    }
    forall k | k in z && IsRecord(k) && Managed(g, z, NameOf(k))
      ensures SingleString(k.data)
    {
      ManagedCarries(d, g, snap, z, k);
    }
  }

  lemma MarkersCarry(d: Daemon, g: Goal, snap: Zone, z: Zone)
    requires g.owner == d.owner && NamesLegal(z) && ProperNames(d)
    requires AgreeOn(Territory(d), snap, z) && MarkersHome(d, z) && MarkersSingle(g, snap)
    ensures MarkersSingle(g, z)
  {
    forall k, n | k in z && Claims(g.owner, k, n) ensures k.data.strings == [OwnershipValue(g.owner)] {
      assert Owned(g.owner, z, n);
      InTerritory(d, n);
      FqdnTrim(k.name);
      AgreedMember(d, snap, z, k);
    }
  }

  lemma NamesCarry(d: Daemon, g: Goal, snap: Zone, z: Zone)
    requires WantsOwn(d, g.want) && ProperNames(d) && AgreeOn(Territory(d), snap, z)
    requires CnameNamesVisible(g, snap) && MarkerNamesFree(g, snap)
    ensures CnameNamesVisible(g, z) && MarkerNamesFree(g, z)
  {
    forall s, k: RRKey | s in g.want &&
        (k.name == Fqdn(g.want[s].dnsName) || k.name == Fqdn(OwnershipName(g.want[s].dnsName)))
      ensures k in z <==> k in snap
    {
      InTerritory(d, g.want[s].dnsName);
      AgreedMember(d, snap, z, k);
    }
    forall s | s in g.want ensures !HasCname(z, Fqdn(OwnershipName(g.want[s].dnsName))) {
      assert !HasCname(snap, Fqdn(OwnershipName(g.want[s].dnsName)));
    }
  }

  /** The zone conditions concern a daemon's territory, so they carry over from its snapshot. */
  lemma GoodCarriesOver(d: Daemon, g: Goal, snap: Zone, z: Zone)
    requires g.owner == d.owner && WantsOwn(d, g.want) && GoodZone(g, snap) && WellFormed(z)
    requires AgreeOn(Territory(d), snap, z) && MarkersHome(d, z)
    requires ProperNames(d)
    ensures GoodZone(g, z)
  {
    SingletonsCarry(d, g, snap, z);
    MarkersCarry(d, g, snap, z);
    NamesCarry(d, g, snap, z);
  }

  lemma AtomicAt(d: Daemon, g: Goal, snap: Zone, z: Zone, y: Zone, k: RRKey)
    requires GoodGoal(g) && g.owner == d.owner && WantsOwn(d, g.want) && ProperNames(d)
    requires GoodZone(g, snap) && GoodZone(g, z) && AgreeOn(Territory(d), snap, z) && MarkersHome(d, z)
    requires AgreeOn(Territory(d), y, NextZone(g, snap)) && AgreeOutside(Territory(d), y, z) && WellFormed(y)
    ensures Lookup(y, k) == Lookup(NextZone(g, z), k)
  {
    NextZoneLookup(g, z, k);
    NextZoneLookup(g, snap, k);
    if !Legal(k.name) {
      IllegalAbsent(g, z, k);
    } else if k.name in Territory(d) {
      TerritoryClosed(d);
      AfterIsLocal(g, Territory(d), snap, z, k);
    } else {
      QuietOutside(d, g, z, k);
    }
  }

  /** Serialisability: however the daemons interleave, an apply does to the zone exactly what a whole cycle run at
      that moment would do. */
  lemma ApplyIsAtomicCycle(ds: seq<Daemon>, start: Zone, i: nat, s: State, s': State)
    requires Separate(ds) && Inv(ds, start, s) && i < |ds| && ApplyStep(ds, i, s, s')
    requires GoodGoal(GoalOf(ds[i], s.phases[i].desired))
    requires GoodZone(GoalOf(ds[i], s.phases[i].desired), s.phases[i].snapshot)
    ensures s'.zone == NextZone(GoalOf(ds[i], s.phases[i].desired), s.zone)
  {
    var d, ph := ds[i], s.phases[i];
    var g, snap := GoalOf(d, ph.desired), ph.snapshot;
    var ops := Message(d.cfg, ph.changes);
    assert PhaseOK(d, s.zone, ph);
    CycleIsNextZone(g, snap, ph.desired, ph.rrs, ph.changes);
    RunIsLocal(Territory(d), s.zone, snap, ops);
    GoodCarriesOver(d, g, snap, s.zone);
    RunKeepsWellFormed(s.zone, ops);
    forall k ensures Lookup(s'.zone, k) == Lookup(NextZone(g, s.zone), k) { AtomicAt(d, g, snap, s.zone, s'.zone, k); }
    SameLookupsSameZone(s'.zone, NextZone(g, s.zone));
  }
}
