/** Repeated cycles: they settle after at most two, and a settled zone plans nothing. */
module Convergence {
  import opened Endpoints
  import opened Dns
  import opened Provider
  import opened Plan
  import opened Cycle
  import opened CycleLaws
  import opened Refinement

  /** Nothing to do at name `n`: no desired slot is empty and, if owned, every record reads as desired. */
  ghost predicate SettledAt(g: Goal, z: Zone, n: string) {
    && !CreatesAt(g, z, n)
    && (Owned(g.owner, z, n) ==> forall k :: k in z && IsRecord(k) && NameOf(k) == n ==> ReadsAsWanted(g, z, k))
  }

  ghost predicate Settled(g: Goal, z: Zone) {
    forall n :: SettledAt(g, z, n)
  }

  /** A run of successful cycles. */
  ghost predicate CycleRun(g: Goal, zs: seq<Zone>) {
    forall i :: 0 < i < |zs| ==> zs[i] == NextZone(g, zs[i - 1])
  }

  lemma {:induction false} RunGood(g: Goal, zs: seq<Zone>, i: nat)
    requires GoodGoal(g) && CycleRun(g, zs) && i < |zs| && GoodZone(g, zs[0])
    ensures GoodZone(g, zs[i])
  {
    if i > 0 {
      RunGood(g, zs, i - 1);
      NextGood(g, zs[i - 1]);
    }
  }

  // ----- an empty plan is a settled zone -----

  lemma SettledSlots(g: Goal, z: Zone)
    requires GoodGoal(g) && GoodZone(g, z)
    ensures Settled(g, z) <==>
            && (forall s :: s in g.want ==> Has(z, s))
            && (forall k :: !Dropped(g, z, k) && !Stale(g, z, k))
  {
    if Settled(g, z) {
      forall s | s in g.want ensures Has(z, s) { assert SettledAt(g, z, g.want[s].dnsName); }
      forall k ensures !Dropped(g, z, k) && !Stale(g, z, k) { assert SettledAt(g, z, NameOf(k)); }
    }
    if (forall s :: s in g.want ==> Has(z, s)) && (forall k :: !Dropped(g, z, k) && !Stale(g, z, k)) {
      forall n ensures SettledAt(g, z, n) {
        if Owned(g.owner, z, n) {
          forall k | k in z && IsRecord(k) && NameOf(k) == n ensures ReadsAsWanted(g, z, k) {
            assert !Dropped(g, z, k) && !Stale(g, z, k);
            SameMeansEqual(g, z, k);
          }
        }
      }
    }
  }

  lemma SameMeansEqual(g: Goal, z: Zone, k: RRKey)
    requires GoodGoal(g) && GoodZone(g, z) && k in z && IsRecord(k) && Owned(g.owner, z, NameOf(k))
    requires Slot(k) in g.want && SameRecord(Read(g.cfg, k, z[k]), g.want[Slot(k)])
    ensures ReadsAsWanted(g, z, k)
  {
    SameReadSameKey(g, z, k);
    WantFacts(g, Slot(k));
  }

  lemma MissingIsPlanned(g: Goal, c: map<string, Endpoint>, s: string)
    requires s in g.want
    ensures s !in c ==> PlansCreate(g.owner, g.want, c, g.want[s])
  {
  }

  /** Every plan for a zone is empty exactly when the zone is settled. */
  lemma PlanEmptyIffSettled(g: Goal, z: Zone, desired: seq<Endpoint>, rrs: seq<RR>, p: Changes)
    requires PlanOf(g, z, desired, rrs, p)
    ensures p.IsEmpty() <==> Settled(g, z)
  {
    var current := ReadAll(g.cfg, rrs);
    var c, owned := CurrentIndex(current), OwnedNames(g.owner, current);
    var changed := PlanMeaning(g.owner, desired, current, p);
    SettledSlots(g, z);
    if p.IsEmpty() {
      forall s | s in g.want ensures Has(z, s) {
        SlotsSeen(g, z, rrs, s);
        MissingIsPlanned(g, c, s);
      }
      forall k ensures !Dropped(g, z, k) && !Stale(g, z, k) {
        if Dropped(g, z, k) { DroppedIsPlanned(g, z, rrs, k); }
        OutdatedIsStale(g, z, rrs, Slot(k));
        assert Slot(k) !in changed;
      }
    }
    if Settled(g, z) {
      SettledPlansNothing(g, z, desired, rrs, p);
    }
  }

  lemma SettledPlansNothing(g: Goal, z: Zone, desired: seq<Endpoint>, rrs: seq<RR>, p: Changes)
    requires PlanOf(g, z, desired, rrs, p) && Settled(g, z)
    ensures p.IsEmpty()
  {
    var current := ReadAll(g.cfg, rrs);
    var c, owned := CurrentIndex(current), OwnedNames(g.owner, current);
    var changed := PlanMeaning(g.owner, desired, current, p);
    SettledSlots(g, z);
    forall ep ensures ep !in p.create { SettledCreatesNothing(g, z, rrs, ep); }
    forall ep ensures ep !in p.delete { SettledDeletesNothing(g, z, rrs, ep); }
    forall s ensures s !in changed { OutdatedIsStale(g, z, rrs, s); }
    if p.create != [] { var ep := First(p.create); }
    if p.delete != [] { var ep := First(p.delete); }
    if changed != [] { var s := First(changed); }
  }

  lemma First<T>(s: seq<T>) returns (x: T)
    requires s != []
    ensures x in s
  {
    x := s[0];
  }

  lemma SettledCreatesNothing(g: Goal, z: Zone, rrs: seq<RR>, ep: Endpoint)
    requires GoodGoal(g) && GoodZone(g, z) && Transfer(z, rrs) && Settled(g, z)
    ensures !PlansCreate(g.owner, g.want, CurrentIndex(ReadAll(g.cfg, rrs)), ep)
  {
    SettledSlots(g, z);
    forall s | s in g.want ensures s in CurrentIndex(ReadAll(g.cfg, rrs)) { SlotsSeen(g, z, rrs, s); }
  }

  lemma SettledDeletesNothing(g: Goal, z: Zone, rrs: seq<RR>, ep: Endpoint)
    requires GoodGoal(g) && GoodZone(g, z) && Transfer(z, rrs) && Settled(g, z)
    ensures !PlansDelete(g.owner, OwnedNames(g.owner, ReadAll(g.cfg, rrs)), g.want, CurrentIndex(ReadAll(g.cfg, rrs)),
            ep)
  {
    var c := CurrentIndex(ReadAll(g.cfg, rrs));
    SettledSlots(g, z);
    forall s | s in c && s !in g.want ensures c[s].dnsName !in OwnedNames(g.owner, ReadAll(g.cfg, rrs)) {
      var k := SlotHolder(g, z, rrs, s);
      OwnershipSeen(g, z, rrs, c[s].dnsName);
      assert !Dropped(g, z, k);
    }
  }

  // ----- settling -----

  lemma OwnedSettles(g: Goal, z: Zone, n: string)
    requires GoodGoal(g) && GoodZone(g, z) && Owned(g.owner, z, n)
    ensures SettledAt(g, NextZone(g, z), n)
  {
    OwnedNameBecomesDesired(g, z, n);
  }

  lemma QuietStays(g: Goal, z: Zone, n: string)
    requires GoodGoal(g) && GoodZone(g, z) && !Owned(g.owner, z, n) && !CreatesAt(g, z, n)
    ensures SettledAt(g, NextZone(g, z), n)
  {
    var z' := NextZone(g, z);
    OwnershipLaw(g, z, n);
    forall s | s in g.want && g.want[s].dnsName == n ensures Has(z', s) {
      assert !Missing(g, z, s);
      var k :| k in z && IsRecord(k) && Slot(k) == s;
      WantAtSlot(g, k);
      RecordAfter(g, z, k);
    }
  }

  /** A settled name stays settled. */
  lemma SettledStays(g: Goal, z: Zone, n: string)
    requires GoodGoal(g) && GoodZone(g, z) && SettledAt(g, z, n)
    ensures SettledAt(g, NextZone(g, z), n)
  {
    if Owned(g.owner, z, n) { OwnedSettles(g, z, n); } else { QuietStays(g, z, n); }
  }

  /** One cycle either settles a name or leaves it owned. */
  lemma OneCycleSettlesOrAdopts(g: Goal, z: Zone, n: string)
    requires GoodGoal(g) && GoodZone(g, z)
    ensures SettledAt(g, NextZone(g, z), n) || Owned(g.owner, NextZone(g, z), n)
  {
    OwnershipLaw(g, z, n);
    if Owned(g.owner, z, n) { OwnedSettles(g, z, n); } else if !CreatesAt(g, z, n) { QuietStays(g, z, n); }
  }

  /** From any zone two cycles settle every name. */
  lemma TwoCyclesSettle(g: Goal, z: Zone)
    requires GoodGoal(g) && GoodZone(g, z)
    ensures Settled(g, NextZone(g, NextZone(g, z)))
  {
    NextGood(g, z);
    forall n ensures SettledAt(g, NextZone(g, NextZone(g, z)), n) {
      OneCycleSettlesOrAdopts(g, z, n);
      if Owned(g.owner, NextZone(g, z), n) {
        OwnedSettles(g, NextZone(g, z), n);
      } else {
        SettledStays(g, NextZone(g, z), n);
      }
    }
  }

  /** What becomes of a record at an unowned name: it is lost in two cycles exactly when something desired is created
      at its name, which adopts the name, and the record itself is not desired. */
  lemma UnownedRecordFate(g: Goal, z: Zone, k: RRKey)
    requires GoodGoal(g) && GoodZone(g, z) && k in z && IsRecord(k) && !Owned(g.owner, z, NameOf(k))
    ensures k in NextZone(g, NextZone(g, z)) <==> !CreatesAt(g, z, NameOf(k)) || IsWanted(g, k)
  {
    RecordAfter(g, z, k);
    OwnershipLaw(g, z, NameOf(k));
    RecordAfter(g, NextZone(g, z), k);
  }

  /** No desired record is created at an unowned name that already has records. */
  ghost predicate NoAdoption(g: Goal, z: Zone) {
    forall s, k :: Missing(g, z, s) && k in z && IsRecord(k) && NameOf(k) == g.want[s].dnsName ==>
        Owned(g.owner, z, NameOf(k))
  }

  lemma FreshNameIsFree(g: Goal, z: Zone, s: string)
    requires GoodGoal(g) && GoodZone(g, z) && NoAdoption(g, z) && Missing(g, z, s) &&
             !Owned(g.owner, z, g.want[s].dnsName)
    ensures Free(z, KeyOf(g.cfg, g.want[s]))
  {
    WantFacts(g, s);
    var w := KeyOf(g.cfg, g.want[s]);
    forall k | k in z && k.name == w.name ensures !IsRecord(k) && !k.data.CNAME? {
      assert NameOf(k) == g.want[s].dnsName;
    }
  }

  lemma FreshNameSettles(g: Goal, z: Zone, n: string)
    requires GoodGoal(g) && GoodZone(g, z) && NoAdoption(g, z) && CreatesAt(g, z, n) && !Owned(g.owner, z, n)
    ensures SettledAt(g, NextZone(g, z), n)
  {
    var z' := NextZone(g, z);
    UnownedNameIsKept(g, z, n);
    var s0 :| Missing(g, z, s0) && g.want[s0].dnsName == n;
    forall s | s in g.want && g.want[s].dnsName == n ensures Has(z', s) {
      WantFacts(g, s);
      if Missing(g, z, s) {
        FreshNameIsFree(g, z, s);
      } else {
        var k :| k in z && IsRecord(k) && Slot(k) == s;
        WantAtSlot(g, k);
      }
    }
    forall k | k in z' && IsRecord(k) && NameOf(k) == n ensures ReadsAsWanted(g, z', k) {
      assert k !in z;
    }
  }

  /** One cycle is enough unless a create lands on an unowned name that already has records. */
  lemma OneCycleSettles(g: Goal, z: Zone)
    requires GoodGoal(g) && GoodZone(g, z) && NoAdoption(g, z)
    ensures Settled(g, NextZone(g, z))
  {
    forall n ensures SettledAt(g, NextZone(g, z), n) {
      if Owned(g.owner, z, n) { OwnedSettles(g, z, n); }
      else if CreatesAt(g, z, n) { FreshNameSettles(g, z, n); }
      else { QuietStays(g, z, n); }
    }
  }

  /** A settled zone is a fixed point. */
  lemma SettledIsFixed(g: Goal, z: Zone)
    requires GoodGoal(g) && GoodZone(g, z) && Settled(g, z)
    ensures NextZone(g, z) == z
  {
    SettledSlots(g, z);
    forall k ensures Lookup(NextZone(g, z), k) == Lookup(z, k) {
      NextZoneLookup(g, z, k);
      if IsRecord(k) { SettledRecord(g, z, k); } else { OtherAfter(g, z, k); SettledMarker(g, z, k); }
    }
    SameLookupsSameZone(NextZone(g, z), z);
  }

  lemma SettledRecord(g: Goal, z: Zone, k: RRKey)
    requires GoodGoal(g) && GoodZone(g, z) && Settled(g, z) && IsRecord(k)
    ensures After(g, z, k) == Lookup(z, k)
  {
    assert SettledAt(g, z, NameOf(k));
    if IsWanted(g, k) {
      WantAtSlot(g, k);
      assert !Missing(g, z, Slot(k));
      if Owned(g.owner, z, NameOf(k)) {
        var o :| o in z && IsRecord(o) && Slot(o) == Slot(k);
        SlotInjective(o, k);
        assert ReadsAsWanted(g, z, o);
        SameReadSameKey(g, z, o);
        assert o == k;
      }
    } else if Owned(g.owner, z, NameOf(k)) && k in z {
      assert ReadsAsWanted(g, z, k);
      SameReadSameKey(g, z, k);
    }
  }

  lemma SettledMarker(g: Goal, z: Zone, k: RRKey)
    requires GoodGoal(g) && GoodZone(g, z) && Settled(g, z) && !IsRecord(k)
    ensures After(g, z, k) == Lookup(z, k)
  {
    if OurMarker(g, k) {
      var n := NameOf(k)[|OWNER_PREFIX|..];
      assert SettledAt(g, z, n);
      SettledSlots(g, z);
      assert !DropsAt(g, z, n);
    }
  }

  lemma SettledPlansEmpty(g: Goal, z: Zone)
    requires Settled(g, z)
    ensures forall desired, rrs, p :: PlanOf(g, z, desired, rrs, p) ==> p.IsEmpty()
  {
    forall desired, rrs, p | PlanOf(g, z, desired, rrs, p) ensures p.IsEmpty() {
      PlanEmptyIffSettled(g, z, desired, rrs, p);
    }
  }

  lemma {:induction false} FixedFromTwo(g: Goal, zs: seq<Zone>, i: nat)
    requires CycleRun(g, zs) && 2 <= i < |zs| && NextZone(g, zs[2]) == zs[2]
    ensures zs[i] == zs[2]
  {
    if i > 2 { FixedFromTwo(g, zs, i - 1); }
  }

  lemma IteratesConverge(g: Goal, zs: seq<Zone>, i: nat)
    requires GoodGoal(g) && CycleRun(g, zs) && 2 <= i < |zs| && GoodZone(g, zs[0])
    ensures zs[i] == zs[2]
    ensures forall desired, rrs, p :: PlanOf(g, zs[i], desired, rrs, p) ==> p.IsEmpty()
  {
    assert zs[1] == NextZone(g, zs[0]) && zs[2] == NextZone(g, zs[1]);
    TwoCyclesSettle(g, zs[0]);
    RunGood(g, zs, 2);
    SettledIsFixed(g, zs[2]);
    FixedFromTwo(g, zs, i);
    SettledPlansEmpty(g, zs[i]);
  }

  // ----- runs of the code -----

  /** The preconditions of the cycle theorems, for a desired list and a transfer of the zone. */
  ghost predicate Sound(g: Goal, z: Zone, desired: seq<Endpoint>, rrs: seq<RR>) {
    g.want == Index(desired) && GoodGoal(g) && GoodZone(g, z) && Transfer(z, rrs)
  }

  /** A plan was made for the zone and its message, if any, took effect as the outcome says. */
  ghost predicate Planned(cfg: Config, owner: string, z: Zone, desired: seq<Endpoint>, rrs: seq<RR>, p: Changes,
                          outcome: Outcome, z': Zone) {
    && IsPlan(owner, desired, ReadAll(cfg, rrs), p)
    && z' == if p.IsEmpty() || outcome == Failure(false) then z else Run(z, Message(cfg, p))
  }

  /** The plan of a sound cycle leads to the next zone, and is empty exactly when the zone is settled. */
  lemma PlannedZone(g: Goal, z: Zone, desired: seq<Endpoint>, rrs: seq<RR>, p: Changes, outcome: Outcome, z': Zone)
    requires Sound(g, z, desired, rrs) && Planned(g.cfg, g.owner, z, desired, rrs, p, outcome, z')
    ensures z' == if outcome == Failure(false) then z else NextZone(g, z)
    ensures p.IsEmpty() <==> Settled(g, z)
  {
    PlanEmptyIffSettled(g, z, desired, rrs, p);
    CycleIsNextZone(g, z, desired, rrs, p);
    if p.IsEmpty() { EmptyMessage(g.cfg, z, p); }
  }

  /** One pass of the daemon: a transfer in some order, a plan for it, and what came of the message. */
  ghost predicate CodeCycle(g: Goal, z: Zone, outcome: Outcome, z': Zone) {
    exists desired, rrs, p ::
      g.want == Index(desired) && Transfer(z, rrs) && Planned(g.cfg, g.owner, z, desired, rrs, p, outcome, z')
  }

  /** Every zone admits a pass with every outcome. */
  lemma PassExists(g: Goal, z: Zone, desired: seq<Endpoint>, outcome: Outcome) returns (z': Zone)
    requires g.want == Index(desired)
    ensures CodeCycle(g, z, outcome, z')
  {
    var rrs := TransferExists(z);
    var p := PlanExists(g.owner, desired, ReadAll(g.cfg, rrs));
    z' := if p.IsEmpty() || outcome == Failure(false) then z else Run(z, Message(g.cfg, p));
    assert Planned(g.cfg, g.owner, z, desired, rrs, p, outcome, z');
  }

  ghost predicate CodeRun(g: Goal, zs: seq<Zone>, outcomes: seq<Outcome>) {
    |zs| == |outcomes| + 1 && forall i :: 0 <= i < |outcomes| ==> CodeCycle(g, zs[i], outcomes[i], zs[i + 1])
  }

  lemma CodeCycleIsNext(g: Goal, z: Zone, outcome: Outcome, z': Zone)
    requires GoodGoal(g) && GoodZone(g, z) && CodeCycle(g, z, outcome, z')
    ensures z' == if outcome == Failure(false) then z else NextZone(g, z)
    ensures GoodZone(g, z')
  {
    var desired, rrs, p :|
      g.want == Index(desired) && Transfer(z, rrs) && Planned(g.cfg, g.owner, z, desired, rrs, p, outcome, z');
    PlannedZone(g, z, desired, rrs, p, outcome, z');
    NextGood(g, z);
  }

  lemma {:induction false} CodeRunSteps(g: Goal, zs: seq<Zone>, outcomes: seq<Outcome>, i: nat)
    requires GoodGoal(g) && CodeRun(g, zs, outcomes) && i < |zs| && GoodZone(g, zs[0])
    ensures GoodZone(g, zs[i])
    ensures i > 0 ==> zs[i] == if outcomes[i - 1] == Failure(false) then zs[i - 1] else NextZone(g, zs[i - 1])
  {
    if i > 0 {
      var j := i - 1;
      CodeRunSteps(g, zs, outcomes, j);
      assert CodeCycle(g, zs[j], outcomes[j], zs[j + 1]);
      CodeCycleIsNext(g, zs[j], outcomes[j], zs[i]);
    }
  }

  /** Two-cycle convergence: in every run of passes that took effect, whatever the order of transfers and map walks,
      the zone stays the same from the second pass on, and every plan made for it is empty. */
  lemma Convergence(g: Goal, zs: seq<Zone>, outcomes: seq<Outcome>, i: nat)
    requires GoodGoal(g) && CodeRun(g, zs, outcomes) && 2 <= i < |zs| && GoodZone(g, zs[0])
    requires Failure(false) !in outcomes
    ensures zs[i] == zs[2]
    ensures forall desired, rrs, p :: PlanOf(g, zs[i], desired, rrs, p) ==> p.IsEmpty()
  {
    forall j | 0 < j < |zs| ensures zs[j] == NextZone(g, zs[j - 1]) {
      CodeRunSteps(g, zs, outcomes, j);
      assert outcomes[j - 1] in outcomes;
    }
    IteratesConverge(g, zs, i);
  }

  /** `z` is good and two cycles lead from it where they lead from `start`. */
  ghost predicate SameFuture(g: Goal, start: Zone, z: Zone) {
    GoodZone(g, z) && NextZone(g, NextZone(g, z)) == NextZone(g, NextZone(g, start))
  }

  lemma PassKeepsFuture(g: Goal, start: Zone, z: Zone, outcome: Outcome, z': Zone)
    requires GoodGoal(g) && SameFuture(g, start, z) && CodeCycle(g, z, outcome, z')
    ensures SameFuture(g, start, z')
  {
    CodeCycleIsNext(g, z, outcome, z');
    NextGood(g, z);
    NextGood(g, NextZone(g, z));
    TwoCyclesSettle(g, z);
    SettledIsFixed(g, NextZone(g, NextZone(g, z)));
  }

  lemma {:induction false} RunKeepsFuture(g: Goal, zs: seq<Zone>, outcomes: seq<Outcome>, i: nat)
    requires GoodGoal(g) && CodeRun(g, zs, outcomes) && GoodZone(g, zs[0]) && i < |zs|
    ensures SameFuture(g, zs[0], zs[i])
  {
    if i > 0 {
      var j := i - 1;
      RunKeepsFuture(g, zs, outcomes, j);
      assert CodeCycle(g, zs[j], outcomes[j], zs[j + 1]);
      PassKeepsFuture(g, zs[0], zs[j], outcomes[j], zs[i]);
    }
  }

  lemma TwoPassesSettle(g: Goal, x: Zone, o: Outcome, y: Zone, o': Outcome, z: Zone)
    requires GoodGoal(g) && GoodZone(g, x) && CodeCycle(g, x, o, y) && CodeCycle(g, y, o', z)
    requires o != Failure(false) && o' != Failure(false)
    ensures z == NextZone(g, NextZone(g, x)) && Settled(g, z)
  {
    CodeCycleIsNext(g, x, o, y);
    CodeCycleIsNext(g, y, o', z);
    TwoCyclesSettle(g, x);
  }

  /** Fault-tolerant convergence: a run of passes with any outcomes, of which the last two took effect, ends in the
      zone that two fault-free cycles reach from its start, and every plan made for that zone is empty. */
  lemma FaultyRunConverges(g: Goal, zs: seq<Zone>, outcomes: seq<Outcome>)
    requires GoodGoal(g) && CodeRun(g, zs, outcomes) && GoodZone(g, zs[0]) && |outcomes| >= 2
    requires outcomes[|outcomes| - 2] != Failure(false) && outcomes[|outcomes| - 1] != Failure(false)
    ensures var last := zs[|zs| - 1];
            && last == NextZone(g, NextZone(g, zs[0])) && Settled(g, last)
            && forall desired, rrs, p :: PlanOf(g, last, desired, rrs, p) ==> p.IsEmpty()
  {
    var n := |outcomes| - 2;
    RunKeepsFuture(g, zs, outcomes, n);
    assert CodeCycle(g, zs[n], outcomes[n], zs[n + 1]) && CodeCycle(g, zs[n + 1], outcomes[n + 1], zs[n + 1 + 1]);
    TwoPassesSettle(g, zs[n], outcomes[n], zs[n + 1], outcomes[n + 1], zs[n + 2]);
    SettledPlansEmpty(g, zs[n + 2]);
  }
}
