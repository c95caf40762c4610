/** Several daemons with fixed goals on one zone: once each has applied two plans, in any interleaving, the zone is at
    rest for all of them. */
module Fleet {
  import opened Text
  import opened Dns
  import opened Provider
  import opened Plan
  import opened Cycle
  import opened CycleLaws
  import opened Refinement
  import opened Convergence
  import opened Locality
  import opened Daemons

  /** Each daemon's goal is its own and sound. */
  ghost predicate GoalsOf(ds: seq<Daemon>, gs: seq<Goal>) {
    |gs| == |ds| && forall i :: 0 <= i < |ds| ==> GoalFits(ds[i], gs[i])
  }

  ghost predicate GoalFits(d: Daemon, g: Goal) {
    g.cfg == d.cfg && g.owner == d.owner && WantsOwn(d, g.want) && GoodGoal(g) && ProperNames(d)
  }

  /** Every pending plan was made for its daemon's goal. */
  ghost predicate Pursues(gs: seq<Goal>, s: State) {
    |s.phases| == |gs| && forall i :: 0 <= i < |gs| && s.phases[i].Planned? ==> Index(s.phases[i].desired) == gs[i].want
  }

  // ----- what concerns a daemon is in its territory -----

  /** Two zones that daemon `d` cannot tell apart at its names. */
  ghost predicate Alike(d: Daemon, y: Zone, z: Zone) {
    WellFormed(y) && WellFormed(z) && MarkersHome(d, y) && MarkersHome(d, z) && AgreeOn(Territory(d), y, z)
  }

  lemma OwnNameAlike(d: Daemon, g: Goal, y: Zone, z: Zone, n: string)
    requires GoalFits(d, g) && Alike(d, y, z) && n in d.names
    ensures Owned(g.owner, y, n) == Owned(g.owner, z, n) && CreatesAt(g, y, n) == CreatesAt(g, z, n)
  {
    TerritoryClosed(d);
    InTerritory(d, n);
    OwnedIsLocal(g.owner, Territory(d), y, z, n);
    CreatesIsLocal(g, Territory(d), y, z, n);
  }

  lemma OwnRecordAlike(d: Daemon, g: Goal, y: Zone, z: Zone, k: RRKey)
    requires GoalFits(d, g) && Alike(d, y, z) && NameOf(k) in d.names && k in z
    ensures k in y && ReadsAsWanted(g, y, k) == ReadsAsWanted(g, z, k)
  {
    FqdnTrim(k.name);
    InTerritory(d, NameOf(k));
    SameMembership(Territory(d), y, z, k);
  }

  lemma StrangeNameSettled(d: Daemon, g: Goal, z: Zone, n: string)
    requires GoalFits(d, g) && MarkersHome(d, z) && n !in d.names
    ensures SettledAt(g, z, n)
  {
    assert !Owned(g.owner, z, n);
  }

  lemma SettledCarries(d: Daemon, g: Goal, y: Zone, z: Zone, n: string)
    requires GoalFits(d, g) && Alike(d, y, z)
    ensures SettledAt(g, y, n) ==> SettledAt(g, z, n)
    ensures Owned(g.owner, y, n) ==> Owned(g.owner, z, n)
  {
    if n in d.names {
      OwnNameAlike(d, g, y, z, n);
      if SettledAt(g, y, n) && Owned(g.owner, z, n) {
        forall k | k in z && IsRecord(k) && NameOf(k) == n
          ensures ReadsAsWanted(g, z, k)
        {
          OwnRecordAlike(d, g, y, z, k);
        }
      }
    } else {
      StrangeNameSettled(d, g, z, n);
    }
  }

  // ----- progress -----

  /** One cycle done: every name is settled or adopted. */
  ghost predicate Halfway(g: Goal, z: Zone) {
    forall n :: SettledAt(g, z, n) || Owned(g.owner, z, n)
  }

  ghost predicate Progress(g: Goal, z: Zone, applied: nat) {
    GoodZone(g, z) && (applied == 1 ==> Halfway(g, z)) && (applied >= 2 ==> Settled(g, z))
  }

  lemma ProgressCarries(d: Daemon, g: Goal, y: Zone, z: Zone, applied: nat)
    requires GoalFits(d, g) && Alike(d, y, z) && Progress(g, y, applied)
    ensures Progress(g, z, applied)
  {
    GoodCarriesOver(d, g, y, z);
    forall n ensures (SettledAt(g, y, n) ==> SettledAt(g, z, n)) && (Owned(g.owner, y, n) ==> Owned(g.owner, z, n)) {
      SettledCarries(d, g, y, z, n);
    }
    if applied == 1 {
      forall n ensures SettledAt(g, z, n) || Owned(g.owner, z, n) { assert SettledAt(g, y, n) || Owned(g.owner, y, n); }
    }
    if applied >= 2 {
      forall n ensures SettledAt(g, z, n) { assert SettledAt(g, y, n); }
    }
  }

  lemma HalfwaySettles(g: Goal, z: Zone)
    requires GoodGoal(g) && GoodZone(g, z) && Halfway(g, z)
    ensures Settled(g, NextZone(g, z))
  {
    forall n ensures SettledAt(g, NextZone(g, z), n) {
      if Owned(g.owner, z, n) { OwnedSettles(g, z, n); } else { SettledStays(g, z, n); }
    }
  }

  lemma CycleProgresses(g: Goal, z: Zone, applied: nat)
    requires GoodGoal(g) && Progress(g, z, applied)
    ensures Progress(g, NextZone(g, z), applied + 1)
  {
    NextGood(g, z);
    if applied == 0 {
      forall n
        ensures SettledAt(g, NextZone(g, z), n) || Owned(g.owner, NextZone(g, z), n)
      {
        OneCycleSettlesOrAdopts(g, z, n);
      }
    } else if applied == 1 {
      HalfwaySettles(g, z);
    } else {
      SettledIsFixed(g, z);
    }
  }

  // ----- steps -----

  lemma OwnApply(ds: seq<Daemon>, gs: seq<Goal>, start: Zone, i: nat, s: State, s': State)
    requires Separate(ds) && GoalsOf(ds, gs) && Inv(ds, start, s) && Pursues(gs, s) && i < |ds| &&
             ApplyStep(ds, i, s, s')
    requires GoodZone(gs[i], s.zone)
    ensures s'.zone == NextZone(gs[i], s.zone)
  {
    var d, g, ph := ds[i], gs[i], s.phases[i];
    assert GoalFits(d, g) && PhaseOK(d, s.zone, ph);
    forall k: RRKey | k.name in Territory(d) ensures Lookup(s.zone, k) == Lookup(ph.snapshot, k) {}
    GoodCarriesOver(d, g, s.zone, ph.snapshot);
    assert GoalOf(d, ph.desired) == g;
    ApplyIsAtomicCycle(ds, start, i, s, s');
  }

  lemma OtherApply(ds: seq<Daemon>, start: Zone, i: nat, j: nat, s: State, s': State)
    requires Separate(ds) && Inv(ds, start, s) && i < |ds| && j < |ds| && i != j && ApplyStep(ds, j, s, s')
    ensures Alike(ds[i], s.zone, s'.zone)
  {
    ApplyKeepsInv(ds, start, j, s, s');
    assert PhaseOK(ds[j], s.zone, s.phases[j]);
    RunIsLocal(Territory(ds[j]), s.zone, s.zone, Message(ds[j].cfg, s.phases[j].changes));
    forall k: RRKey | k.name in Territory(ds[i]) ensures Lookup(s.zone, k) == Lookup(s'.zone, k) {
      assert k.name !in Territory(ds[j]);
    }
  }

  /** A step is an apply, or leaves the zone as it is. */
  lemma QuietStep(ds: seq<Daemon>, j: nat, s: State, s': State)
    requires StepBy(ds, j, s, s') && !ApplyStep(ds, j, s, s')
    ensures s'.zone == s.zone
  {
  }

  lemma StepProgresses(ds: seq<Daemon>, gs: seq<Goal>, start: Zone, i: nat, j: nat, s: State, s': State, applied: nat)
    requires Separate(ds) && GoalsOf(ds, gs) && Inv(ds, start, s) && Pursues(gs, s) && StepBy(ds, j, s, s') && i < |ds|
    requires Progress(gs[i], s.zone, applied)
    ensures Progress(gs[i], s'.zone, if i == j && ApplyStep(ds, j, s, s') then applied + 1 else applied)
  {
    assert GoalFits(ds[i], gs[i]);
    if !ApplyStep(ds, j, s, s') {
      QuietStep(ds, j, s, s');
    } else if i == j {
      OwnApply(ds, gs, start, i, s, s');
      CycleProgresses(gs[i], s.zone, applied);
    } else {
      OtherApply(ds, start, i, j, s, s');
      ProgressCarries(ds[i], gs[i], s.zone, s'.zone, applied);
    }
  }

  // ----- executions -----

  /** How many plans daemon `i` has applied in the first `t` steps. */
  ghost function Applies(ds: seq<Daemon>, ss: seq<State>, who: seq<nat>, i: nat, t: nat): nat
    requires |ss| == |who| + 1 && t < |ss| && (forall u :: 0 <= u < |who| ==> StepBy(ds, who[u], ss[u], ss[u + 1]))
  {
    if t == 0 then 0
    else
      assert StepBy(ds, who[t - 1], ss[t - 1], ss[t - 1 + 1]);
      Applies(ds, ss, who, i, t - 1) + if who[t - 1] == i && ApplyStep(ds, i, ss[t - 1], ss[t]) then 1 else 0
  }

  ghost predicate FleetRun(ds: seq<Daemon>, gs: seq<Goal>, ss: seq<State>, who: seq<nat>) {
    && Separate(ds) && GoalsOf(ds, gs) && Execution(ds, ss, who)
    && (forall t :: 0 <= t < |ss| ==> Pursues(gs, ss[t]))
    && (forall i :: 0 <= i < |ds| ==> GoodZone(gs[i], ss[0].zone))
  }

  lemma {:induction false} RunProgresses(ds: seq<Daemon>, gs: seq<Goal>, ss: seq<State>, who: seq<nat>, i: nat, t: nat)
    requires FleetRun(ds, gs, ss, who) && i < |ds| && t < |ss|
    ensures Progress(gs[i], ss[t].zone, Applies(ds, ss, who, i, t))
  {
    if t > 0 {
      var u := t - 1;
      RunProgresses(ds, gs, ss, who, i, u);
      ExecutionSafe(ds, ss, who, u);
      assert Pursues(gs, ss[u]) && StepBy(ds, who[u], ss[u], ss[u + 1]);
      StepProgresses(ds, gs, ss[0].zone, i, who[u], ss[u], ss[t], Applies(ds, ss, who, i, u));
    }
  }

  /** Joint convergence: in every interleaving, as soon as each daemon has applied two plans the zone is settled for all
      of them, and whatever any of them plans from then on is empty. */
  lemma JointConvergence(ds: seq<Daemon>, gs: seq<Goal>, ss: seq<State>, who: seq<nat>, t: nat)
    requires FleetRun(ds, gs, ss, who) && t < |ss|
    requires forall i :: 0 <= i < |ds| ==> Applies(ds, ss, who, i, t) >= 2
    ensures forall i :: 0 <= i < |ds| ==> Settled(gs[i], ss[t].zone)
    ensures forall i, desired, rrs, p :: 0 <= i < |ds| && PlanOf(gs[i], ss[t].zone, desired, rrs, p) ==> p.IsEmpty()
  {
    forall i | 0 <= i < |ds| ensures Settled(gs[i], ss[t].zone) { RunProgresses(ds, gs, ss, who, i, t); }
    forall i, desired, rrs, p | 0 <= i < |ds| && PlanOf(gs[i], ss[t].zone, desired, rrs, p) ensures p.IsEmpty() {
      PlanEmptyIffSettled(gs[i], ss[t].zone, desired, rrs, p);
    }
  }

  /** From then on the zone does not change any more, plans still pending from before included. */
  lemma {:induction false} FleetAtRest(ds: seq<Daemon>, gs: seq<Goal>, ss: seq<State>, who: seq<nat>, t: nat, u: nat)
    requires FleetRun(ds, gs, ss, who) && t <= u < |ss|
    requires forall i :: 0 <= i < |ds| ==> Applies(ds, ss, who, i, t) >= 2
    ensures ss[u].zone == ss[t].zone
    decreases u
  {
    if t < u {
      var v := u - 1;
      FleetAtRest(ds, gs, ss, who, t, v);
      JointConvergence(ds, gs, ss, who, t);
      ExecutionSafe(ds, ss, who, v);
      var j := who[v];
      assert Pursues(gs, ss[v]) && StepBy(ds, j, ss[v], ss[v + 1]);
      RestStep(ds, gs, ss[0].zone, j, ss[v], ss[u], ss, who, v);
    }
  }

  lemma RestStep(ds: seq<Daemon>, gs: seq<Goal>, start: Zone, j: nat, s: State, s': State, ss: seq<State>,
                 who: seq<nat>, v: nat)
    requires FleetRun(ds, gs, ss, who) && v < |ss| && s == ss[v]
    requires Inv(ds, start, s) && Pursues(gs, s) && StepBy(ds, j, s, s') && Settled(gs[j], s.zone)
    ensures s'.zone == s.zone
  {
    if ApplyStep(ds, j, s, s') {
      RunProgresses(ds, gs, ss, who, j, v);
      assert GoalFits(ds[j], gs[j]);
      OwnApply(ds, gs, start, j, s, s');
      SettledIsFixed(gs[j], s.zone);
    } else {
      QuietStep(ds, j, s, s');
    }
  }
}
