/** Zones in which a foreign CNAME sits at the marker name of a desired name, so that the server refuses the marker:
    what
    a cycle does there, and exactly when the name settles. */
module BlockedMarkers {
  import opened Text
  import opened Endpoints
  import opened Dns
  import opened Provider
  import opened Plan
  import opened Cycle
  import opened CycleLaws
  import opened Refinement
  import opened Convergence
  import opened Locality
  import opened Safety

  /** The marker names of desired names that a CNAME occupies. */
  ghost predicate IsBlocked(g: Goal, z: Zone, x: string) {
    HasCname(z, x) && exists s :: s in g.want && x == Fqdn(OwnershipName(g.want[s].dnsName))
  }

  ghost function Blocked(g: Goal, z: Zone): iset<string> {
    iset x: string | IsBlocked(g, z, x)
  }

  /** The zone without those CNAMEs. */
  ghost function Strip(g: Goal, z: Zone): Zone {
    map k | k in z && k.name !in Blocked(g, z) :: z[k]
  }

  /** The CNAMEs are none of our business: their names are neither ours nor desired. */
  ghost predicate ForeignBlockers(g: Goal, z: Zone) {
    forall s :: s in g.want && HasCname(z, Fqdn(OwnershipName(g.want[s].dnsName))) ==>
      !Managed(g, z, OwnershipName(g.want[s].dnsName))
  }

  /** A good zone, except that marker names may be blocked. */
  ghost predicate GoodButBlocked(g: Goal, z: Zone) {
    && WellFormed(z) && Singletons(g, z) && MarkersSingle(g, z) && CnameNamesVisible(g, z) && ForeignBlockers(g, z)
  }

  // ----- the zone without the blockers -----

  lemma StripAgrees(g: Goal, z: Zone)
    ensures AgreeOn(Outside(Blocked(g, z)), z, Strip(g, z))
  {
  }

  /** No text record sits beside a CNAME. */
  lemma NoTextAtBlocked(g: Goal, z: Zone, k: RRKey)
    requires WellFormed(z) && k in z && !k.data.CNAME?
    ensures k.name !in Blocked(g, z) && k in Strip(g, z)
  {
    forall c | c in z && c.name == k.name ensures !c.data.CNAME? {}
  }

  lemma StripOwned(g: Goal, z: Zone, n: string)
    requires WellFormed(z)
    ensures Owned(g.owner, Strip(g, z), n) <==> Owned(g.owner, z, n)
  {
    if Owned(g.owner, z, n) {
      var k :| k in z && Claims(g.owner, k, n);
      NoTextAtBlocked(g, z, k);
    }
  }

  lemma ManagedProper(g: Goal, z: Zone, n: string)
    requires DesiredReadable(g) && WellFormed(z) && Managed(g, z, n)
    ensures n != "" && !EndsWithDot(n)
  {
    if Owned(g.owner, z, n) {
      OwnedNamesProper(g.owner, z, n);
    } else {
      var s :| s in g.want && g.want[s].dnsName == n;
      WantFacts(g, s);
    }
  }

  lemma FqdnInjective(n: string, m: string)
    requires Fqdn(n) == Fqdn(m) && !EndsWithDot(n) && !EndsWithDot(m)
    ensures n == m
  {
    TrimFqdn(n);
    TrimFqdn(m);
  }

  lemma MarkerNameProper(g: Goal, s: string)
    requires DesiredReadable(g) && s in g.want
    ensures !EndsWithDot(OwnershipName(g.want[s].dnsName))
  {
    WantFacts(g, s);
    MarkerKeyFacts(g.owner, g.want[s].dnsName);
  }

  /** A managed name is not blocked. */
  lemma ManagedNotBlocked(g: Goal, z: Zone, n: string)
    requires DesiredReadable(g) && WellFormed(z) && ForeignBlockers(g, z) && Managed(g, z, n)
    ensures Fqdn(n) !in Blocked(g, z)
  {
    if IsBlocked(g, z, Fqdn(n)) {
      var s :| s in g.want && Fqdn(n) == Fqdn(OwnershipName(g.want[s].dnsName));
      ManagedProper(g, z, n);
      MarkerNameProper(g, s);
      FqdnInjective(n, OwnershipName(g.want[s].dnsName));
    }
  }

  lemma StripManaged(g: Goal, z: Zone, n: string)
    requires WellFormed(z)
    ensures Managed(g, Strip(g, z), n) <==> Managed(g, z, n)
  {
    StripOwned(g, z, n);
  }

  lemma StripSingletons(g: Goal, z: Zone)
    requires WellFormed(z) && Singletons(g, z)
    ensures Singletons(g, Strip(g, z))
  {
    forall n ensures Managed(g, Strip(g, z), n) <==> Managed(g, z, n) { StripManaged(g, z, n); }
  }

  lemma StripFree(g: Goal, z: Zone)
    ensures MarkerNamesFree(g, Strip(g, z))
  {
    forall s | s in g.want ensures !HasCname(Strip(g, z), Fqdn(OwnershipName(g.want[s].dnsName))) {
      var x := Fqdn(OwnershipName(g.want[s].dnsName));
      forall k | k in Strip(g, z) && k.name == x ensures !k.data.CNAME? {
        assert HasCname(z, x) ==> IsBlocked(g, z, x);
      }
    }
  }

  lemma StripGood(g: Goal, z: Zone)
    requires GoodButBlocked(g, z)
    ensures GoodZone(g, Strip(g, z))
  {
    StripSingletons(g, z);
    StripFree(g, z);
  }

  // ----- the plan does not see the blockers -----

  /** The two indices lead to the same plan: they have the same desired slots and the same owned records. */
  ghost predicate SamePlans(owned: iset<string>, d: map<string, Endpoint>, c: map<string, Endpoint>,
                            c': map<string, Endpoint>) {
    && (forall k :: k in d ==> (k in c <==> k in c') && (k in c && d[k].dnsName in owned ==> c[k] == c'[k]))
    && (forall k :: k in c' ==> k in c)
    && (forall k :: k in c && k !in d && c[k].dnsName in owned ==> k in c' && c'[k] == c[k])
    && (forall k :: k in c' && k !in d && c'[k].dnsName in owned ==> c'[k] == c[k])
  }

  lemma {:induction false} SameCreates(owner: string, owned: iset<string>, d: map<string, Endpoint>,
                                       c: map<string, Endpoint>, c': map<string, Endpoint>, ks: seq<string>)
    requires SamePlans(owned, d, c, c') && forall k :: k in ks ==> k in d
    ensures Creates(owner, d, c, ks) == Creates(owner, d, c', ks)
  {
    if ks != [] {
      assert ks[|ks| - 1] in ks;
      SameCreates(owner, owned, d, c, c', ks[..|ks| - 1]);
    }
  }

  lemma {:induction false} SameOutdated(owned: iset<string>, d: map<string, Endpoint>, c: map<string, Endpoint>,
                                        c': map<string, Endpoint>, ks: seq<string>)
    requires SamePlans(owned, d, c, c') && forall k :: k in ks ==> k in d
    ensures OutdatedKeys(owned, d, c, ks) == OutdatedKeys(owned, d, c', ks)
  {
    if ks != [] {
      var k := ks[|ks| - 1];
      assert k in ks;
      SameOutdated(owned, d, c, c', ks[..|ks| - 1]);
      assert Outdated(owned, d, c, k) <==> Outdated(owned, d, c', k);
    }
  }

  ghost function Restrict(ks: seq<string>, c: map<string, Endpoint>): (r: seq<string>)
    ensures forall k :: k in r <==> k in ks && k in c
  {
    if ks == [] then []
    else
      var n := |ks| - 1;
      assert ks == ks[..n] + [ks[n]];
      if ks[n] in c then Restrict(ks[..n], c) + [ks[n]] else Restrict(ks[..n], c)
  }

  lemma {:induction false} RestrictDistinct(ks: seq<string>, c: map<string, Endpoint>)
    requires Distinct(ks)
    ensures Distinct(Restrict(ks, c))
  {
    if ks != [] {
      var n := |ks| - 1;
      RestrictDistinct(ks[..n], c);
      assert ks[n] !in ks[..n];
      assert ks[n] !in Restrict(ks[..n], c);
    }
  }

  lemma {:induction false} SameDeletes(owner: string, owned: iset<string>, d: map<string, Endpoint>,
                                       c: map<string, Endpoint>, c': map<string, Endpoint>, ks: seq<string>)
    requires SamePlans(owned, d, c, c') && forall k :: k in ks ==> k in c
    ensures Deletes(owner, owned, d, c, ks) == Deletes(owner, owned, d, c', Restrict(ks, c'))
  {
    if ks != [] {
      var n := |ks| - 1;
      assert ks[n] in ks;
      SameDeletes(owner, owned, d, c, c', ks[..n]);
      var r := Restrict(ks[..n], c');
      assert (r + [ks[n]])[..|r|] == r;
    }
  }

  lemma SamePlanInOrder(owner: string, owned: iset<string>, d: map<string, Endpoint>, c: map<string, Endpoint>,
                        c': map<string, Endpoint>, dk: seq<string>, ck: seq<string>)
    requires SamePlans(owned, d, c, c') && Walk(dk, d.Keys) && Walk(ck, c.Keys)
    ensures Walk(Restrict(ck, c'), c'.Keys)
    ensures PlanInOrder(owner, owned, d, c, dk, ck) == PlanInOrder(owner, owned, d, c', dk, Restrict(ck, c'))
  {
    RestrictDistinct(ck, c');
    SameCreates(owner, owned, d, c, c', dk);
    SameOutdated(owned, d, c, c', dk);
    SameDeletes(owner, owned, d, c, c', ck);
    var changed := OutdatedKeys(owned, d, c, dk);
    forall k | k in changed ensures k in c && k in c' && c[k] == c'[k] { assert Outdated(owned, d, c, k); }
    assert Pick(c, changed) == Pick(c', changed);
  }

  lemma StripHas(g: Goal, z: Zone, s: string)
    requires DesiredReadable(g) && WellFormed(z) && ForeignBlockers(g, z) && s in g.want
    ensures Has(Strip(g, z), s) <==> Has(z, s)
  {
    if Has(z, s) {
      var k :| k in z && IsRecord(k) && Slot(k) == s;
      WantAtSlot(g, k);
      FqdnTrim(k.name);
      ManagedNotBlocked(g, z, NameOf(k));
    }
  }

  lemma OwnedInStrip(g: Goal, z: Zone, k: RRKey)
    requires DesiredReadable(g) && WellFormed(z) && ForeignBlockers(g, z) && k in z && Managed(g, z, NameOf(k))
    ensures k in Strip(g, z) && Strip(g, z)[k] == z[k] && Managed(g, Strip(g, z), NameOf(k))
  {
    FqdnTrim(k.name);
    ManagedNotBlocked(g, z, NameOf(k));
    StripManaged(g, z, NameOf(k));
  }

  /** A managed slot is held by the same record in both zones. */
  lemma SameHolder(g: Goal, z: Zone, rrs: seq<RR>, rrs': seq<RR>, s: string)
    requires DesiredReadable(g) && GoodButBlocked(g, z) && Transfer(z, rrs) && Transfer(Strip(g, z), rrs')
    requires s in CurrentIndex(ReadAll(g.cfg, rrs)) && Managed(g, z, CurrentIndex(ReadAll(g.cfg, rrs))[s].dnsName)
    ensures s in CurrentIndex(ReadAll(g.cfg, rrs'))
    ensures CurrentIndex(ReadAll(g.cfg, rrs'))[s] == CurrentIndex(ReadAll(g.cfg, rrs))[s]
  {
    var k := SlotHolder(g, z, rrs, s);
    OwnedInStrip(g, z, k);
    StripSingletons(g, z);
    SlotHolderAt(g, Strip(g, z), rrs', k);
  }

  lemma StripSlot(g: Goal, z: Zone, rrs: seq<RR>, rrs': seq<RR>, s: string)
    requires Transfer(z, rrs) && Transfer(Strip(g, z), rrs') && s in CurrentIndex(ReadAll(g.cfg, rrs'))
    ensures s in CurrentIndex(ReadAll(g.cfg, rrs))
    ensures CurrentIndex(ReadAll(g.cfg, rrs))[s].dnsName == CurrentIndex(ReadAll(g.cfg, rrs'))[s].dnsName
  {
    var k := SlotHolder(g, Strip(g, z), rrs', s);
    SlotsSeen(g, z, rrs, s);
    var o := SlotHolder(g, z, rrs, s);
    SlotInjective(k, o);
  }

  lemma WantedSlot(g: Goal, z: Zone, rrs: seq<RR>, s: string)
    requires DesiredReadable(g) && Transfer(z, rrs) && s in g.want && s in CurrentIndex(ReadAll(g.cfg, rrs))
    ensures CurrentIndex(ReadAll(g.cfg, rrs))[s].dnsName == g.want[s].dnsName
  {
    var k := SlotHolder(g, z, rrs, s);
    WantAtSlot(g, k);
  }

  lemma StripSamePlans(g: Goal, z: Zone, rrs: seq<RR>, rrs': seq<RR>)
    requires DesiredReadable(g) && GoodButBlocked(g, z) && Transfer(z, rrs) && Transfer(Strip(g, z), rrs')
    ensures OwnedNames(g.owner, ReadAll(g.cfg, rrs)) == OwnedNames(g.owner, ReadAll(g.cfg, rrs'))
    ensures SamePlans(OwnedNames(g.owner, ReadAll(g.cfg, rrs)), g.want, CurrentIndex(ReadAll(g.cfg, rrs)),
                      CurrentIndex(ReadAll(g.cfg, rrs')))
  {
    var c, c' := CurrentIndex(ReadAll(g.cfg, rrs)), CurrentIndex(ReadAll(g.cfg, rrs'));
    forall n
      ensures n in OwnedNames(g.owner, ReadAll(g.cfg, rrs)) <==> n in OwnedNames(g.owner, ReadAll(g.cfg, rrs'))
    {
      StripOwnedSeen(g, z, rrs, rrs', n);
    }
    forall k | k in g.want ensures (k in c <==> k in c') && (k in c ==> c[k] == c'[k]) {
      StripWanted(g, z, rrs, rrs', k);
    }
    StripSameOwned(g, z, rrs, rrs');
  }

  lemma StripSameOwned(g: Goal, z: Zone, rrs: seq<RR>, rrs': seq<RR>)
    requires DesiredReadable(g) && GoodButBlocked(g, z) && Transfer(z, rrs) && Transfer(Strip(g, z), rrs')
    ensures var c, c' := CurrentIndex(ReadAll(g.cfg, rrs)), CurrentIndex(ReadAll(g.cfg, rrs'));
            var owned := OwnedNames(g.owner, ReadAll(g.cfg, rrs));
            && (forall k :: k in c' ==> k in c && c[k].dnsName == c'[k].dnsName)
            && (forall k :: k in c && c[k].dnsName in owned ==> k in c' && c'[k] == c[k])
  {
    var c, c' := CurrentIndex(ReadAll(g.cfg, rrs)), CurrentIndex(ReadAll(g.cfg, rrs'));
    forall k | k in c' ensures k in c && c[k].dnsName == c'[k].dnsName { StripSlot(g, z, rrs, rrs', k); }
    forall k | k in c && OwnedIn(g.owner, ReadAll(g.cfg, rrs), c[k].dnsName) ensures k in c' && c'[k] == c[k] {
      OwnershipSeen(g, z, rrs, c[k].dnsName);
      SameHolder(g, z, rrs, rrs', k);
    }
  }

  lemma StripOwnedSeen(g: Goal, z: Zone, rrs: seq<RR>, rrs': seq<RR>, n: string)
    requires WellFormed(z) && Transfer(z, rrs) && Transfer(Strip(g, z), rrs')
    ensures OwnedIn(g.owner, ReadAll(g.cfg, rrs), n) <==> OwnedIn(g.owner, ReadAll(g.cfg, rrs'), n)
  {
    OwnershipSeen(g, z, rrs, n);
    OwnershipSeen(g, Strip(g, z), rrs', n);
    StripOwned(g, z, n);
  }

  lemma StripWanted(g: Goal, z: Zone, rrs: seq<RR>, rrs': seq<RR>, s: string)
    requires DesiredReadable(g) && GoodButBlocked(g, z) && Transfer(z, rrs) && Transfer(Strip(g, z), rrs') &&
             s in g.want
    ensures var c, c' := CurrentIndex(ReadAll(g.cfg, rrs)), CurrentIndex(ReadAll(g.cfg, rrs'));
            (s in c <==> s in c') && (s in c ==> c[s] == c'[s])
  {
    SlotsSeen(g, z, rrs, s);
    SlotsSeen(g, Strip(g, z), rrs', s);
    StripHas(g, z, s);
    if s in CurrentIndex(ReadAll(g.cfg, rrs)) {
      WantedSlot(g, z, rrs, s);
      SameHolder(g, z, rrs, rrs', s);
    }
  }

  /** A plan for the zone is a plan for the zone without the blockers. */
  lemma StripPlan(g: Goal, z: Zone, desired: seq<Endpoint>, rrs: seq<RR>, p: Changes) returns (rrs': seq<RR>)
    requires GoodGoal(g) && g.want == Index(desired) && GoodButBlocked(g, z)
    requires Transfer(z, rrs) && IsPlan(g.owner, desired, ReadAll(g.cfg, rrs), p)
    ensures PlanOf(g, Strip(g, z), desired, rrs', p)
  {
    rrs' := TransferExists(Strip(g, z));
    StripGood(g, z);
    StripSamePlans(g, z, rrs, rrs');
    var current, current' := ReadAll(g.cfg, rrs), ReadAll(g.cfg, rrs');
    var d, c, c', owned := g.want, CurrentIndex(current), CurrentIndex(current'), OwnedNames(g.owner, current);
    var dk, ck :| Walk(dk, d.Keys) && Walk(ck, c.Keys) && p == PlanInOrder(g.owner, owned, d, c, dk, ck);
    SamePlanInOrder(g.owner, owned, d, c, c', dk, ck);
    assert Walk(Restrict(ck, c'), CurrentIndex(current').Keys);
  }

  // ----- the cycle -----

  /** The zone after a cycle: blocked marker names as they were, everything else as without the blockers. */
  ghost function NextBlocked(g: Goal, z: Zone): Zone {
    Mix(Blocked(g, z), z, NextZone(g, Strip(g, z)))
  }

  /** At a blocked name the message has only entries that do nothing. */
  lemma BlockedEntriesInert(g: Goal, z: Zone, desired: seq<Endpoint>, rrs: seq<RR>, p: Changes, op: Op)
    requires GoodButBlocked(g, z) && PlanOf(g, Strip(g, z), desired, rrs, p)
    requires op in Message(g.cfg, p) && op.key.name in Blocked(g, z)
    ensures Inert(z, op)
  {
    var ep := MessageSource(g.cfg, p, op);
    if op.Insert? {
      InsertedAtBlocked(g, z, desired, ReadAll(g.cfg, rrs), p, ep, op.key);
    } else {
      RemovedAtBlocked(g, z, desired, rrs, p, ep, op.key);
    }
    if op.key.data.TXT? && op.key in z { NoTextAtBlocked(g, z, op.key); }
  }

  lemma InsertedAtBlocked(g: Goal, z: Zone, desired: seq<Endpoint>, current: seq<Endpoint>, p: Changes, ep: Endpoint,
                          k: RRKey)
    requires DesiredReadable(g) && g.want == Index(desired) && GoodButBlocked(g, z)
    requires IsPlan(g.owner, desired, current, p) && (ep in p.create || ep in p.updateNew) && YieldsKey(g.cfg, ep, k)
    requires k.name in Blocked(g, z)
    ensures k.data.TXT?
  {
    PlannedInsert(g, desired, current, p, ep);
    if s :| s in g.want && ep == g.want[s] {
      YieldedName(g.cfg, ep, k);
      ManagedNotBlocked(g, z, ep.dnsName);
    } else {
      var n :| ep == OwnershipTXT(g.owner, n);
      YieldedMarker(g.cfg, g.owner, n, k);
    }
  }

  lemma PlannedInsert(g: Goal, desired: seq<Endpoint>, current: seq<Endpoint>, p: Changes, ep: Endpoint)
    requires g.want == Index(desired) && IsPlan(g.owner, desired, current, p) && (ep in p.create || ep in p.updateNew)
    ensures (exists s :: s in g.want && ep == g.want[s]) || (exists n :: ep == OwnershipTXT(g.owner, n))
  {
    var changed := PlanMeaning(g.owner, desired, current, p);
    if ep in p.updateNew {
      var i :| 0 <= i < |changed| && ep == p.updateNew[i];
      assert changed[i] in changed;
    }
  }

  lemma RemovedAtBlocked(g: Goal, z: Zone, desired: seq<Endpoint>, rrs: seq<RR>, p: Changes, ep: Endpoint, k: RRKey)
    requires GoodButBlocked(g, z) && PlanOf(g, Strip(g, z), desired, rrs, p)
    requires (ep in p.delete || ep in p.updateOld) && YieldsKey(g.cfg, ep, k) && k.name in Blocked(g, z)
    ensures k.data.TXT?
  {
    YieldedName(g.cfg, ep, k);
    if ep in p.delete {
      DeletedRecord(g.cfg, g.owner, Strip(g, z), desired, rrs, p, ep);
      if o :| o in Strip(g, z) && IsRecord(o) && ep == Read(g.cfg, o, Strip(g, z)[o]) {
        FqdnTrim(o.name);
      } else {
        var n :| ep == OwnershipTXT(g.owner, n);
        YieldedMarker(g.cfg, g.owner, n, k);
      }
    } else {
      var d, o := ReplacedOrigin(g.cfg, g.owner, Strip(g, z), desired, rrs, p, ep);
      FqdnTrim(o.name);
    }
  }

  /** One cycle with blocked markers, for every transfer order and every plan. */
  lemma BlockedCycle(g: Goal, z: Zone, desired: seq<Endpoint>, rrs: seq<RR>, p: Changes)
    requires GoodGoal(g) && g.want == Index(desired) && GoodButBlocked(g, z)
    requires Transfer(z, rrs) && IsPlan(g.owner, desired, ReadAll(g.cfg, rrs), p)
    ensures Run(z, Message(g.cfg, p)) == NextBlocked(g, z)
  {
    var b, y, ops := Blocked(g, z), Strip(g, z), Message(g.cfg, p);
    var rrs' := StripPlan(g, z, desired, rrs, p);
    CycleIsNextZone(g, y, desired, rrs', p);
    StripAgrees(g, z);
    RunAgrees(Outside(b), z, y, ops);
    forall op | op in ops && op.key.name in b ensures Inert(z, op) { BlockedEntriesInert(g, z, desired, rrs', p, op); }
    RunInertAt(b, z, ops);
    forall k ensures Lookup(Run(z, ops), k) == Lookup(NextBlocked(g, z), k) { MixLookup(b, z, NextZone(g, y), k); }
    SameLookupsSameZone(Run(z, ops), NextBlocked(g, z));
  }

  lemma RunAgrees(s: iset<string>, y: Zone, z: Zone, ops: seq<Op>)
    requires AgreeOn(s, y, z)
    ensures AgreeOn(s, Run(y, ops), Run(z, ops))
  {
    RunPart(s, y, z, ops);
    RunPart(s, z, z, ops);
    var kept := Run(z, KeepOps(s, ops));
    forall k: RRKey | k.name in s ensures Lookup(Run(y, ops), k) == Lookup(Run(z, ops), k) {
      assert Lookup(Run(y, ops), k) == Lookup(kept, k);
    }
  }

  // ----- what every cycle keeps -----

  lemma NextBlockedAt(g: Goal, z: Zone, k: RRKey)
    ensures k.name in Blocked(g, z) ==> Lookup(NextBlocked(g, z), k) == Lookup(z, k)
    ensures k.name !in Blocked(g, z) ==> Lookup(NextBlocked(g, z), k) == Lookup(NextZone(g, Strip(g, z)), k)
  {
    MixLookup(Blocked(g, z), z, NextZone(g, Strip(g, z)), k);
  }

  lemma BlockedOwned(g: Goal, z: Zone, n: string)
    requires GoodGoal(g) && GoodButBlocked(g, z) && Owned(g.owner, NextBlocked(g, z), n)
    ensures Owned(g.owner, NextZone(g, Strip(g, z)), n)
  {
    var k :| k in NextBlocked(g, z) && Claims(g.owner, k, n);
    NextBlockedAt(g, z, k);
    if k.name in Blocked(g, z) {
      assert Lookup(z, k) != None;
      NoTextAtBlocked(g, z, k);
    }
  }

  lemma BlockedManaged(g: Goal, z: Zone, n: string)
    requires GoodGoal(g) && GoodButBlocked(g, z) && Managed(g, NextBlocked(g, z), n)
    ensures Managed(g, NextZone(g, Strip(g, z)), n) && Managed(g, z, n)
  {
    if Owned(g.owner, NextBlocked(g, z), n) { BlockedOwned(g, z, n); }
    StripGood(g, z);
    NextManaged(g, Strip(g, z), n);
    StripManaged(g, z, n);
  }

  /** A record at a managed name is where it is without the blockers. */
  lemma ManagedRecordNext(g: Goal, z: Zone, k: RRKey)
    requires GoodGoal(g) && GoodButBlocked(g, z) && Legal(k.name) && Managed(g, z, NameOf(k))
    ensures Lookup(NextBlocked(g, z), k) == Lookup(NextZone(g, Strip(g, z)), k)
  {
    FqdnTrim(k.name);
    ManagedNotBlocked(g, z, NameOf(k));
    NextBlockedAt(g, z, k);
  }

  lemma NextBlockedWellFormed(g: Goal, z: Zone)
    requires GoodGoal(g) && GoodButBlocked(g, z)
    ensures WellFormed(NextBlocked(g, z))
  {
    StripGood(g, z);
    NextGood(g, Strip(g, z));
    MixWellFormed(Blocked(g, z), z, NextZone(g, Strip(g, z)));
  }

  lemma NextBlockedSingletons(g: Goal, z: Zone)
    requires GoodGoal(g) && GoodButBlocked(g, z)
    ensures Singletons(g, NextBlocked(g, z))
  {
    var y, y' := NextZone(g, Strip(g, z)), NextBlocked(g, z);
    StripGood(g, z);
    NextGood(g, Strip(g, z));
    NextBlockedWellFormed(g, z);
    forall k | k in y' && Managed(g, y', NameOf(k)) ensures k in y && Managed(g, y, NameOf(k)) {
      BlockedManaged(g, z, NameOf(k));
      ManagedRecordNext(g, z, k);
      assert Lookup(y', k) != None;
    }
    forall k, k' | k in y' && k' in y' && IsRecord(k) && IsRecord(k') && Slot(k) == Slot(k') &&
        Managed(g, y', NameOf(k))
      ensures k == k'
    {
      SlotInjective(k, k');
    }
  }

  lemma NextBlockedMarkers(g: Goal, z: Zone)
    requires GoodGoal(g) && GoodButBlocked(g, z)
    ensures MarkersSingle(g, NextBlocked(g, z))
  {
    StripGood(g, z);
    NextGood(g, Strip(g, z));
    forall k, n | k in NextBlocked(g, z) && Claims(g.owner, k, n) ensures k.data.strings == [OwnershipValue(g.owner)] {
      NextBlockedAt(g, z, k);
      assert Lookup(NextBlocked(g, z), k) != None;
    }
  }

  lemma NextBlockedVisible(g: Goal, z: Zone)
    requires GoodGoal(g) && GoodButBlocked(g, z)
    ensures CnameNamesVisible(g, NextBlocked(g, z))
  {
    StripGood(g, z);
    NextGood(g, Strip(g, z));
    forall s, k | s in g.want && g.want[s].recordType == TYPE_CNAME && k in NextBlocked(g, z) &&
        k.name == Fqdn(g.want[s].dnsName)
      ensures IsRecord(k)
    {
      ManagedNotBlocked(g, z, g.want[s].dnsName);
      NextBlockedAt(g, z, k);
      assert Lookup(NextBlocked(g, z), k) != None;
    }
  }

  /** A marker name is blocked after a cycle exactly if it was before. */
  lemma StaysBlocked(g: Goal, z: Zone, s: string)
    requires GoodGoal(g) && GoodButBlocked(g, z) && s in g.want
    ensures var x := Fqdn(OwnershipName(g.want[s].dnsName)); HasCname(NextBlocked(g, z), x) <==> HasCname(z, x)
  {
    var x := Fqdn(OwnershipName(g.want[s].dnsName));
    StripGood(g, z);
    NextGood(g, Strip(g, z));
    if HasCname(z, x) {
      assert IsBlocked(g, z, x);
      var c :| c in z && c.name == x && c.data.CNAME?;
      NextBlockedAt(g, z, c);
      assert Lookup(z, c) != None;
    }
    if HasCname(NextBlocked(g, z), x) {
      var c :| c in NextBlocked(g, z) && c.name == x && c.data.CNAME?;
      NextBlockedAt(g, z, c);
      assert Lookup(NextBlocked(g, z), c) != None;
      assert !HasCname(NextZone(g, Strip(g, z)), x);
    }
  }

  lemma NextBlockedForeign(g: Goal, z: Zone)
    requires GoodGoal(g) && GoodButBlocked(g, z)
    ensures ForeignBlockers(g, NextBlocked(g, z))
  {
    forall s | s in g.want && HasCname(NextBlocked(g, z), Fqdn(OwnershipName(g.want[s].dnsName)))
      ensures !Managed(g, NextBlocked(g, z), OwnershipName(g.want[s].dnsName))
    {
      StaysBlocked(g, z, s);
      var n := OwnershipName(g.want[s].dnsName);
      if Managed(g, NextBlocked(g, z), n) { BlockedManaged(g, z, n); }
    }
  }

  lemma NextBlockedGood(g: Goal, z: Zone)
    requires GoodGoal(g) && GoodButBlocked(g, z)
    ensures GoodButBlocked(g, NextBlocked(g, z))
  {
    NextBlockedWellFormed(g, z);
    NextBlockedSingletons(g, z);
    NextBlockedMarkers(g, z);
    NextBlockedVisible(g, z);
    NextBlockedForeign(g, z);
  }

  // ----- a blocked name -----

  /** `n` is desired and its marker name is blocked. */
  ghost predicate BlockedName(g: Goal, z: Zone, n: string) {
    Wanted(g, n) && HasCname(z, Fqdn(OwnershipName(n)))
  }

  /** A desired record is missing at the name, and what is there keeps it out. */
  ghost predicate KeptOut(g: Goal, z: Zone, s: string) {
    Missing(g, z, s) && !Free(z, KeyOf(g.cfg, g.want[s]))
  }

  ghost predicate KeptOutAt(g: Goal, z: Zone, n: string) {
    exists s :: KeptOut(g, z, s) && g.want[s].dnsName == n
  }

  lemma BlockedUnowned(g: Goal, z: Zone, n: string)
    requires DesiredReadable(g) && WellFormed(z) && BlockedName(g, z, n)
    ensures !Owned(g.owner, z, n)
  {
    if Owned(g.owner, z, n) {
      var k :| k in z && Claims(g.owner, k, n);
      FqdnTrim(k.name);
      OnlyCnameThere(z, k);
    }
  }

  lemma OnlyCnameThere(z: Zone, k: RRKey)
    requires WellFormed(z) && k in z && HasCname(z, k.name)
    ensures k.data.CNAME?
  {
    var c :| c in z && c.name == k.name && c.data.CNAME?;
    assert c == k;
  }

  lemma StripFreeAt(g: Goal, z: Zone, k: RRKey)
    requires DesiredReadable(g) && WellFormed(z) && ForeignBlockers(g, z) && Legal(k.name) && Managed(g, z, NameOf(k))
    ensures Free(Strip(g, z), k) <==> Free(z, k)
  {
    FqdnTrim(k.name);
    ManagedNotBlocked(g, z, NameOf(k));
    forall o: RRKey | o.name == k.name ensures o in Strip(g, z) <==> o in z {}
  }

  /** At a blocked name every record stays, and exactly the missing desired ones that find the name free arrive. */
  lemma BlockedRecord(g: Goal, z: Zone, k: RRKey)
    requires GoodGoal(g) && GoodButBlocked(g, z) && IsRecord(k) && Legal(k.name) && BlockedName(g, z, NameOf(k))
    ensures k in NextBlocked(g, z) <==> k in z || (IsWanted(g, k) && !Has(z, Slot(k)) && Free(z, k))
  {
    BlockedUnowned(g, z, NameOf(k));
    StripOwned(g, z, NameOf(k));
    ManagedRecordNext(g, z, k);
    RecordAfter(g, Strip(g, z), k);
    StripFreeAt(g, z, k);
    if IsWanted(g, k) { StripHas(g, z, Slot(k)); }
    OwnedInStripOrNot(g, z, k);
    assert k in NextBlocked(g, z) <==> Lookup(NextBlocked(g, z), k) != None;
  }

  lemma OwnedInStripOrNot(g: Goal, z: Zone, k: RRKey)
    requires DesiredReadable(g) && WellFormed(z) && ForeignBlockers(g, z) && Managed(g, z, NameOf(k))
    ensures k in Strip(g, z) <==> k in z
  {
    if k in z { OwnedInStrip(g, z, k); }
  }

  lemma BlockedSlot(g: Goal, z: Zone, s: string)
    requires GoodGoal(g) && GoodButBlocked(g, z) && s in g.want && BlockedName(g, z, g.want[s].dnsName)
    ensures Has(NextBlocked(g, z), s) <==> Has(z, s) || Free(z, KeyOf(g.cfg, g.want[s]))
  {
    var w := KeyOf(g.cfg, g.want[s]);
    WantFacts(g, s);
    NextBlockedWellFormed(g, z);
    BlockedRecord(g, z, w);
    if Has(z, s) {
      var k :| k in z && IsRecord(k) && Slot(k) == s;
      WantAtSlot(g, k);
      BlockedRecord(g, z, k);
    }
    if Has(NextBlocked(g, z), s) {
      var k :| k in NextBlocked(g, z) && IsRecord(k) && Slot(k) == s;
      WantAtSlot(g, k);
      BlockedRecord(g, z, k);
    }
  }

  /** What keeps a record out stays, so it is kept out for good. */
  lemma KeptOutStays(g: Goal, z: Zone, s: string)
    requires GoodGoal(g) && GoodButBlocked(g, z) && s in g.want && BlockedName(g, z, g.want[s].dnsName)
    requires !Free(z, KeyOf(g.cfg, g.want[s]))
    ensures !Free(NextBlocked(g, z), KeyOf(g.cfg, g.want[s]))
  {
    var w := KeyOf(g.cfg, g.want[s]);
    WantFacts(g, s);
    var o :| o in z && o.name == w.name && (w.data.CNAME? || o.data.CNAME?);
    assert IsRecord(o);
    BlockedRecord(g, z, o);
  }

  lemma KeptOutIff(g: Goal, z: Zone, s: string)
    requires GoodGoal(g) && GoodButBlocked(g, z) && s in g.want && BlockedName(g, z, g.want[s].dnsName)
    ensures Missing(g, NextBlocked(g, z), s) <==> KeptOut(g, z, s)
    ensures KeptOut(g, NextBlocked(g, z), s) <==> KeptOut(g, z, s)
  {
    BlockedSlot(g, z, s);
    if KeptOut(g, z, s) { KeptOutStays(g, z, s); }
  }

  /** One cycle at a blocked name: it stays blocked, what is kept out is the same, and the name is settled exactly when
      nothing is kept out. */
  lemma BlockedNameAfter(g: Goal, z: Zone, n: string)
    requires GoodGoal(g) && GoodButBlocked(g, z) && BlockedName(g, z, n)
    ensures var z' := NextBlocked(g, z);
            && GoodButBlocked(g, z') && BlockedName(g, z', n)
            && (KeptOutAt(g, z', n) <==> KeptOutAt(g, z, n))
            && (SettledAt(g, z', n) <==> !KeptOutAt(g, z, n))
  {
    var z' := NextBlocked(g, z);
    NextBlockedGood(g, z);
    var s0 :| s0 in g.want && g.want[s0].dnsName == n;
    StaysBlocked(g, z, s0);
    BlockedUnowned(g, z', n);
    forall s | s in g.want && g.want[s].dnsName == n
      ensures (Missing(g, z', s) <==> KeptOut(g, z, s)) && (KeptOut(g, z', s) <==> KeptOut(g, z, s))
    {
      KeptOutIff(g, z, s);
    }
    BlockedSettledIff(g, z, z', n);
  }

  lemma BlockedSettledIff(g: Goal, z: Zone, z': Zone, n: string)
    requires !Owned(g.owner, z', n)
    requires forall s :: s in g.want && g.want[s].dnsName == n ==> (Missing(g, z', s) <==> KeptOut(g, z, s))
    ensures SettledAt(g, z', n) <==> !KeptOutAt(g, z, n)
  {
    if s :| KeptOut(g, z, s) && g.want[s].dnsName == n { assert Missing(g, z', s); }
  }

  // ----- runs -----

  lemma BlockedPass(g: Goal, z: Zone, outcome: Outcome, z': Zone)
    requires GoodGoal(g) && GoodButBlocked(g, z) && CodeCycle(g, z, outcome, z')
    ensures z' == if outcome == Failure(false) then z else NextBlocked(g, z)
  {
    var desired, rrs, p :|
      g.want == Index(desired) && Transfer(z, rrs) && Planned(g.cfg, g.owner, z, desired, rrs, p, outcome, z');
    BlockedCycle(g, z, desired, rrs, p);
    if p.IsEmpty() { EmptyMessage(g.cfg, z, p); }
  }

  /** The name is blocked, something is kept out of it or not, and after a pass with effect it is settled if not. */
  ghost predicate BlockedState(g: Goal, z: Zone, n: string, keptOut: bool, effect: bool) {
    && GoodButBlocked(g, z) && BlockedName(g, z, n) && (KeptOutAt(g, z, n) <==> keptOut)
    && (effect ==> (SettledAt(g, z, n) <==> !keptOut))
  }

  lemma BlockedStep(g: Goal, z: Zone, outcome: Outcome, z': Zone, n: string, keptOut: bool, effect: bool)
    requires GoodGoal(g) && BlockedState(g, z, n, keptOut, effect) && CodeCycle(g, z, outcome, z')
    ensures BlockedState(g, z', n, keptOut, effect || outcome != Failure(false))
  {
    BlockedPass(g, z, outcome, z');
    BlockedNameAfter(g, z, n);
  }

  /** One of the first `i` passes took effect. */
  predicate SomeEffect(outcomes: seq<Outcome>, i: nat)
    requires i <= |outcomes|
  {
    i > 0 && (SomeEffect(outcomes, i - 1) || outcomes[i - 1] != Failure(false))
  }

  lemma BlockedRunStep(g: Goal, zs: seq<Zone>, outcomes: seq<Outcome>, n: string, keptOut: bool, j: nat)
    requires GoodGoal(g) && CodeRun(g, zs, outcomes) && j < |outcomes|
    requires StateAt(g, zs, outcomes, n, keptOut, j)
    ensures StateAt(g, zs, outcomes, n, keptOut, j + 1)
  {
    BlockedStep(g, zs[j], outcomes[j], zs[j + 1], n, keptOut, SomeEffect(outcomes, j));
  }

  lemma BlockedRun(g: Goal, zs: seq<Zone>, outcomes: seq<Outcome>, n: string, keptOut: bool, i: nat)
    requires GoodGoal(g) && CodeRun(g, zs, outcomes) && StateAt(g, zs, outcomes, n, keptOut, 0) && i < |zs|
    ensures StateAt(g, zs, outcomes, n, keptOut, i)
  {
    for j := 0 to i
      invariant StateAt(g, zs, outcomes, n, keptOut, j)
    {
      BlockedRunStep(g, zs, outcomes, n, keptOut, j);
    }
  }

  ghost predicate StateAt(g: Goal, zs: seq<Zone>, outcomes: seq<Outcome>, n: string, keptOut: bool, i: nat) {
    i < |zs| && i <= |outcomes| && BlockedState(g, zs[i], n, keptOut, SomeEffect(outcomes, i))
  }

  /** With a foreign CNAME at its marker name, a desired name never becomes ours.  From the first pass that takes effect
      on it is settled, in every run, exactly when nothing at the name keeps a desired record out; otherwise it never
      settles. */
  lemma BlockedNameSettlesIff(g: Goal, zs: seq<Zone>, outcomes: seq<Outcome>, n: string, i: nat)
    requires GoodGoal(g) && CodeRun(g, zs, outcomes) && GoodButBlocked(g, zs[0]) && BlockedName(g, zs[0], n)
    requires i < |zs| && SomeEffect(outcomes, i)
    ensures !Owned(g.owner, zs[i], n)
    ensures SettledAt(g, zs[i], n) <==> !KeptOutAt(g, zs[0], n)
  {
    BlockedRun(g, zs, outcomes, n, KeptOutAt(g, zs[0], n), i);
    BlockedUnowned(g, zs[i], n);
  }
}
