/** What the daemon never does, whatever the zone: a name it does not own and is not asked for is left alone, in every
    run, exactly as long as no desired endpoint of another name has one of the name's index keys. */
module Safety {
  import opened Text
  import opened Addresses
  import opened Endpoints
  import opened Dns
  import opened Provider
  import opened Plan
  import opened Cycle
  import opened Refinement

  /** The name without its final dots. */
  function Bare(x: string): string
    decreases |x|
  {
    if EndsWithDot(x) then Bare(TrimDot(x)) else x
  }

  lemma {:induction false} BareHasNoDot(x: string)
    ensures !EndsWithDot(Bare(x))
    decreases |x|
  {
    if EndsWithDot(x) { BareHasNoDot(TrimDot(x)); }
  }

  lemma BareFqdn(x: string)
    ensures Bare(Fqdn(x)) == Bare(x) && Bare(TrimDot(x)) == Bare(x)
  {
    TrimFqdn(x);
  }

  lemma {:induction false} BareMarker(x: string)
    ensures Bare(x) != "" ==> Bare(OwnershipName(x)) == OwnershipName(Bare(x))
    ensures Bare(x) == "" ==> Bare(OwnershipName(x)) + "." == OWNER_PREFIX
    decreases |x|
  {
    var m := OwnershipName(x);
    if EndsWithDot(x) {
      BareMarker(TrimDot(x));
      assert EndsWithDot(m) && TrimDot(m) == OwnershipName(TrimDot(x));
    } else if x == "" {
      assert EndsWithDot(m) && TrimDot(m) == OWNER_PREFIX[..|OWNER_PREFIX| - 1];
      assert !EndsWithDot(TrimDot(m)) && TrimDot(m) + "." == OWNER_PREFIX;
    } else {
      assert m[|m| - 1] == x[|x| - 1];
    }
  }

  /** Some text record at the marker name of `n` holds our value. */
  ghost predicate Claimed(owner: string, z: Zone, n: string) {
    exists k :: k in z && Claiming(owner, k, n)
  }

  predicate Claiming(owner: string, k: RRKey, n: string) {
    k.data.TXT? && OwnershipValue(owner) in k.data.strings && Bare(k.name) == OwnershipName(n)
  }

  /** Neither the name nor its marker name is desired. */
  ghost predicate NotDesired(desired: seq<Endpoint>, n: string) {
    forall ep :: ep in desired ==> Bare(ep.dnsName) != n && Bare(ep.dnsName) != OwnershipName(n)
  }

  /** No desired endpoint of a name of ours has the index key of a record that the zone holds at the name. */
  ghost predicate Unclashed(owner: string, z: Zone, desired: seq<Endpoint>, n: string) {
    forall k :: k in z && IsRecord(k) && Bare(k.name) == n && Slot(k) in Index(desired) ==>
      !Owned(owner, z, Index(desired)[Slot(k)].dnsName)
  }

  /** A name the daemon has no business with. */
  ghost predicate Stranger(owner: string, z: Zone, desired: seq<Endpoint>, n: string) {
    n != "" && !Claimed(owner, z, n) && NotDesired(desired, n) && Unclashed(owner, z, desired, n)
  }

  /** A name at which markers go: one with the owner prefix, or the marker label alone. */
  predicate MarkerName(n: string) {
    OWNER_PREFIX <= n || n + "." == OWNER_PREFIX
  }

  lemma MarkersAtMarkerNames(x: string)
    ensures MarkerName(Bare(OwnershipName(x)))
  {
    BareMarker(x);
  }

  lemma MarkerElsewhere(x: string, n: string)
    requires n != "" && Bare(x) != n
    ensures Bare(OwnershipName(x)) != OwnershipName(n)
  {
    BareMarker(x);
    if Bare(x) != "" {
      assert OwnershipName(Bare(x))[|OWNER_PREFIX|..] == Bare(x) && OwnershipName(n)[|OWNER_PREFIX|..] == n;
    }
  }

  ghost predicate CycleOf(cfg: Config, owner: string, z: Zone, desired: seq<Endpoint>, p: Changes) {
    exists rrs :: Transfer(z, rrs) && IsPlan(owner, desired, ReadAll(cfg, rrs), p)
  }

  // ----- where the entries of a message come from -----

  lemma YieldedBare(cfg: Config, ep: Endpoint, k: RRKey)
    requires YieldsKey(cfg, ep, k)
    ensures Bare(k.name) == Bare(ep.dnsName)
  {
    YieldedName(cfg, ep, k);
    BareFqdn(ep.dnsName);
  }

  lemma YieldedMarker(cfg: Config, owner: string, n: string, k: RRKey)
    requires YieldsKey(cfg, OwnershipTXT(owner, n), k)
    ensures k.data == TXT([OwnershipValue(owner)]) && Bare(k.name) == Bare(OwnershipName(n))
  {
    MarkerWrites(Goal(cfg, owner, map[]), n);
    YieldedBare(cfg, OwnershipTXT(owner, n), k);
  }

  // ----- what a plan may write -----

  /** A created endpoint is desired or the marker of a desired name. */
  lemma CreatedOrigin(owner: string, desired: seq<Endpoint>, current: seq<Endpoint>, p: Changes, ep: Endpoint)
    requires IsPlan(owner, desired, current, p) && (ep in p.create || ep in p.updateNew)
    ensures ep in desired || exists d :: d in desired && ep == OwnershipTXT(owner, d.dnsName)
  {
    var changed := PlanMeaning(owner, desired, current, p);
    if ep in p.create {
      var s :| s in Index(desired) && s !in CurrentIndex(current) &&
          (ep == Index(desired)[s] || ep == OwnershipTXT(owner, Index(desired)[s].dnsName));
      InIndex(desired, s);
    } else {
      var i :| 0 <= i < |changed| && ep == p.updateNew[i];
      assert changed[i] in changed;
      InIndex(desired, changed[i]);
    }
  }

  /** A deleted endpoint is read at an owned name or is the marker of one. */
  lemma DeletedOrigin(owner: string, desired: seq<Endpoint>, current: seq<Endpoint>, p: Changes, ep: Endpoint)
    requires IsPlan(owner, desired, current, p) && ep in p.delete
    ensures OwnedIn(owner, current, ep.dnsName) || exists n :: ep == OwnershipTXT(owner, n)
  {
    var _ := PlanMeaning(owner, desired, current, p);
  }

  /** The index key determines the name as soon as the name or the type it is made of has no bar. */
  lemma OneBar(n: string, t: string, n': string, t': string)
    requires n + "|" + t == n' + "|" + t' && '|' !in t && ('|' !in n || '|' !in t')
    ensures n == n' && t == t'
  {
    var s := n + "|" + t;
    assert s[|n'|] == '|' && s[|n|] == '|';
    assert |n| == |n'|;
    assert n == s[..|n|] && n' == s[..|n|];
    assert t == s[|n| + 1..] && t' == s[|n| + 1..];
  }

  /** A replaced endpoint is a record of the zone whose index key a desired endpoint of a name of ours has.  The names
      agree too, unless the record's name and the desired type both contain a bar. */
  lemma ReplacedOrigin(cfg: Config, owner: string, z: Zone, desired: seq<Endpoint>, rrs: seq<RR>, p: Changes,
                       ep: Endpoint) returns (d: Endpoint, k: RRKey)
    requires Transfer(z, rrs) && IsPlan(owner, desired, ReadAll(cfg, rrs), p) && ep in p.updateOld
    ensures d in desired && k in z && IsRecord(k) && ep == Read(cfg, k, z[k]) && EpKey(d) == EpKey(ep) == Slot(k)
    ensures Slot(k) in Index(desired) && d == Index(desired)[Slot(k)] && Owned(owner, z, d.dnsName)
    ensures '|' !in ep.dnsName || '|' !in d.recordType ==> d.dnsName == ep.dnsName
  {
    var g := Goal(cfg, owner, Index(desired));
    var current := ReadAll(cfg, rrs);
    var changed := PlanMeaning(owner, desired, current, p);
    var i :| 0 <= i < |changed| && ep == p.updateOld[i];
    var s := changed[i];
    assert s in changed;
    InIndex(desired, s);
    d := Index(desired)[s];
    OwnershipSeen(g, z, rrs, d.dnsName);
    k := SlotHolder(g, z, rrs, s);
    ReadMarks(g, k, z[k], "");
    TypesHaveNoBar(k.data);
    if '|' !in ep.dnsName || '|' !in d.recordType {
      OneBar(ep.dnsName, ep.recordType, d.dnsName, d.recordType);
    }
  }

  lemma OwnedIsClaimed(cfg: Config, owner: string, z: Zone, rrs: seq<RR>, m: string)
    requires Transfer(z, rrs) && OwnedIn(owner, ReadAll(cfg, rrs), m) && Bare(m) != ""
    ensures Claimed(owner, z, Bare(m))
  {
    OwnershipSeen(Goal(cfg, owner, map[]), z, rrs, m);
    var k :| k in z && Claims(owner, k, m);
    BareFqdn(k.name);
    BareMarker(m);
    assert Claiming(owner, k, Bare(m));
  }

  /** At a stranger's name a message has at most entries for markers of ours, and none unless markers go there. */
  lemma StrangerEntries(cfg: Config, owner: string, z: Zone, desired: seq<Endpoint>, p: Changes, n: string, op: Op)
    requires CycleOf(cfg, owner, z, desired, p) && Stranger(owner, z, desired, n)
    requires op in Message(cfg, p) && Bare(op.key.name) == n
    ensures op.key.data == TXT([OwnershipValue(owner)]) && MarkerName(n)
  {
    var rrs :| Transfer(z, rrs) && IsPlan(owner, desired, ReadAll(cfg, rrs), p);
    var ep := MessageSource(cfg, p, op);
    if op.Insert? {
      InsertedEntry(cfg, owner, desired, ReadAll(cfg, rrs), p, ep, op.key);
    } else {
      RemovedEntry(cfg, owner, z, rrs, desired, p, n, ep, op.key);
    }
  }

  lemma InsertedEntry(cfg: Config, owner: string, desired: seq<Endpoint>, current: seq<Endpoint>, p: Changes,
                      ep: Endpoint, k: RRKey)
    requires IsPlan(owner, desired, current, p) && (ep in p.create || ep in p.updateNew) && YieldsKey(cfg, ep, k)
    ensures (exists d :: d in desired && Bare(d.dnsName) == Bare(k.name))
         || (&& k.data == TXT([OwnershipValue(owner)]) && MarkerName(Bare(k.name))
             && exists d :: d in desired && Bare(OwnershipName(d.dnsName)) == Bare(k.name))
  {
    CreatedOrigin(owner, desired, current, p, ep);
    if ep in desired {
      YieldedBare(cfg, ep, k);
    } else {
      var d :| d in desired && ep == OwnershipTXT(owner, d.dnsName);
      YieldedMarker(cfg, owner, d.dnsName, k);
      MarkersAtMarkerNames(d.dnsName);
    }
  }

  lemma RemovedEntry(cfg: Config, owner: string, z: Zone, rrs: seq<RR>, desired: seq<Endpoint>, p: Changes, n: string,
                     ep: Endpoint, k: RRKey)
    requires Transfer(z, rrs) && IsPlan(owner, desired, ReadAll(cfg, rrs), p) && Stranger(owner, z, desired, n)
    requires (ep in p.delete || ep in p.updateOld) && YieldsKey(cfg, ep, k) && Bare(k.name) == n
    ensures k.data == TXT([OwnershipValue(owner)]) && MarkerName(n)
  {
    YieldedBare(cfg, ep, k);
    if ep in p.delete {
      DeletedOrigin(owner, desired, ReadAll(cfg, rrs), p, ep);
      if OwnedIn(owner, ReadAll(cfg, rrs), ep.dnsName) {
        OwnedIsClaimed(cfg, owner, z, rrs, ep.dnsName);
      } else {
        var m :| ep == OwnershipTXT(owner, m);
        YieldedMarker(cfg, owner, m, k);
        MarkersAtMarkerNames(m);
      }
    } else {
      var d, o := ReplacedOrigin(cfg, owner, z, desired, rrs, p, ep);
      BareFqdn(o.name);
    }
  }

  // ----- the effect on the zone -----

  lemma StepKeepsRest(z: Zone, op: Op, k: RRKey)
    requires op.key.name == k.name ==> op.key.data.TXT? && op.key != k
    ensures Lookup(Step(z, op), k) == Lookup(z, k)
  {
  }

  lemma {:induction false} RunKeepsRest(z: Zone, ops: seq<Op>, k: RRKey)
    requires forall op :: op in ops && op.key.name == k.name ==> op.key.data.TXT? && op.key != k
    ensures Lookup(Run(z, ops), k) == Lookup(z, k)
  {
    if ops != [] {
      RunKeepsRest(z, ops[..|ops| - 1], k);
      StepKeepsRest(Run(z, ops[..|ops| - 1]), ops[|ops| - 1], k);
    }
  }

  lemma StaysUnclaimed(cfg: Config, owner: string, z: Zone, desired: seq<Endpoint>, p: Changes, n: string)
    requires CycleOf(cfg, owner, z, desired, p) && n != "" && !Claimed(owner, z, n) && NotDesired(desired, n)
    ensures !Claimed(owner, Run(z, Message(cfg, p)), n)
  {
    if Claimed(owner, Run(z, Message(cfg, p)), n) {
      var k :| k in Run(z, Message(cfg, p)) && Claiming(owner, k, n);
      RunSource(z, Message(cfg, p), k);
      var op :| op in Message(cfg, p) && op.Insert? && op.key == k;
      NoClaimInserted(cfg, owner, z, desired, p, n, op);
    }
  }

  lemma NoClaimInserted(cfg: Config, owner: string, z: Zone, desired: seq<Endpoint>, p: Changes, n: string, op: Op)
    requires CycleOf(cfg, owner, z, desired, p) && n != "" && NotDesired(desired, n)
    requires op in Message(cfg, p) && op.Insert?
    ensures Bare(op.key.name) != OwnershipName(n)
  {
    var rrs :| Transfer(z, rrs) && IsPlan(owner, desired, ReadAll(cfg, rrs), p);
    var ep := MessageSource(cfg, p, op);
    InsertedEntry(cfg, owner, desired, ReadAll(cfg, rrs), p, ep, op.key);
    forall d | d in desired ensures Bare(OwnershipName(d.dnsName)) != OwnershipName(n) {
      MarkerElsewhere(d.dnsName, n);
    }
  }

  /** Everything at `n` is the same; only where markers go are markers of ours left out of account. */
  ghost predicate RecordsKept(owner: string, n: string, z: Zone, z': Zone) {
    forall k: RRKey :: Bare(k.name) == n && !(MarkerName(n) && k.data == TXT([OwnershipValue(owner)])) ==>
      Lookup(z', k) == Lookup(z, k)
  }

  /** One cycle leaves every record of a stranger's name alone and does not claim the name. */
  lemma StrangerUntouched(cfg: Config, owner: string, z: Zone, desired: seq<Endpoint>, p: Changes, n: string)
    requires CycleOf(cfg, owner, z, desired, p) && Stranger(owner, z, desired, n)
    ensures var z' := Run(z, Message(cfg, p));
            RecordsKept(owner, n, z, z') && !Claimed(owner, z', n)
  {
    StaysUnclaimed(cfg, owner, z, desired, p, n);
    forall k: RRKey | Bare(k.name) == n && !(MarkerName(n) && k.data == TXT([OwnershipValue(owner)]))
      ensures Lookup(Run(z, Message(cfg, p)), k) == Lookup(z, k)
    {
      forall op | op in Message(cfg, p) && op.key.name == k.name ensures op.key.data.TXT? && op.key != k {
        StrangerEntries(cfg, owner, z, desired, p, n, op);
      }
      RunKeepsRest(z, Message(cfg, p), k);
    }
  }

  // ----- whole runs -----

  /** A run with a desired set that may differ from cycle to cycle; a cycle takes effect or is lost. */
  ghost predicate DaemonRun(cfg: Config, owner: string, zs: seq<Zone>, ds: seq<seq<Endpoint>>) {
    |zs| == |ds| + 1 && forall i :: 0 <= i < |ds| ==> DaemonStep(cfg, owner, zs[i], ds[i], zs[i + 1])
  }

  ghost predicate DaemonStep(cfg: Config, owner: string, z: Zone, desired: seq<Endpoint>, z': Zone) {
    z' == z || exists p :: CycleOf(cfg, owner, z, desired, p) && z' == Run(z, Message(cfg, p))
  }

  /** `s` is the index key of a record, of some type, at name `m`. */
  predicate SlotAt(m: string, s: string) {
    || s == m + "|" + TYPE_A || s == m + "|" + TYPE_AAAA || s == m + "|" + TYPE_CNAME
    || (s == m + "|" + TYPE_TXT && !(OWNER_PREFIX <= m))
  }

  /** Some desired endpoint has an index key of the name. */
  ghost predicate KeyClash(desired: seq<Endpoint>, n: string) {
    exists d, m :: d in desired && Bare(m) == n && SlotAt(m, EpKey(d))
  }

  lemma NoClashAnywhere(owner: string, z: Zone, desired: seq<Endpoint>, n: string)
    requires !KeyClash(desired, n)
    ensures Unclashed(owner, z, desired, n)
  {
    forall k | k in z && IsRecord(k) && Bare(k.name) == n ensures Slot(k) !in Index(desired) {
      BareFqdn(k.name);
      InIndex(desired, Slot(k));
      assert SlotAt(NameOf(k), Slot(k));
    }
  }

  /** Safety over whole runs: a name that starts unclaimed, is never desired and shares no index key with a desired
      endpoint keeps all its records, whatever else is desired and whichever cycles are lost. */
  lemma {:induction false} SafeRun(cfg: Config, owner: string, zs: seq<Zone>, ds: seq<seq<Endpoint>>, n: string, i: nat)
    requires DaemonRun(cfg, owner, zs, ds) && i < |zs|
    requires n != "" && !Claimed(owner, zs[0], n)
    requires forall j :: 0 <= j < |ds| ==> NotDesired(ds[j], n) && !KeyClash(ds[j], n)
    ensures !Claimed(owner, zs[i], n) && RecordsKept(owner, n, zs[0], zs[i])
  {
    if i > 0 {
      var j := i - 1;
      SafeRun(cfg, owner, zs, ds, n, j);
      assert DaemonStep(cfg, owner, zs[j], ds[j], zs[j + 1]);
      SafeStep(cfg, owner, zs[j], ds[j], zs[i], n);
      KeptTwice(owner, n, zs[0], zs[j], zs[i]);
    }
  }

  lemma KeptTwice(owner: string, n: string, x: Zone, y: Zone, z: Zone)
    requires RecordsKept(owner, n, x, y) && RecordsKept(owner, n, y, z)
    ensures RecordsKept(owner, n, x, z)
  {
    forall k: RRKey | Bare(k.name) == n && !(MarkerName(n) && k.data == TXT([OwnershipValue(owner)]))
      ensures Lookup(z, k) == Lookup(x, k)
    {
      assert Lookup(y, k) == Lookup(x, k);
    }
  }

  lemma SafeStep(cfg: Config, owner: string, z: Zone, desired: seq<Endpoint>, z': Zone, n: string)
    requires DaemonStep(cfg, owner, z, desired, z')
    requires n != "" && !Claimed(owner, z, n) && NotDesired(desired, n) && !KeyClash(desired, n)
    ensures !Claimed(owner, z', n) && RecordsKept(owner, n, z, z')
  {
    NoClashAnywhere(owner, z, desired, n);
    if z' != z {
      var p :| CycleOf(cfg, owner, z, desired, p) && z' == Run(z, Message(cfg, p));
      StrangerUntouched(cfg, owner, z, desired, p, n);
    }
  }

  // ----- a key clash breaks it -----

  lemma {:induction false} OldIsRemoved(cfg: Config, olds: seq<Endpoint>, news: seq<Endpoint>, i: nat, k: RRKey)
    requires i < |olds| && YieldsKey(cfg, olds[i], k)
    ensures Remove(k) in UpdateOps(cfg, olds, news)
  {
    var n := |olds| - 1;
    if i < n {
      OldIsRemoved(cfg, olds[..n], news, i, k);
    } else {
      InRemoves(EndpointToRRs(cfg, olds[n]).value, Remove(k));
    }
  }

  lemma {:induction false} RemovedStaysAway(z: Zone, ops: seq<Op>, k: RRKey)
    requires Remove(k) in ops && forall op :: op in ops && op.Insert? ==> op.key != k
    ensures k !in Run(z, ops)
  {
    var n := |ops| - 1;
    if ops[n] != Remove(k) { RemovedStaysAway(z, ops[..n], k); }
  }

  /** The slot is held by `o` alone, and a desired endpoint has its key, at a name of ours, with other contents. */
  ghost predicate Clash(cfg: Config, owner: string, z: Zone, desired: seq<Endpoint>, o: RRKey) {
    && o in z && IsRecord(o) && (forall k :: k in z && IsRecord(k) && Slot(k) == Slot(o) ==> k == o)
    && Slot(o) in Index(desired) && Owned(owner, z, Index(desired)[Slot(o)].dnsName)
    && !SameRecord(Read(cfg, o, z[o]), Index(desired)[Slot(o)])
  }

  lemma ClashIsReplaced(cfg: Config, owner: string, z: Zone, desired: seq<Endpoint>, p: Changes, o: RRKey)
    requires CycleOf(cfg, owner, z, desired, p) && Clash(cfg, owner, z, desired, o)
    ensures Read(cfg, o, z[o]) in p.updateOld
  {
    var g := Goal(cfg, owner, Index(desired));
    var rrs :| Transfer(z, rrs) && IsPlan(owner, desired, ReadAll(cfg, rrs), p);
    var changed := PlanMeaning(owner, desired, ReadAll(cfg, rrs), p);
    SlotsSeen(g, z, rrs, Slot(o));
    var k := SlotHolder(g, z, rrs, Slot(o));
    OwnershipSeen(g, z, rrs, g.want[Slot(o)].dnsName);
    assert Slot(o) in changed;
    var i :| 0 <= i < |changed| && changed[i] == Slot(o);
    assert p.updateOld[i] == Read(cfg, o, z[o]);
  }

  /** Every plan then removes what the record is written as, though nobody asked for its name. */
  lemma ClashRemoves(cfg: Config, owner: string, z: Zone, desired: seq<Endpoint>, p: Changes, o: RRKey, k: RRKey)
    requires CycleOf(cfg, owner, z, desired, p) && Clash(cfg, owner, z, desired, o)
    requires YieldsKey(cfg, Read(cfg, o, z[o]), k) && NotDesired(desired, Bare(k.name))
    requires k.data != TXT([OwnershipValue(owner)])
    ensures k !in Run(z, Message(cfg, p))
  {
    ClashIsReplaced(cfg, owner, z, desired, p, o);
    var i :| 0 <= i < |p.updateOld| && p.updateOld[i] == Read(cfg, o, z[o]);
    OldIsRemoved(cfg, p.updateOld, p.updateNew, i, k);
    var rrs :| Transfer(z, rrs) && IsPlan(owner, desired, ReadAll(cfg, rrs), p);
    forall op | op in Message(cfg, p) && op.Insert? ensures op.key != k {
      var ep := MessageSource(cfg, p, op);
      InsertedEntry(cfg, owner, desired, ReadAll(cfg, rrs), p, ep, op.key);
    }
    RemovedStaysAway(z, Message(cfg, p), k);
  }

  /** Record data of each type that converts there and back. */
  function Sample(t: string): RData {
    if t == TYPE_A then A(Quad(0, 0, 0, 0))
    else if t == TYPE_AAAA then AAAA(V4(Quad(0, 0, 0, 0)))
    else if t == TYPE_CNAME then CNAME("x.")
    else TXT([""])
  }

  predicate TypeAt(n: string, t: string) {
    t == TYPE_A || t == TYPE_AAAA || t == TYPE_CNAME || (t == TYPE_TXT && !(OWNER_PREFIX <= n))
  }

  /** The record of a name that a key clash makes the daemon remove. */
  function SampleKey(n: string, t: string): RRKey { RRKey(Fqdn(n), Sample(t)) }

  lemma SampleFacts(n: string, t: string)
    requires !EndsWithDot(n) && TypeAt(n, t)
    ensures var o := SampleKey(n, t);
            && IsRecord(o) && Slot(o) == n + "|" + t && Legal(o.name) && NameOf(o) == n && LegalData(o.data)
            && SingleString(o.data) && (o.data.CNAME? <==> t == TYPE_CNAME)
  {
    TrimFqdn(n);
    assert Legal("x.");
  }

  lemma SampleClaimsNothing(owner: string, n: string, t: string)
    ensures !Claiming(owner, SampleKey(n, t), n) && Sample(t) != TXT([OwnershipValue(owner)])
  {
    assert OwnershipValue(owner) != "";
  }

  // ----- exactly when a name is safe -----

  /** What safety of the name means: in every zone a server can hold that does not claim it, every cycle keeps its
      records and leaves it unclaimed. */
  ghost predicate Safe(cfg: Config, owner: string, desired: seq<Endpoint>, n: string) {
    forall z, p :: WellFormed(z) && !Claimed(owner, z, n) && CycleOf(cfg, owner, z, desired, p) ==>
      RecordsKept(owner, n, z, Run(z, Message(cfg, p))) && !Claimed(owner, Run(z, Message(cfg, p)), n)
  }

  /** The endpoint that the index of desired endpoints holds under `s` has an index key of `n` and a name that can be
      ours. */
  predicate ClashesAt(desired: seq<Endpoint>, n: string, s: string) {
    s in Index(desired) && SlotAt(n, s) && Index(desired)[s].dnsName != "" && !EndsWithDot(Index(desired)[s].dnsName)
  }

  lemma BareRecordName(k: RRKey, n: string)
    requires IsRecord(k) && Legal(k.name) && Bare(k.name) == n
    ensures NameOf(k) == n && SlotAt(n, Slot(k))
  {
    BareFqdn(k.name);
    assert Bare(NameOf(k)) == NameOf(k);
  }

  lemma NoClashOnServers(owner: string, z: Zone, desired: seq<Endpoint>, n: string)
    requires WellFormed(z) && Bare(n) == n && forall s :: !ClashesAt(desired, n, s)
    ensures Unclashed(owner, z, desired, n)
  {
    forall k | k in z && IsRecord(k) && Bare(k.name) == n && Slot(k) in Index(desired)
      ensures !Owned(owner, z, Index(desired)[Slot(k)].dnsName)
    {
      BareRecordName(k, n);
      assert !ClashesAt(desired, n, Slot(k));
      if Owned(owner, z, Index(desired)[Slot(k)].dnsName) {
        OwnedNamesProper(owner, z, Index(desired)[Slot(k)].dnsName);
      }
    }
  }

  /** An index key cannot be made of a name and also of its marker name: the prefix would repeat without a bar. */
  lemma {:induction false} PrefixRepeats(m: string, u: string, t: string, j: nat)
    requires m + "|" + u == OWNER_PREFIX + m + "|" + t && j <= |m|
    ensures j < |m| ==> m[j] != '|'
    ensures j == |m| ==> j >= |OWNER_PREFIX| && m[j - |OWNER_PREFIX|] == '|'
  {
    var s, p := m + "|" + u, |OWNER_PREFIX|;
    assert s == OWNER_PREFIX + (m + "|" + t);
    assert j < |m| ==> s[j] == m[j];
    assert j == |m| ==> s[j] == '|';
    if j < p {
      assert s[j] == OWNER_PREFIX[j];
    } else {
      assert s[j] == (m + "|" + t)[j - p] == m[j - p];
      PrefixRepeats(m, u, t, j - p);
    }
  }

  lemma NotItsOwnMarker(m: string, u: string, n: string, t: string)
    requires m + "|" + u == n + "|" + t
    ensures n != OwnershipName(m)
  {
    if n == OwnershipName(m) {
      PrefixRepeats(m, u, t, |m|);
      PrefixRepeats(m, u, t, |m| - |OWNER_PREFIX|);
    }
  }

  lemma ClashZoneServed(owner: string, n: string, o: RRKey, c: RRKey, ttl: nat)
    requires Legal(o.name) && LegalData(o.data) && !Claiming(owner, o, n)
    requires Legal(c.name) && c.data.TXT? && !Claiming(owner, c, n) && o.name != c.name
    ensures var z := map[o := ttl, c := 300]; WellFormed(z) && !Claimed(owner, z, n)
  {
  }

  lemma ClashZoneClashes(cfg: Config, owner: string, desired: seq<Endpoint>, o: RRKey, c: RRKey, ttl: nat)
    requires IsRecord(o) && IsMarker(c) && Slot(o) in Index(desired)
    requires Claims(owner, c, Index(desired)[Slot(o)].dnsName) && ttl > 0 && ttl != Index(desired)[Slot(o)].ttl
    ensures Clash(cfg, owner, map[o := ttl, c := 300], desired, o)
  {
    var z := map[o := ttl, c := 300];
    assert c in z && o in z && z[o] == ttl;
  }

  lemma UnsafeZone(cfg: Config, owner: string, desired: seq<Endpoint>, n: string, z: Zone, o: RRKey)
    requires WellFormed(z) && !Claimed(owner, z, n) && NotDesired(desired, n) && Clash(cfg, owner, z, desired, o)
    requires Bare(o.name) == n && YieldsKey(cfg, Read(cfg, o, z[o]), o) && o.data != TXT([OwnershipValue(owner)])
    ensures !Safe(cfg, owner, desired, n)
  {
    var rrs := TransferExists(z);
    var p := PlanExists(owner, desired, ReadAll(cfg, rrs));
    assert CycleOf(cfg, owner, z, desired, p);
    ClashRemoves(cfg, owner, z, desired, p, o, o);
    assert Lookup(z, o) != None && Lookup(Run(z, Message(cfg, p)), o) == None;
  }

  /** Our marker of a name claims no other name. */
  lemma MarkerOfOther(owner: string, m: string, n: string)
    requires n != "" && Bare(m) != n
    ensures !Claiming(owner, MarkerKey(owner, m), n)
  {
    BareFqdn(OwnershipName(m));
    MarkerElsewhere(m, n);
  }

  lemma ClashIsUnsafe(cfg: Config, owner: string, desired: seq<Endpoint>, n: string, t: string)
    requires cfg.v6.Lawful() && n != "" && Bare(n) == n && NotDesired(desired, n) && TypeAt(n, t)
    requires ClashesAt(desired, n, n + "|" + t)
    ensures !Safe(cfg, owner, desired, n)
  {
    var s := n + "|" + t;
    InIndex(desired, s);
    var w := Index(desired)[s];
    SampleRecordReady(owner, n, t);
    SampleMarkerReady(owner, n, t, w);
    ClashZoneUnsafe(cfg, owner, desired, n, SampleKey(n, t), MarkerKey(owner, w.dnsName), if w.ttl == 1 then 2 else 1);
  }

  lemma SampleRecordReady(owner: string, n: string, t: string)
    requires n != "" && Bare(n) == n && TypeAt(n, t)
    ensures var o := SampleKey(n, t);
            && IsRecord(o) && Slot(o) == n + "|" + t && Legal(o.name) && LegalData(o.data) && SingleString(o.data)
            && Bare(o.name) == n && !Claiming(owner, o, n) && o.data != TXT([OwnershipValue(owner)])
  {
    BareHasNoDot(n);
    SampleFacts(n, t);
    SampleClaimsNothing(owner, n, t);
    BareFqdn(n);
  }

  lemma SampleMarkerReady(owner: string, n: string, t: string, w: Endpoint)
    requires n != "" && Bare(n) == n && Bare(w.dnsName) != n && EpKey(w) == n + "|" + t
    requires w.dnsName != "" && !EndsWithDot(w.dnsName)
    ensures var c := MarkerKey(owner, w.dnsName);
            && IsMarker(c) && Legal(c.name) && !Claiming(owner, c, n) && Claims(owner, c, w.dnsName)
            && c.name != SampleKey(n, t).name
  {
    MarkerKeyFacts(owner, w.dnsName);
    MarkerOfOther(owner, w.dnsName, n);
    BareHasNoDot(n);
    SampleOffMarker(owner, n, t, w);
  }

  lemma ClashZoneUnsafe(cfg: Config, owner: string, desired: seq<Endpoint>, n: string, o: RRKey, c: RRKey, ttl: nat)
    requires cfg.v6.Lawful() && NotDesired(desired, n) && Bare(o.name) == n && SingleString(o.data)
    requires IsRecord(o) && Legal(o.name) && LegalData(o.data) && !Claiming(owner, o, n) && Slot(o) in Index(desired)
    requires IsMarker(c) && Legal(c.name) && !Claiming(owner, c, n) && o.name != c.name
    requires Claims(owner, c, Index(desired)[Slot(o)].dnsName) && ttl > 0 && ttl != Index(desired)[Slot(o)].ttl
    requires o.data != TXT([OwnershipValue(owner)])
    ensures !Safe(cfg, owner, desired, n)
  {
    ClashZoneServed(owner, n, o, c, ttl);
    ClashZoneClashes(cfg, owner, desired, o, c, ttl);
    RewriteHitsIff(cfg, o, ttl);
    UnsafeZone(cfg, owner, desired, n, map[o := ttl, c := 300], o);
  }

  lemma SampleOffMarker(owner: string, n: string, t: string, w: Endpoint)
    requires EpKey(w) == n + "|" + t && !EndsWithDot(n) && w.dnsName != "" && !EndsWithDot(w.dnsName)
    ensures SampleKey(n, t).name != MarkerKey(owner, w.dnsName).name
  {
    NotItsOwnMarker(w.dnsName, w.recordType, n, t);
    TrimFqdn(n);
    MarkerKeyFacts(owner, w.dnsName);
  }

  lemma SlotTypeAt(n: string, s: string) returns (t: string)
    requires SlotAt(n, s)
    ensures TypeAt(n, t) && s == n + "|" + t
  {
    t := if s == n + "|" + TYPE_A then TYPE_A else if s == n + "|" + TYPE_AAAA then TYPE_AAAA
         else if s == n + "|" + TYPE_CNAME then TYPE_CNAME else TYPE_TXT;
  }

  /** A name that is not desired is safe exactly when no desired endpoint, of a name that can be ours, has one of its
      index keys. */
  lemma SafeIffNoClash(cfg: Config, owner: string, desired: seq<Endpoint>, n: string)
    requires cfg.v6.Lawful() && n != "" && Bare(n) == n && NotDesired(desired, n)
    ensures Safe(cfg, owner, desired, n) <==> forall s :: !ClashesAt(desired, n, s)
  {
    if s :| ClashesAt(desired, n, s) {
      var t := SlotTypeAt(n, s);
      ClashIsUnsafe(cfg, owner, desired, n, t);
    } else {
      forall z, p | WellFormed(z) && !Claimed(owner, z, n) && CycleOf(cfg, owner, z, desired, p)
        ensures RecordsKept(owner, n, z, Run(z, Message(cfg, p))) && !Claimed(owner, Run(z, Message(cfg, p)), n)
      {
        NoClashOnServers(owner, z, desired, n);
        StrangerUntouched(cfg, owner, z, desired, p, n);
      }
    }
  }

  /** Where types have no bar, and where the name has none, only the name's own endpoints have its keys. */
  lemma NoBarNoClash(desired: seq<Endpoint>, n: string)
    requires NotDesired(desired, n) && ('|' !in n || forall d :: d in desired ==> '|' !in d.recordType)
    ensures !KeyClash(desired, n)
  {
    forall d, m | d in desired && Bare(m) == n ensures !SlotAt(m, EpKey(d)) {
      BareHasBar(m);
      if SlotAt(m, EpKey(d)) {
        var t :| EpKey(d) == m + "|" + t && '|' !in t;
        OneBar(m, t, d.dnsName, d.recordType);
      }
    }
  }

  lemma {:induction false} BareHasBar(x: string)
    ensures '|' in x ==> '|' in Bare(x)
    decreases |x|
  {
    if EndsWithDot(x) {
      BareHasBar(TrimDot(x));
      assert x == TrimDot(x) + ".";
    }
  }

  // ----- what the plan cannot see -----

  lemma {:induction false} RunKeepsUnmentioned(z: Zone, ops: seq<Op>, k: RRKey)
    requires !k.data.CNAME? && forall op :: op in ops ==> op.key != k
    ensures Lookup(Run(z, ops), k) == Lookup(z, k)
  {
    if ops != [] { RunKeepsUnmentioned(z, ops[..|ops| - 1], k); }
  }

  /** A deleted endpoint is a record of the zone, or the marker of an owned name. */
  lemma DeletedRecord(cfg: Config, owner: string, z: Zone, desired: seq<Endpoint>, rrs: seq<RR>, p: Changes,
                      ep: Endpoint)
    requires Transfer(z, rrs) && IsPlan(owner, desired, ReadAll(cfg, rrs), p) && ep in p.delete
    ensures (exists k :: k in z && IsRecord(k) && ep == Read(cfg, k, z[k])) ||
            (exists n :: ep == OwnershipTXT(owner, n))
  {
    var c := CurrentIndex(ReadAll(cfg, rrs));
    var _ := PlanMeaning(owner, desired, ReadAll(cfg, rrs), p);
    var s :| s in c && (ep == c[s] || ep == OwnershipTXT(owner, c[s].dnsName));
    var k := SlotHolder(Goal(cfg, owner, Index(desired)), z, rrs, s);
  }

  lemma ForeignNotRemoved(cfg: Config, owner: string, z: Zone, desired: seq<Endpoint>, rrs: seq<RR>, p: Changes,
                          ep: Endpoint, k: RRKey)
    requires Transfer(z, rrs) && IsPlan(owner, desired, ReadAll(cfg, rrs), p) && WellFormed(z)
    requires (ep in p.delete || ep in p.updateOld) && YieldsKey(cfg, ep, k)
    ensures IsRecord(k) || k.data == TXT([OwnershipValue(owner)])
  {
    YieldsNoOther(cfg, ep, k);
    if ep in p.delete {
      DeletedRecord(cfg, owner, z, desired, rrs, p, ep);
      if o :| o in z && IsRecord(o) && ep == Read(cfg, o, z[o]) {
        RecordRemovesNoMarker(cfg, o, z[o], k);
      } else {
        var n :| ep == OwnershipTXT(owner, n);
        YieldedMarker(cfg, owner, n, k);
      }
    } else {
      var d, o := ReplacedOrigin(cfg, owner, z, desired, rrs, p, ep);
      RecordRemovesNoMarker(cfg, o, z[o], k);
    }
  }

  /** No desired TXT sits under the owner prefix. */
  ghost predicate NoDesiredMarkers(desired: seq<Endpoint>) {
    forall d :: d in desired && d.recordType == TYPE_TXT ==> !(OWNER_PREFIX <= TrimDot(d.dnsName))
  }

  lemma ForeignNotInserted(cfg: Config, owner: string, desired: seq<Endpoint>, current: seq<Endpoint>, p: Changes,
                           ep: Endpoint, k: RRKey)
    requires IsPlan(owner, desired, current, p) && (ep in p.create || ep in p.updateNew) && YieldsKey(cfg, ep, k)
    requires NoDesiredMarkers(desired)
    ensures IsRecord(k) || k.data == TXT([OwnershipValue(owner)])
  {
    YieldsNoOther(cfg, ep, k);
    CreatedOrigin(owner, desired, current, p, ep);
    if ep in desired {
      YieldedName(cfg, ep, k);
      YieldedType(cfg, ep, k);
      TrimOfFqdn(ep.dnsName);
    } else {
      var d :| d in desired && ep == OwnershipTXT(owner, d.dnsName);
      YieldedMarker(cfg, owner, d.dnsName, k);
    }
  }

  lemma TrimOfFqdn(x: string)
    ensures TrimDot(Fqdn(x)) == TrimDot(x)
  {
    if !EndsWithDot(x) { TrimFqdn(x); }
  }

  /** Whatever is neither a supported record nor a marker of our value alone survives every message of every plan: other
      types, and other owners' markers.  Nothing else is asked of the zone or of the desired endpoints. */
  lemma ForeignUntouched(cfg: Config, owner: string, z: Zone, desired: seq<Endpoint>, p: Changes, k: RRKey)
    requires WellFormed(z) && NoDesiredMarkers(desired) && CycleOf(cfg, owner, z, desired, p)
    requires !IsRecord(k) && k.data != TXT([OwnershipValue(owner)])
    ensures Lookup(Run(z, Message(cfg, p)), k) == Lookup(z, k)
  {
    var rrs :| Transfer(z, rrs) && IsPlan(owner, desired, ReadAll(cfg, rrs), p);
    forall op | op in Message(cfg, p) ensures op.key != k {
      var ep := MessageSource(cfg, p, op);
      if op.Insert? {
        ForeignNotInserted(cfg, owner, desired, ReadAll(cfg, rrs), p, ep, op.key);
      } else {
        ForeignNotRemoved(cfg, owner, z, desired, rrs, p, ep, op.key);
      }
    }
    RunKeepsUnmentioned(z, Message(cfg, p), k);
  }
}
