/** A DNS zone and the effect of an UPDATE message on it, as section 3.4.2 of RFC 2136 defines it. */
module Dns {
  import opened Text
  import opened Addresses

  datatype RData =
    | A(addr: Quad)
    | AAAA(ip: Ip)
    | CNAME(target: string)
    | TXT(strings: seq<string>)
    | Other(rrtype: nat, rdata: string)   // SOA, NS, MX, ...: never converted to an endpoint

  /** What identifies a resource record: owner name (with its final dot), type and data. */
  datatype RRKey = RRKey(name: string, data: RData)

  datatype RR = RR(key: RRKey, ttl: nat)

  /** The records of a zone with their TTLs. */
  type Zone = map<RRKey, nat>

  /** One entry of the update section; a removal names one exact record and carries no TTL. */
  datatype Op = Remove(key: RRKey) | Insert(key: RRKey, ttl: nat)

  predicate HasCname(z: Zone, name: string) {
    exists k :: k in z && k.name == name && k.data.CNAME?
  }

  predicate HasNonCname(z: Zone, name: string) {
    exists k :: k in z && k.name == name && !k.data.CNAME?
  }

  /** Section 3.4.2.2: a CNAME is not added beside other types, nor another type beside a CNAME. */
  predicate Refused(z: Zone, k: RRKey) {
    if k.data.CNAME? then HasNonCname(z, k.name) else HasCname(z, k.name)
  }

  function CnamesAt(z: Zone, name: string): set<RRKey> {
    set k | k in z && k.name == name && k.data.CNAME?
  }

  /** One update entry: a removal deletes the exact record; an insertion replaces equal data, and any CNAME. */
  function Step(z: Zone, op: Op): Zone {
    match op
    case Remove(k) => z - {k}
    case Insert(k, ttl) =>
      if Refused(z, k) then z
      else if k.data.CNAME? then (z - CnamesAt(z, k.name))[k := ttl]
      else z[k := ttl]
  }

  /** An accepted UPDATE message: its entries in order. */
  function Run(z: Zone, ops: seq<Op>): Zone {
    if ops == [] then z else Step(Run(z, ops[..|ops| - 1]), ops[|ops| - 1])
  }

  /** A zone transfer: every record of the zone, in any order; repetitions (the SOA) are allowed. */
  ghost predicate Transfer(z: Zone, rrs: seq<RR>) {
    && (forall rr :: rr in rrs ==> rr.key in z && z[rr.key] == rr.ttl)
    && (forall k :: k in z ==> RR(k, z[k]) in rrs)
  }

  /** A name that holds a CNAME holds nothing else (section 3.6.2 of RFC 1034). */
  ghost predicate CnameExclusive(z: Zone) {
    forall k, k' :: k in z && k' in z && k.name == k'.name && k.data.CNAME? ==> k == k'
  }

  predicate LegalData(d: RData) {
    d.CNAME? ==> Legal(d.target)
  }

  /** What every server keeps: absolute names and CNAME exclusivity. */
  ghost predicate WellFormed(z: Zone) {
    && (forall k :: k in z ==> Legal(k.name) && LegalData(k.data))
    && CnameExclusive(z)
  }

  function Lookup(z: Zone, k: RRKey): Option<nat> {
    if k in z then Some(z[k]) else None
  }

  lemma SameLookupsSameZone(y: Zone, z: Zone)
    requires forall k :: Lookup(y, k) == Lookup(z, k)
    ensures y == z
  {
    forall k ensures k in y <==> k in z { assert Lookup(y, k) == Lookup(z, k); }
    forall k | k in y ensures y[k] == z[k] { assert Lookup(y, k) == Lookup(z, k); }
    assert y.Keys == z.Keys;
  }

  /** Some record at the name of `k` may not stand beside it. */
  ghost predicate Conflicts(z: Zone, k: RRKey) {
    exists o :: o in z && o.name == k.name && o.data.CNAME? != k.data.CNAME?
  }

  /** One entry, record by record: a removal takes the exact record; an insertion that conflicts with nothing puts its
      record there, in place of another CNAME of the name if it is a CNAME. */
  lemma StepLookup(z: Zone, op: Op, k: RRKey)
    ensures Lookup(Step(z, op), k) ==
            match op
            case Remove(o) => if k == o then None else Lookup(z, k)
            case Insert(o, ttl) =>
              if Conflicts(z, o) then Lookup(z, k)
              else if k == o then Some(ttl)
              else if o.data.CNAME? && k.data.CNAME? && k.name == o.name then None
              else Lookup(z, k)
  {
    assert op.Insert? ==> (Conflicts(z, op.key) <==> Refused(z, op.key));
  }

  lemma {:induction false} RunConcat(z: Zone, xs: seq<Op>, ys: seq<Op>)
    ensures Run(z, xs + ys) == Run(Run(z, xs), ys)
  {
    if ys == [] {
      assert xs + ys == xs;
    } else {
      var n := |ys| - 1;
      RunConcat(z, xs, ys[..n]);
      assert (xs + ys)[..|xs + ys| - 1] == xs + ys[..n];
    }
  }

  lemma StepKeepsWellFormed(z: Zone, op: Op)
    requires WellFormed(z)
    requires op.Insert? ==> Legal(op.key.name) && LegalData(op.key.data)
    ensures WellFormed(Step(z, op))
  {
    match op
    case Remove(k) =>
    case Insert(k, ttl) => InsertKeepsWellFormed(z, k, ttl);
  }

  lemma InsertKeepsWellFormed(z: Zone, k: RRKey, ttl: nat)
    requires WellFormed(z) && Legal(k.name) && LegalData(k.data)
    ensures WellFormed(Step(z, Insert(k, ttl)))
  {
    if !Refused(z, k) {
      var rest := if k.data.CNAME? then z - CnamesAt(z, k.name) else z;
      forall o | o in rest && o.name == k.name ensures !o.data.CNAME? && !k.data.CNAME? {}
      assert Step(z, Insert(k, ttl)) == rest[k := ttl];
    }
  }

  /** Every accepted message keeps the zone well formed. */
  lemma {:induction false} RunKeepsWellFormed(z: Zone, ops: seq<Op>)
    requires WellFormed(z)
    requires forall op :: op in ops && op.Insert? ==> Legal(op.key.name) && LegalData(op.key.data)
    ensures WellFormed(Run(z, ops))
  {
    if ops != [] {
      RunKeepsWellFormed(z, ops[..|ops| - 1]);
      StepKeepsWellFormed(Run(z, ops[..|ops| - 1]), ops[|ops| - 1]);
    }
  }

  lemma {:induction false} RunSource(z: Zone, ops: seq<Op>, k: RRKey)
    requires k in Run(z, ops) && k !in z
    ensures exists op :: op in ops && op.Insert? && op.key == k
  {
    var n := |ops| - 1;
    if k in Run(z, ops[..n]) {
      RunSource(z, ops[..n], k);
      assert forall op :: op in ops[..n] ==> op in ops;
    } else {
      assert ops[n] in ops;
    }
  }

  // ----- an update sees and changes only the names it mentions -----

  ghost predicate AgreeOn(s: iset<string>, y: Zone, z: Zone) {
    forall k: RRKey {:trigger Lookup(y, k)} {:trigger Lookup(z, k)} :: k.name in s ==> Lookup(y, k) == Lookup(z, k)
  }

  ghost predicate AgreeOutside(s: iset<string>, y: Zone, z: Zone) {
    forall k: RRKey {:trigger Lookup(y, k)} {:trigger Lookup(z, k)} :: k.name !in s ==> Lookup(y, k) == Lookup(z, k)
  }

  ghost predicate TouchesOnly(s: iset<string>, ops: seq<Op>) {
    forall op :: op in ops ==> op.key.name in s
  }

  lemma StepIsLocal(s: iset<string>, y: Zone, z: Zone, op: Op)
    requires op.key.name in s && AgreeOn(s, y, z)
    ensures AgreeOn(s, Step(y, op), Step(z, op)) && AgreeOutside(s, Step(y, op), y)
  {
    forall k: RRKey | k.name in s ensures k in y <==> k in z {
      assert Lookup(y, k) == Lookup(z, k);
    }
    assert Refused(y, op.key) == Refused(z, op.key);
    assert CnamesAt(y, op.key.name) == CnamesAt(z, op.key.name);
    forall k: RRKey | k.name in s ensures Lookup(Step(y, op), k) == Lookup(Step(z, op), k) {
      assert Lookup(y, k) == Lookup(z, k);
    }
  }

  lemma {:induction false} RunIsLocal(s: iset<string>, y: Zone, z: Zone, ops: seq<Op>)
    requires TouchesOnly(s, ops) && AgreeOn(s, y, z)
    ensures AgreeOn(s, Run(y, ops), Run(z, ops)) && AgreeOutside(s, Run(y, ops), y)
  {
    if ops != [] {
      var n := |ops| - 1;
      RunIsLocal(s, y, z, ops[..n]);
      StepIsLocal(s, Run(y, ops[..n]), Run(z, ops[..n]), ops[n]);
      forall k: RRKey | k.name !in s ensures Lookup(Run(y, ops), k) == Lookup(y, k) {
        assert Lookup(Step(Run(y, ops[..n]), ops[n]), k) == Lookup(Run(y, ops[..n]), k);
      }
    }
  }

  // ----- the part of a message at some names -----

  ghost function KeepOps(s: iset<string>, ops: seq<Op>): seq<Op> {
    if ops == [] then []
    else
      var n := |ops| - 1;
      if ops[n].key.name in s then KeepOps(s, ops[..n]) + [ops[n]] else KeepOps(s, ops[..n])
  }

  lemma {:induction false} KeepConcat(s: iset<string>, a: seq<Op>, b: seq<Op>)
    ensures KeepOps(s, a + b) == KeepOps(s, a) + KeepOps(s, b)
  {
    if b == [] {
      assert a + b == a;
    } else {
      var n := |b| - 1;
      KeepConcat(s, a, b[..n]);
      assert (a + b)[..|a + b| - 1] == a + b[..n];
    }
  }

  lemma {:induction false} KeepAllOrNone(s: iset<string>, ops: seq<Op>, name: string)
    requires forall op :: op in ops ==> op.key.name == name
    ensures KeepOps(s, ops) == if name in s then ops else []
  {
    if ops != [] {
      var n := |ops| - 1;
      KeepAllOrNone(s, ops[..n], name);
      assert ops == ops[..n] + [ops[n]];
    }
  }

  lemma {:induction false} RunPart(s: iset<string>, y: Zone, z: Zone, ops: seq<Op>)
    requires AgreeOn(s, y, z)
    ensures AgreeOn(s, Run(y, ops), Run(z, KeepOps(s, ops))) && AgreeOutside(s, Run(z, KeepOps(s, ops)), z)
  {
    if ops != [] {
      var n := |ops| - 1;
      RunPart(s, y, z, ops[..n]);
      var y', z' := Run(y, ops[..n]), Run(z, KeepOps(s, ops[..n]));
      if ops[n].key.name in s {
        StepIsLocal(s, y', z', ops[n]);
        StepIsLocal(s, z', z', ops[n]);
        RunSnoc(z, KeepOps(s, ops[..n]), ops[n]);
        AgreeOutsideChain(s, Step(z', ops[n]), z', z);
      } else {
        StepElsewhere(s, y', ops[n]);
        AgreeOnChain(s, Step(y', ops[n]), y', z');
      }
    }
  }

  lemma RunSnoc(z: Zone, ops: seq<Op>, op: Op)
    ensures Run(z, ops + [op]) == Step(Run(z, ops), op)
  {
    assert (ops + [op])[..|ops|] == ops;
  }

  lemma StepElsewhere(s: iset<string>, z: Zone, op: Op)
    requires op.key.name !in s
    ensures AgreeOn(s, Step(z, op), z)
  {
    StepIsLocal(iset{op.key.name}, z, z, op);
    forall k: RRKey | k.name in s ensures Lookup(Step(z, op), k) == Lookup(z, k) {
      assert k.name !in iset{op.key.name};
    }
  }

  lemma AgreeOnChain(s: iset<string>, x: Zone, y: Zone, z: Zone)
    requires AgreeOn(s, x, y) && AgreeOn(s, y, z)
    ensures AgreeOn(s, x, z)
  {
    forall k: RRKey | k.name in s ensures Lookup(x, k) == Lookup(z, k) { assert Lookup(x, k) == Lookup(y, k); }
  }

  lemma AgreeOutsideChain(s: iset<string>, x: Zone, y: Zone, z: Zone)
    requires AgreeOutside(s, x, y) && AgreeOutside(s, y, z)
    ensures AgreeOutside(s, x, z)
  {
    forall k: RRKey | k.name !in s ensures Lookup(x, k) == Lookup(z, k) { assert Lookup(x, k) == Lookup(y, k); }
  }

  /** The entry does nothing to the zone: a refused insertion, or the removal of nothing. */
  predicate Inert(z: Zone, op: Op) {
    if op.Insert? then Refused(z, op.key) else op.key !in z
  }

  /** Names at which a message has only inert entries stay as they are. */
  lemma {:induction false} RunInertAt(s: iset<string>, z: Zone, ops: seq<Op>)
    requires forall op :: op in ops && op.key.name in s ==> Inert(z, op)
    ensures AgreeOn(s, Run(z, ops), z)
  {
    if ops != [] {
      var n := |ops| - 1;
      RunInertAt(s, z, ops[..n]);
      var y := Run(z, ops[..n]);
      if ops[n].key.name in s {
        StepIsLocal(s, y, z, ops[n]);
        assert Step(z, ops[n]) == z;
      } else {
        StepElsewhere(s, y, ops[n]);
        AgreeOnChain(s, Step(y, ops[n]), y, z);
      }
    }
  }

  // ----- transfers -----

  lemma {:induction false} TransferExists(z: Zone) returns (rrs: seq<RR>)
    ensures Transfer(z, rrs)
    decreases |z|
  {
    if z == map[] {
      rrs := [];
    } else {
      var k :| k in z;
      var rest := z - {k};
      assert |rest| < |z| by { assert z.Keys == rest.Keys + {k}; }
      rrs := TransferExists(rest);
      rrs := rrs + [RR(k, z[k])];
      forall j | j in z ensures RR(j, z[j]) in rrs {
        if j != k { assert j in rest && RR(j, rest[j]) in rrs; }
      }
    }
  }
}
