/** The three phases of a message in closed form: removals, replacement pairs, insertions. */
module Phases {
  import opened Text
  import opened Dns

  lemma {:induction false} RunRemovals(z: Zone, ops: seq<Op>, k: RRKey)
    requires forall op :: op in ops ==> op.Remove?
    ensures Lookup(Run(z, ops), k) == if Remove(k) in ops then None else Lookup(z, k)
  {
    if ops != [] {
      var n := |ops| - 1;
      RunRemovals(z, ops[..n], k);
      assert ops == ops[..n] + [ops[n]];
    }
  }

  // ----- insertions -----

  /** Two insertions at one name are the same, or are two different records neither of which is a CNAME. */
  ghost predicate Compatible(a: Op, b: Op) {
    a.key.name == b.key.name ==> a == b || (!a.key.data.CNAME? && !b.key.data.CNAME? && a.key != b.key)
  }

  ghost predicate Insertable(z: Zone, ops: seq<Op>) {
    && (forall op :: op in ops ==> op.Insert? && (op.key.data.CNAME? ==> !HasCname(z, op.key.name)))
    && (forall a, b :: a in ops && b in ops ==> Compatible(a, b))
  }

  ghost predicate Lands(z: Zone, ops: seq<Op>, k: RRKey, ttl: nat) {
    Insert(k, ttl) in ops && !Refused(z, k)
  }

  ghost predicate Landed(z: Zone, ops: seq<Op>, y: Zone) {
    && (forall k, ttl: nat :: Lands(z, ops, k, ttl) ==> Lookup(y, k) == Some(ttl))
    && (forall k :: (forall ttl :: !Lands(z, ops, k, ttl)) ==> Lookup(y, k) == Lookup(z, k))
  }

  /** A key that no insertion compatible with `op` can carry is left as it was. */
  lemma Undisturbed(z: Zone, ops: seq<Op>, y: Zone, op: Op, k: RRKey)
    requires Landed(z, ops, y) && op.Insert?
    requires forall a :: a in ops ==> Compatible(a, op)
    requires k.name == op.key.name && (k != op.key || op !in ops) && (k.data.CNAME? || op.key.data.CNAME?)
    requires k == op.key ==> forall a :: a in ops ==> a.key != k
    ensures Lookup(y, k) == Lookup(z, k)
  {
    forall ttl: nat ensures !Lands(z, ops, k, ttl) {
      assert Insert(k, ttl) in ops ==> Compatible(Insert(k, ttl), op);
    }
  }

  lemma RefusalUnchanged(z: Zone, ops: seq<Op>, y: Zone, op: Op)
    requires Landed(z, ops, y) && op.Insert?
    requires forall a :: a in ops ==> Compatible(a, op)
    requires op !in ops
    ensures Refused(y, op.key) == Refused(z, op.key)
    ensures op.key.data.CNAME? ==> HasCname(y, op.key.name) == HasCname(z, op.key.name)
  {
    forall k: RRKey | k.name == op.key.name && (k.data.CNAME? || op.key.data.CNAME?) ensures k in y <==> k in z {
      assert forall a :: a in ops && a.key == k ==> Compatible(a, op);
      Undisturbed(z, ops, y, op, k);
    }
  }

  lemma InsertOne(z: Zone, ops: seq<Op>, y: Zone, op: Op)
    requires Insertable(z, ops + [op]) && Landed(z, ops, y)
    ensures Landed(z, ops + [op], Step(y, op))
  {
    var all := ops + [op];
    assert op in all && forall a :: a in ops ==> a in all;
    if op in ops {
      RepeatedInsert(z, ops, y, op);
      forall k, ttl: nat ensures Lands(z, all, k, ttl) <==> Lands(z, ops, k, ttl) {}
    } else {
      RefusalUnchanged(z, ops, y, op);
      assert op.key.data.CNAME? ==> CnamesAt(y, op.key.name) == {};
      forall k, ttl: nat
        ensures Lands(z, all, k, ttl) <==> Lands(z, ops, k, ttl) || (op == Insert(k, ttl) && !Refused(z, k))
      {}
      forall k, ttl: nat | Lands(z, all, k, ttl) ensures Lookup(Step(y, op), k) == Some(ttl) {
        if Lands(z, ops, k, ttl) { assert Compatible(Insert(k, ttl), op); }
      }
      forall k | forall ttl :: !Lands(z, all, k, ttl) ensures Lookup(Step(y, op), k) == Lookup(z, k) {
        forall ttl ensures !Lands(z, ops, k, ttl) { assert !Lands(z, all, k, ttl); }
        assert !Lands(z, all, op.key, op.ttl) || k != op.key;
      }
    }
  }

  lemma RepeatedInsert(z: Zone, ops: seq<Op>, y: Zone, op: Op)
    requires Insertable(z, ops) && Landed(z, ops, y) && op in ops
    ensures Step(y, op) == y
  {
    var k := op.key;
    if !Refused(z, k) {
      assert Lands(z, ops, k, op.ttl);
      assert Lookup(y, k) == Some(op.ttl);
      if k.data.CNAME? {
        forall k' | k' in y && k'.name == k.name && k'.data.CNAME? ensures k' == k {
          assert k' != k ==> Lookup(y, k') == Lookup(z, k') by {
            if k' != k { Undisturbed(z, ops, y, op, k'); }
          }
        }
        assert CnamesAt(y, k.name) == {k};
      }
    } else {
      assert Refused(y, k) by { RefusalKept(z, ops, y, op); }
    }
  }

  lemma RefusalKept(z: Zone, ops: seq<Op>, y: Zone, op: Op)
    requires Insertable(z, ops) && Landed(z, ops, y) && op in ops && Refused(z, op.key)
    ensures Refused(y, op.key)
  {
    var k :| k in z && k.name == op.key.name && (k.data.CNAME? <==> !op.key.data.CNAME?);
    Undisturbed(z, ops, y, op, k);
  }

  /** Insertions that do not disturb each other: each lands unless the zone before them refuses it. */
  lemma {:induction false} RunInsertions(z: Zone, ops: seq<Op>)
    requires Insertable(z, ops)
    ensures Landed(z, ops, Run(z, ops))
  {
    if ops != [] {
      var n := |ops| - 1;
      assert ops == ops[..n] + [ops[n]];
      RunInsertions(z, ops[..n]);
      InsertOne(z, ops[..n], Run(z, ops[..n]), ops[n]);
    }
  }

  // ----- replacement pairs -----

  function PairOps(olds: seq<RRKey>, news: seq<RR>): seq<Op>
    requires |olds| == |news|
  {
    if olds == [] then []
    else
      var n := |olds| - 1;
      PairOps(olds[..n], news[..n]) + [Remove(olds[n]), Insert(news[n].key, news[n].ttl)]
  }

  /** Each pair replaces a record of the zone by one of the same name and kind, and no two pairs meet. */
  ghost predicate Replacements(z: Zone, olds: seq<RRKey>, news: seq<RR>) {
    && |olds| == |news|
    && (forall i :: 0 <= i < |olds| ==>
        olds[i] in z && olds[i].name == news[i].key.name && olds[i].data.CNAME? == news[i].key.data.CNAME?)
    && (forall i, j :: 0 <= i < |olds| && 0 <= j < |olds| && i != j ==>
          olds[i] != olds[j] && olds[i] != news[j].key && news[i].key != news[j].key)
  }

  ghost predicate Replaced(z: Zone, olds: seq<RRKey>, news: seq<RR>, y: Zone)
    requires |olds| == |news|
  {
    && (forall i :: 0 <= i < |news| ==> Lookup(y, news[i].key) == Some(news[i].ttl))
    && (forall k :: k in olds && (forall i :: 0 <= i < |news| ==> news[i].key != k) ==> Lookup(y, k) == None)
    && (forall k :: k !in olds && (forall i :: 0 <= i < |news| ==> news[i].key != k) ==> Lookup(y, k) == Lookup(z, k))
  }

  /** A record found after the first pairs has the name and kind of a record of the original zone. */
  lemma Ancestor(z: Zone, olds: seq<RRKey>, news: seq<RR>, y: Zone, k: RRKey) returns (a: RRKey)
    requires Replacements(z, olds, news) && Replaced(z, olds, news, y) && k in y
    ensures a in z && a.name == k.name && a.data.CNAME? == k.data.CNAME?
    ensures a == k || exists i :: 0 <= i < |olds| && a == olds[i] && news[i].key == k
    ensures a == k ==> a !in olds || exists i :: 0 <= i < |olds| && news[i].key == k
  {
    if i :| 0 <= i < |news| && news[i].key == k {
      a := olds[i];
    } else {
      assert Lookup(y, k) != None;
      a := k;
    }
  }

  lemma PairAccepted(z: Zone, olds: seq<RRKey>, news: seq<RR>, y: Zone)
    requires CnameExclusive(z) && Replacements(z, olds, news) && olds != []
    requires var n := |olds| - 1; Replaced(z, olds[..n], news[..n], y)
    ensures var n := |olds| - 1;
            var y' := y - {olds[n]};
            !Refused(y', news[n].key) && (news[n].key.data.CNAME? ==> CnamesAt(y', news[n].key.name) == {})
  {
    var n := |olds| - 1;
    var y' := y - {olds[n]};
    forall k | k in y' && k.name == news[n].key.name ensures !k.data.CNAME? && !news[n].key.data.CNAME? {
      assert Replacements(z, olds[..n], news[..n]);
      var a := Ancestor(z, olds[..n], news[..n], y, k);
      assert a != olds[n];
    }
  }

  lemma ReplaceOne(z: Zone, olds: seq<RRKey>, news: seq<RR>, y: Zone)
    requires CnameExclusive(z) && Replacements(z, olds, news) && olds != []
    requires var n := |olds| - 1; Replaced(z, olds[..n], news[..n], y)
    ensures var n := |olds| - 1;
            Replaced(z, olds, news, Step(Step(y, Remove(olds[n])), Insert(news[n].key, news[n].ttl)))
  {
    var n := |olds| - 1;
    PairAccepted(z, olds, news, y);
    var y' := y - {olds[n]};
    var r := y'[news[n].key := news[n].ttl];
    assert y' - {} == y';
    assert r == Step(Step(y, Remove(olds[n])), Insert(news[n].key, news[n].ttl));
    forall i | 0 <= i < |news| ensures Lookup(r, news[i].key) == Some(news[i].ttl) {
      if i < n { assert news[..n][i] == news[i]; assert Lookup(y, news[i].key) == Some(news[i].ttl); }
    }
    forall k | forall i :: 0 <= i < |news| ==> news[i].key != k
      ensures Lookup(r, k) == if k in olds then None else Lookup(z, k)
    {
      assert news[n].key != k;
      assert forall i :: 0 <= i < |news[..n]| ==> news[..n][i].key != k;
      assert k in olds <==> k in olds[..n] || k == olds[n];
    }
  }

  lemma {:induction false} RunReplacements(z: Zone, olds: seq<RRKey>, news: seq<RR>)
    requires CnameExclusive(z) && Replacements(z, olds, news)
    ensures Replaced(z, olds, news, Run(z, PairOps(olds, news)))
  {
    if olds != [] {
      var n := |olds| - 1;
      assert Replacements(z, olds[..n], news[..n]);
      RunReplacements(z, olds[..n], news[..n]);
      var before := PairOps(olds[..n], news[..n]);
      var tail := [Remove(olds[n]), Insert(news[n].key, news[n].ttl)];
      RunConcat(z, before, tail);
      RunTwo(Run(z, before), tail[0], tail[1]);
      ReplaceOne(z, olds, news, Run(z, before));
    }
  }

  lemma RunTwo(z: Zone, a: Op, b: Op)
    ensures Run(z, [a, b]) == Step(Step(z, a), b)
  {
    assert [a, b][..1] == [a];
    assert [a][..0] == [];
    assert Run(z, [a]) == Step(Run(z, []), a);
  }
}
