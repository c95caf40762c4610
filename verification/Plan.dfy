/** The diff engine (pkg/plan/plan.go).  Go walks its two index maps in an unspecified order; a plan is
    therefore specified for every order. */
module Plan {
  import opened Endpoints
  import opened Provider

  const OWNER_PREFIX: string := "external-dns-docker-owner."
  const OWNER_VALUE_PREFIX: string := "heritage=external-dns-docker,external-dns-docker/owner="
  const OWNER_TTL: int := 300
  const DEFAULT_OWNER_ID: string := "external-dns-docker"

  function OwnershipValue(owner: string): string { OWNER_VALUE_PREFIX + owner }

  function OwnershipName(dnsName: string): string { OWNER_PREFIX + dnsName }

  function OwnershipTXT(owner: string, dnsName: string): Endpoint {
    NewEndpoint(OwnershipName(dnsName), [OwnershipValue(owner)], TYPE_TXT, OWNER_TTL)
  }

  predicate IsOwnershipTXT(ep: Endpoint) {
    ep.recordType == TYPE_TXT && OWNER_PREFIX <= ep.dnsName
  }

  predicate Marks(owner: string, ep: Endpoint, dnsName: string) {
    IsOwnershipTXT(ep) && ep.dnsName[|OWNER_PREFIX|..] == dnsName && OwnershipValue(owner) in ep.targets
  }

  ghost predicate OwnedIn(owner: string, eps: seq<Endpoint>, dnsName: string) {
    exists ep :: ep in eps && Marks(owner, ep, dnsName)
  }

  method BuildOwnedSet(owner: string, current: seq<Endpoint>) returns (owned: set<string>)
    ensures forall n :: n in owned <==> OwnedIn(owner, current, n)
  {
    owned := {};
    for i := 0 to |current|
      invariant forall n :: n in owned <==> OwnedIn(owner, current[..i], n)
    {
      var ep := current[i];
      assert current[..i + 1] == current[..i] + [ep];
      ghost var before := owned;
      if IsOwnershipTXT(ep) {
        var managed := ep.dnsName[|OWNER_PREFIX|..];
        for j := 0 to |ep.targets|
          invariant OwnershipValue(owner) !in ep.targets[..j]
          invariant owned == before
        {
          if ep.targets[j] == OwnershipValue(owner) {
            owned := owned + {managed};
            break;
          }
        }
        assert OwnershipValue(owner) in ep.targets <==> owned == before + {managed} && Marks(owner, ep, managed);
      }
      forall n
        ensures OwnedIn(owner, current[..i + 1], n) <==> OwnedIn(owner, current[..i], n) || Marks(owner, ep, n)
      {}
    }
    assert current[..|current|] == current;
  }

  function WithoutOwnership(eps: seq<Endpoint>): seq<Endpoint> {
    if eps == [] then []
    else
      var before := WithoutOwnership(eps[..|eps| - 1]);
      if IsOwnershipTXT(eps[|eps| - 1]) then before else before + [eps[|eps| - 1]]
  }

  lemma {:induction false} InWithoutOwnership(eps: seq<Endpoint>, ep: Endpoint)
    ensures ep in WithoutOwnership(eps) <==> ep in eps && !IsOwnershipTXT(ep)
  {
    if eps != [] {
      var n := |eps| - 1;
      InWithoutOwnership(eps[..n], ep);
      assert eps == eps[..n] + [eps[n]];
    }
  }

  /** One endpoint after the other, each kept or left out. */
  lemma {:induction false} WithoutOwnershipInOrder(a: seq<Endpoint>, b: seq<Endpoint>, ep: Endpoint)
    ensures WithoutOwnership(a + b) == WithoutOwnership(a) + WithoutOwnership(b)
    ensures WithoutOwnership([ep]) == if IsOwnershipTXT(ep) then [] else [ep]
  {
    assert [ep][..0] == [];
    if b == [] {
      assert a + b == a;
    } else {
      var n := |b| - 1;
      WithoutOwnershipInOrder(a, b[..n], ep);
      assert (a + b)[..|a + b| - 1] == a + b[..n];
    }
  }

  function EpKey(ep: Endpoint): string { ep.dnsName + "|" + ep.recordType }

  /** The index key identifies name and type as long as types contain no bar. */
  lemma EpKeyInjective(n: string, t: string, n': string, t': string)
    requires n + "|" + t == n' + "|" + t' && '|' !in t && '|' !in t'
    ensures n == n' && t == t'
  {
    var s := n + "|" + t;
    assert s[|n|] == '|' && s[|n'|] == '|';
    assert |n| == |n'|;
    assert n == s[..|n|] && n' == s[..|n|];
    assert t == s[|n| + 1..] && t' == s[|n| + 1..];
  }

  /** The last endpoint of a key wins. */
  function Index(eps: seq<Endpoint>): map<string, Endpoint> {
    if eps == [] then map[]
    else Index(eps[..|eps| - 1])[EpKey(eps[|eps| - 1]) := eps[|eps| - 1]]
  }

  lemma {:induction false} InIndex(eps: seq<Endpoint>, s: string)
    ensures s in Index(eps) <==> exists ep :: ep in eps && EpKey(ep) == s
    ensures s in Index(eps) ==> Index(eps)[s] in eps && EpKey(Index(eps)[s]) == s
  {
    if eps != [] {
      var n := |eps| - 1;
      InIndex(eps[..n], s);
      assert eps == eps[..n] + [eps[n]];
    }
  }

  /** Of several endpoints with one key the last is indexed. */
  lemma {:induction false} LastOfKeyWins(eps: seq<Endpoint>, i: nat)
    requires i < |eps| && forall j :: i < j < |eps| ==> EpKey(eps[j]) != EpKey(eps[i])
    ensures EpKey(eps[i]) in Index(eps) && Index(eps)[EpKey(eps[i])] == eps[i]
  {
    var n := |eps| - 1;
    if i < n { LastOfKeyWins(eps[..n], i); }
  }

  method FilterOwnershipTXTs(eps: seq<Endpoint>) returns (out: seq<Endpoint>)
    ensures out == WithoutOwnership(eps)
  {
    out := [];
    for i := 0 to |eps|
      invariant out == WithoutOwnership(eps[..i])
    {
      assert eps[..i + 1][..i] == eps[..i];
      if !IsOwnershipTXT(eps[i]) { out := out + [eps[i]]; }
    }
    assert eps[..|eps|] == eps;
  }

  method IndexEndpoints(eps: seq<Endpoint>) returns (idx: map<string, Endpoint>)
    ensures idx == Index(eps)
  {
    idx := map[];
    for i := 0 to |eps|
      invariant idx == Index(eps[..i])
    {
      assert eps[..i + 1][..i] == eps[..i];
      idx := idx[EpKey(eps[i]) := eps[i]];
    }
    assert eps[..|eps|] == eps;
  }

  // ----- a plan, for one order of the two walks -----

  ghost predicate Distinct(ks: seq<string>) {
    forall i, j :: 0 <= i < j < |ks| ==> ks[i] != ks[j]
  }

  /** `ks` walks the key set `s`: every key once. */
  ghost predicate Walk(ks: seq<string>, s: set<string>) {
    (forall k :: k in ks <==> k in s) && Distinct(ks)
  }

  ghost function Creates(owner: string, d: map<string, Endpoint>, c: map<string, Endpoint>,
                         ks: seq<string>): seq<Endpoint>
    requires forall k :: k in ks ==> k in d
  {
    if ks == [] then []
    else
      var k := ks[|ks| - 1];
      var before := Creates(owner, d, c, ks[..|ks| - 1]);
      if k in c then before else before + [d[k], OwnershipTXT(owner, d[k].dnsName)]
  }

  ghost predicate Outdated(owned: iset<string>, d: map<string, Endpoint>, c: map<string, Endpoint>, k: string) {
    k in d && k in c && d[k].dnsName in owned && !SameRecord(c[k], d[k])
  }

  ghost function OutdatedKeys(owned: iset<string>, d: map<string, Endpoint>, c: map<string, Endpoint>,
                              ks: seq<string>): (r: seq<string>)
    ensures forall k :: k in r <==> k in ks && Outdated(owned, d, c, k)
  {
    if ks == [] then []
    else
      assert ks == ks[..|ks| - 1] + [ks[|ks| - 1]];
      var before := OutdatedKeys(owned, d, c, ks[..|ks| - 1]);
      if Outdated(owned, d, c, ks[|ks| - 1]) then before + [ks[|ks| - 1]] else before
  }

  ghost function Pick(m: map<string, Endpoint>, ks: seq<string>): seq<Endpoint>
    requires forall k :: k in ks ==> k in m
  {
    seq(|ks|, i requires 0 <= i < |ks| => m[ks[i]])
  }

  ghost function Deletes(owner: string, owned: iset<string>, d: map<string, Endpoint>, c: map<string, Endpoint>,
                         ks: seq<string>): seq<Endpoint>
    requires forall k :: k in ks ==> k in c
  {
    if ks == [] then []
    else
      var k := ks[|ks| - 1];
      var before := Deletes(owner, owned, d, c, ks[..|ks| - 1]);
      if k in d || c[k].dnsName !in owned then before else before + [c[k], OwnershipTXT(owner, c[k].dnsName)]
  }

  ghost function OwnedNames(owner: string, eps: seq<Endpoint>): iset<string> {
    iset n | OwnedIn(owner, eps, n)
  }

  ghost function CurrentIndex(current: seq<Endpoint>): map<string, Endpoint> {
    Index(WithoutOwnership(current))
  }

  ghost function PlanInOrder(owner: string, owned: iset<string>, d: map<string, Endpoint>, c: map<string, Endpoint>,
                             dk: seq<string>, ck: seq<string>): Changes
    requires Walk(dk, d.Keys) && Walk(ck, c.Keys)
  {
    var changed := OutdatedKeys(owned, d, c, dk);
    Changes(Creates(owner, d, c, dk), Pick(c, changed), Pick(d, changed), Deletes(owner, owned, d, c, ck))
  }

  /** `c` is what `Calculate` returns for some order of the two map walks. */
  ghost predicate IsPlan(owner: string, desired: seq<Endpoint>, current: seq<Endpoint>, c: Changes) {
    exists dk, ck :: Walk(dk, Index(desired).Keys) && Walk(ck, CurrentIndex(current).Keys)
      && c == PlanInOrder(owner, OwnedNames(owner, current), Index(desired), CurrentIndex(current), dk, ck)
  }

  lemma WalkExtend(ks: seq<string>, done: set<string>, k: string)
    requires Walk(ks, done) && k !in done
    ensures Walk(ks + [k], done + {k})
  {
  }

  /** Step 4: walks the desired index. */
  method WalkDesired(owner: string, owned: set<string>, d: map<string, Endpoint>, c: map<string, Endpoint>)
    returns (create: seq<Endpoint>, olds: seq<Endpoint>, news: seq<Endpoint>, ghost dk: seq<string>)
    ensures Walk(dk, d.Keys)
    ensures create == Creates(owner, d, c, dk)
    ensures var changed := OutdatedKeys((iset n | n in owned), d, c, dk);
            olds == Pick(c, changed) && news == Pick(d, changed)
  {
    create, olds, news, dk := [], [], [], [];
    ghost var names := iset n | n in owned;
    var todo := d.Keys;
    while todo != {}
      invariant todo <= d.Keys
      invariant Walk(dk, d.Keys - todo)
      invariant create == Creates(owner, d, c, dk)
      invariant olds == Pick(c, OutdatedKeys(names, d, c, dk)) && news == Pick(d, OutdatedKeys(names, d, c, dk))
    {
      var key :| key in todo;
      var want := d[key];
      WalkExtend(dk, d.Keys - todo, key);
      assert (dk + [key])[..|dk|] == dk;
      dk := dk + [key];
      todo := todo - {key};
      assert d.Keys - todo == d.Keys - (todo + {key}) + {key};
      if key !in c {
        create := create + [want] + [OwnershipTXT(owner, want.dnsName)];
      } else if want.dnsName in owned {
        var same := EndpointsEqual(c[key], want);
        if !same {
          olds := olds + [c[key]];
          news := news + [want];
        }
      }
    }
  }

  /** Step 5: walks the current index. */
  method WalkCurrent(owner: string, owned: set<string>, d: map<string, Endpoint>, c: map<string, Endpoint>)
    returns (delete: seq<Endpoint>, ghost ck: seq<string>)
    ensures Walk(ck, c.Keys)
    ensures delete == Deletes(owner, (iset n | n in owned), d, c, ck)
  {
    delete, ck := [], [];
    ghost var names := iset n | n in owned;
    var todo := c.Keys;
    while todo != {}
      invariant todo <= c.Keys
      invariant Walk(ck, c.Keys - todo)
      invariant delete == Deletes(owner, names, d, c, ck)
    {
      var key :| key in todo;
      var have := c[key];
      WalkExtend(ck, c.Keys - todo, key);
      assert (ck + [key])[..|ck|] == ck;
      ck := ck + [key];
      todo := todo - {key};
      assert c.Keys - todo == c.Keys - (todo + {key}) + {key};
      if key !in d && have.dnsName in owned {
        delete := delete + [have] + [OwnershipTXT(owner, have.dnsName)];
      }
    }
  }

  method Calculate(owner: string, desired: seq<Endpoint>, current: seq<Endpoint>) returns (changes: Changes)
    ensures IsPlan(owner, desired, current, changes)
  {
    var owned := BuildOwnedSet(owner, current);
    var kept := FilterOwnershipTXTs(current);
    var c := IndexEndpoints(kept);
    var d := IndexEndpoints(desired);
    ghost var names := OwnedNames(owner, current);
    assert names == iset n | n in owned;
    ghost var dk, ck;
    var create, olds, news, delete;
    create, olds, news, dk := WalkDesired(owner, owned, d, c);
    delete, ck := WalkCurrent(owner, owned, d, c);
    changes := Changes(create, olds, news, delete);
    assert Walk(dk, Index(desired).Keys) && Walk(ck, CurrentIndex(current).Keys);
    assert changes == PlanInOrder(owner, OwnedNames(owner, current), Index(desired), CurrentIndex(current), dk, ck);
  }

  // ----- what a plan contains -----

  ghost predicate PlansCreate(owner: string, d: map<string, Endpoint>, c: map<string, Endpoint>, ep: Endpoint) {
    exists k :: k in d && k !in c && (ep == d[k] || ep == OwnershipTXT(owner, d[k].dnsName))
  }

  ghost predicate PlansDelete(owner: string, owned: iset<string>, d: map<string, Endpoint>, c: map<string, Endpoint>,
                              ep: Endpoint) {
    exists k :: k in c && k !in d && c[k].dnsName in owned && (ep == c[k] || ep == OwnershipTXT(owner, c[k].dnsName))
  }

  lemma {:induction false} InCreates(owner: string, d: map<string, Endpoint>, c: map<string, Endpoint>,
                                     ks: seq<string>, ep: Endpoint)
    requires forall k :: k in ks ==> k in d
    ensures ep in Creates(owner, d, c, ks) <==>
            exists k :: k in ks && k !in c && (ep == d[k] || ep == OwnershipTXT(owner, d[k].dnsName))
  {
    if ks != [] {
      var n := |ks| - 1;
      InCreates(owner, d, c, ks[..n], ep);
      assert ks == ks[..n] + [ks[n]];
    }
  }

  lemma {:induction false} InDeletes(owner: string, owned: iset<string>, d: map<string, Endpoint>,
                                     c: map<string, Endpoint>, ks: seq<string>, ep: Endpoint)
    requires forall k :: k in ks ==> k in c
    ensures ep in Deletes(owner, owned, d, c, ks) <==>
            exists k :: k in ks && k !in d && c[k].dnsName in owned &&
                (ep == c[k] || ep == OwnershipTXT(owner, c[k].dnsName))
  {
    if ks != [] {
      var n := |ks| - 1;
      InDeletes(owner, owned, d, c, ks[..n], ep);
      assert ks == ks[..n] + [ks[n]];
    }
  }

  lemma {:induction false} OutdatedKeysDistinct(owned: iset<string>, d: map<string, Endpoint>,
                                                c: map<string, Endpoint>, ks: seq<string>)
    requires Distinct(ks)
    ensures Distinct(OutdatedKeys(owned, d, c, ks))
  {
    if ks != [] {
      var n := |ks| - 1;
      OutdatedKeysDistinct(owned, d, c, ks[..n]);
      assert ks[n] !in ks[..n];
      assert ks[n] !in OutdatedKeys(owned, d, c, ks[..n]);
    }
  }

  /** Order left out: every endpoint a plan creates, replaces or deletes, and none besides. */
  lemma PlanMeaning(owner: string, desired: seq<Endpoint>, current: seq<Endpoint>, p: Changes)
    returns (changed: seq<string>)
    requires IsPlan(owner, desired, current, p)
    ensures var d, c := Index(desired), CurrentIndex(current);
            && (forall ep :: ep in p.create <==> PlansCreate(owner, d, c, ep))
            && (forall ep :: ep in p.delete <==> PlansDelete(owner, OwnedNames(owner, current), d, c, ep))
    ensures var d, c := Index(desired), CurrentIndex(current);
            && (forall k :: k in changed <==> Outdated(OwnedNames(owner, current), d, c, k))
            && Distinct(changed)
            && p.updateOld == Pick(c, changed) && p.updateNew == Pick(d, changed)
  {
    var d, c, owned := Index(desired), CurrentIndex(current), OwnedNames(owner, current);
    var dk, ck :| Walk(dk, d.Keys) && Walk(ck, c.Keys) && p == PlanInOrder(owner, owned, d, c, dk, ck);
    changed := OutdatedKeys(owned, d, c, dk);
    OutdatedKeysDistinct(owned, d, c, dk);
    forall ep ensures ep in p.create <==> PlansCreate(owner, d, c, ep) {
      InCreates(owner, d, c, dk, ep);
    }
    forall ep ensures ep in p.delete <==> PlansDelete(owner, owned, d, c, ep) {
      InDeletes(owner, owned, d, c, ck, ep);
    }
  }

  // ----- the lists of a plan, entry by entry -----

  /** The endpoints of the keys, each followed by its marker. */
  ghost predicate WithMarkers(owner: string, m: map<string, Endpoint>, ks: seq<string>, eps: seq<Endpoint>) {
    && |eps| == 2 * |ks|
    && forall t :: 0 <= t < |ks| ==>
         ks[t] in m && eps[2 * t] == m[ks[t]] && eps[2 * t + 1] == OwnershipTXT(owner, m[ks[t]].dnsName)
  }

  lemma {:induction false} CreatedKeys(owner: string, d: map<string, Endpoint>, c: map<string, Endpoint>,
                                       ks: seq<string>) returns (made: seq<string>)
    requires Distinct(ks) && forall k :: k in ks ==> k in d
    ensures Distinct(made) && (forall k :: k in made <==> k in ks && k !in c)
    ensures WithMarkers(owner, d, made, Creates(owner, d, c, ks))
  {
    made := [];
    if ks != [] {
      var n := |ks| - 1;
      made := CreatedKeys(owner, d, c, ks[..n]);
      assert ks == ks[..n] + [ks[n]] && ks[n] !in ks[..n];
      if ks[n] !in c { made := made + [ks[n]]; }
    }
  }

  lemma {:induction false} DeletedKeys(owner: string, owned: iset<string>, d: map<string, Endpoint>,
                                       c: map<string, Endpoint>, ks: seq<string>) returns (gone: seq<string>)
    requires Distinct(ks) && forall k :: k in ks ==> k in c
    ensures Distinct(gone) && (forall k :: k in gone <==> k in ks && k !in d && c[k].dnsName in owned)
    ensures WithMarkers(owner, c, gone, Deletes(owner, owned, d, c, ks))
  {
    gone := [];
    if ks != [] {
      var n := |ks| - 1;
      gone := DeletedKeys(owner, owned, d, c, ks[..n]);
      assert ks == ks[..n] + [ks[n]] && ks[n] !in ks[..n];
      if ks[n] !in d && c[ks[n]].dnsName in owned { gone := gone + [ks[n]]; }
    }
  }

  /** Every plan creates each missing key once and deletes each dropped key once, a marker after each. */
  lemma PlanLists(owner: string, desired: seq<Endpoint>, current: seq<Endpoint>, p: Changes)
    returns (made: seq<string>, gone: seq<string>)
    requires IsPlan(owner, desired, current, p)
    ensures var d, c, owned := Index(desired), CurrentIndex(current), OwnedNames(owner, current);
            && Distinct(made) && (forall k :: k in made <==> k in d && k !in c) && WithMarkers(owner, d, made, p.create)
            && Distinct(gone) && (forall k :: k in gone <==> k in c && k !in d && c[k].dnsName in owned)
            && WithMarkers(owner, c, gone, p.delete)
  {
    var d, c, owned := Index(desired), CurrentIndex(current), OwnedNames(owner, current);
    var dk, ck :| Walk(dk, d.Keys) && Walk(ck, c.Keys) && p == PlanInOrder(owner, owned, d, c, dk, ck);
    made := CreatedKeys(owner, d, c, dk);
    gone := DeletedKeys(owner, owned, d, c, ck);
  }

  // ----- every input has a plan -----

  lemma {:induction false} WalkExists(s: set<string>) returns (ks: seq<string>)
    ensures Walk(ks, s)
    decreases |s|
  {
    if s == {} {
      ks := [];
    } else {
      var k :| k in s;
      ks := WalkExists(s - {k});
      WalkExtend(ks, s - {k}, k);
      assert s - {k} + {k} == s;
      ks := ks + [k];
    }
  }

  lemma PlanExists(owner: string, desired: seq<Endpoint>, current: seq<Endpoint>) returns (p: Changes)
    ensures IsPlan(owner, desired, current, p)
  {
    var d, c := Index(desired), CurrentIndex(current);
    var dk := WalkExists(d.Keys);
    var ck := WalkExists(c.Keys);
    p := PlanInOrder(owner, OwnedNames(owner, current), d, c, dk, ck);
  }
}
