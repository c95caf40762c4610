/** The endpoint value (pkg/endpoint) and the comparison of endpoints (pkg/plan/plan.go:167-189). */
module Endpoints {
  import opened Addresses

  const TYPE_A: string := "A"
  const TYPE_AAAA: string := "AAAA"
  const TYPE_CNAME: string := "CNAME"
  const TYPE_TXT: string := "TXT"
  const DEFAULT_TTL: int := 300

  datatype Endpoint = Endpoint(dnsName: string, targets: seq<string>, recordType: string, ttl: int)

  /** `endpoint.New`: TTL 0 means the default. */
  function NewEndpoint(dnsName: string, targets: seq<string>, recordType: string, ttl: int): Endpoint {
    Endpoint(dnsName, targets, recordType, if ttl == 0 then DEFAULT_TTL else ttl)
  }

  function InferRecordType(v6: Ip6Text, target: string): string {
    match ParseIP(v6, target)
    case None => TYPE_CNAME
    case Some(V4(_)) => TYPE_A
    case Some(V6(_)) => TYPE_AAAA
  }

  /** What `endpointsEqual` means: equal TTL and the same targets, counted, in any order. */
  predicate SameRecord(a: Endpoint, b: Endpoint) {
    a.ttl == b.ttl && multiset(a.targets) == multiset(b.targets)
  }

  // ----- sort.Strings -----

  /** Go's string order. */
  predicate TextLeq(a: string, b: string) {
    a == [] || (b != [] && (a[0] < b[0] || (a[0] == b[0] && TextLeq(a[1..], b[1..]))))
  }

  lemma {:induction false} TextLeqTotal(a: string, b: string)
    ensures TextLeq(a, b) || TextLeq(b, a)
  {
    if a != [] && b != [] { TextLeqTotal(a[1..], b[1..]); }
  }

  lemma {:induction false} TextLeqAntisymmetric(a: string, b: string)
    requires TextLeq(a, b) && TextLeq(b, a)
    ensures a == b
  {
    if a != [] && b != [] {
      TextLeqAntisymmetric(a[1..], b[1..]);
      assert a == [a[0]] + a[1..] && b == [b[0]] + b[1..];
    }
  }

  lemma {:induction false} TextLeqTransitive(a: string, b: string, c: string)
    requires TextLeq(a, b) && TextLeq(b, c)
    ensures TextLeq(a, c)
  {
    if a != [] && a[0] == b[0] == c[0] { TextLeqTransitive(a[1..], b[1..], c[1..]); }
  }

  ghost predicate Sorted(s: seq<string>) {
    forall i, j :: 0 <= i < j < |s| ==> TextLeq(s[i], s[j])
  }

  function Insert(x: string, s: seq<string>): (r: seq<string>)
    ensures multiset(r) == multiset{x} + multiset(s)
  {
    if s == [] || TextLeq(x, s[0]) then [x] + s
    else
      assert s == [s[0]] + s[1..];
      [s[0]] + Insert(x, s[1..])
  }

  lemma {:induction false} InsertKeepsSorted(x: string, s: seq<string>)
    requires Sorted(s)
    ensures Sorted(Insert(x, s))
  {
    if s == [] {
    } else if TextLeq(x, s[0]) {
      forall j | 0 <= j < |s| ensures TextLeq(x, s[j]) {
        if j > 0 { TextLeqTransitive(x, s[0], s[j]); }
      }
    } else {
      TextLeqTotal(x, s[0]);
      InsertKeepsSorted(x, s[1..]);
      var r := Insert(x, s[1..]);
      forall j | 0 <= j < |r| ensures TextLeq(s[0], r[j]) {
        assert r[j] in multiset(r);
        assert r[j] == x || r[j] in s[1..];
      }
    }
  }

  /** `sortedCopy`. */
  function SortedCopy(s: seq<string>): (r: seq<string>)
    ensures multiset(r) == multiset(s)
    ensures |r| == |s|
  {
    if s == [] then []
    else
      assert s == [s[0]] + s[1..];
      var r := Insert(s[0], SortedCopy(s[1..]));
      assert |multiset(r)| == |multiset(s)|;
      r
  }

  lemma {:induction false} SortedCopyIsSorted(s: seq<string>)
    ensures Sorted(SortedCopy(s))
  {
    if s != [] {
      SortedCopyIsSorted(s[1..]);
      InsertKeepsSorted(s[0], SortedCopy(s[1..]));
    }
  }

  lemma SortedHeadIsLeast(s: seq<string>, x: string)
    requires Sorted(s) && x in s
    ensures s != [] && TextLeq(s[0], x)
  {
    TextLeqTotal(x, x);
  }

  lemma SortedHeadsEqual(s: seq<string>, t: seq<string>)
    requires Sorted(s) && Sorted(t) && multiset(s) == multiset(t) && s != []
    ensures t != [] && s[0] == t[0]
  {
    assert s[0] in multiset(t);
    assert t[0] in multiset(s);
    SortedHeadIsLeast(s, t[0]);
    SortedHeadIsLeast(t, s[0]);
    TextLeqAntisymmetric(s[0], t[0]);
  }

  lemma TailMultiset(s: seq<string>)
    requires s != []
    ensures multiset(s[1..]) == multiset(s) - multiset{s[0]}
  {
    assert s == [s[0]] + s[1..];
  }

  /** A multiset has one sorted arrangement. */
  lemma {:induction false} SortedArrangementUnique(s: seq<string>, t: seq<string>)
    requires Sorted(s) && Sorted(t) && multiset(s) == multiset(t)
    ensures s == t
  {
    if s == [] {
      assert |multiset(t)| == |multiset(s)|;
    } else {
      SortedHeadsEqual(s, t);
      TailMultiset(s);
      TailMultiset(t);
      SortedArrangementUnique(s[1..], t[1..]);
      assert s == [s[0]] + s[1..] && t == [t[0]] + t[1..];
    }
  }

  lemma SortedCopiesDecide(a: seq<string>, b: seq<string>)
    ensures SortedCopy(a) == SortedCopy(b) <==> multiset(a) == multiset(b)
  {
    SortedCopyIsSorted(a);
    SortedCopyIsSorted(b);
    if multiset(a) == multiset(b) { SortedArrangementUnique(SortedCopy(a), SortedCopy(b)); }
  }

  /** The comparison loop. */
  method SameTexts(xs: seq<string>, ys: seq<string>) returns (same: bool)
    requires |xs| == |ys|
    ensures same <==> xs == ys
  {
    for i := 0 to |xs|
      invariant forall j :: 0 <= j < i ==> xs[j] == ys[j]
    {
      if xs[i] != ys[i] { return false; }
    }
    return true;
  }

  /** Comparing two sorted copies decides `SameRecord`. */
  method EndpointsEqual(a: Endpoint, b: Endpoint) returns (eq: bool)
    ensures eq <==> SameRecord(a, b)
  {
    if a.ttl != b.ttl { return false; }
    if |a.targets| != |b.targets| {
      assert |multiset(a.targets)| == |a.targets| && |multiset(b.targets)| == |b.targets|;
      return false;
    }
    SortedCopiesDecide(a.targets, b.targets);
    eq := SameTexts(SortedCopy(a.targets), SortedCopy(b.targets));
  }
}
