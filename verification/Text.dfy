/** Plain text helpers: the parts of Go's `strings`, `strconv` and of `dns.Fqdn` that the daemon relies on. */
module Text {

  datatype Option<+T> = None | Some(value: T)

  predicate EndsWithDot(s: string) {
    s != [] && s[|s| - 1] == '.'
  }

  /** `strings.TrimSuffix(s, ".")`: drops at most one dot. */
  function TrimDot(s: string): string {
    if EndsWithDot(s) then s[..|s| - 1] else s
  }

  /** `dns.Fqdn`: adds one dot unless there is one. */
  function Fqdn(s: string): string {
    if EndsWithDot(s) then s else s + "."
  }

  /** A name as a DNS server stores it: one final dot and no empty last label. */
  predicate Legal(x: string) {
    EndsWithDot(x) && !EndsWithDot(TrimDot(x))
  }

  lemma FqdnTrim(x: string)
    requires Legal(x)
    ensures Fqdn(TrimDot(x)) == x
  {
    assert x == x[..|x| - 1] + [x[|x| - 1]];
  }

  lemma TrimFqdn(s: string)
    ensures TrimDot(Fqdn(s)) == s <==> !EndsWithDot(s)
    ensures !EndsWithDot(s) ==> Legal(Fqdn(s))
  {
    if !EndsWithDot(s) {
      assert (s + ".")[..|s|] == s;
    }
  }

  predicate HasSuffix(s: string, p: string) {
    |p| <= |s| && s[|s| - |p|..] == p
  }

  // ----- dot-separated labels -----

  /** `strings.Split(s, ".")`. */
  function Labels(s: string): (ls: seq<string>)
    ensures |ls| >= 1
  {
    if s == [] then [[]]
    else
      var rest := Labels(s[1..]);
      if s[0] == '.' then [[]] + rest else Prepend(s[0], rest)
  }

  /** Puts a character in front of the first label. */
  function Prepend(c: char, ls: seq<string>): (r: seq<string>)
    requires |ls| >= 1
    ensures |r| == |ls|
  {
    [[c] + ls[0]] + ls[1..]
  }

  lemma PrependToConcat(c: char, xs: seq<string>, ys: seq<string>)
    requires |xs| >= 1
    ensures Prepend(c, xs + ys) == Prepend(c, xs) + ys
  {
    assert (xs + ys)[1..] == xs[1..] + ys;
  }

  /** `strings.Join(ls, ".")`. */
  function JoinLabels(ls: seq<string>): string
    requires |ls| >= 1
  {
    if |ls| == 1 then ls[0] else ls[0] + "." + JoinLabels(ls[1..])
  }

  lemma {:induction false} LabelsOfConcat(a: string, b: string)
    ensures Labels(a + "." + b) == Labels(a) + Labels(b)
  {
    var s := a + "." + b;
    if a == [] {
      assert s[1..] == b;
    } else {
      assert s[1..] == a[1..] + "." + b;
      LabelsOfConcat(a[1..], b);
      PrependToConcat(a[0], Labels(a[1..]), Labels(b));
      assert s[0] == a[0];
      if a[0] == '.' {
        assert [[]] + (Labels(a[1..]) + Labels(b)) == ([[]] + Labels(a[1..])) + Labels(b);
      }
    }
  }

  lemma {:induction false} LabelsWithoutDot(s: string)
    requires '.' !in s
    ensures Labels(s) == [s]
  {
    if s != [] {
      LabelsWithoutDot(s[1..]);
      assert [s[0]] + s[1..] == s;
    }
  }

  lemma {:induction false} LabelsHaveNoDot(s: string)
    ensures forall l :: l in Labels(s) ==> '.' !in l
  {
    if s != [] { LabelsHaveNoDot(s[1..]); }
  }

  lemma {:induction false} JoinOfLabels(s: string)
    ensures JoinLabels(Labels(s)) == s
  {
    if s != [] {
      JoinOfLabels(s[1..]);
      var rest := Labels(s[1..]);
      if s[0] == '.' {
        assert ([[]] + rest)[1..] == rest;
        assert [] + "." + s[1..] == s;
      } else if |rest| == 1 {
        assert [s[0]] + s[1..] == s;
      } else {
        var ls := [[s[0]] + rest[0]] + rest[1..];
        assert ls[1..] == rest[1..];
        assert ([s[0]] + rest[0]) + "." + JoinLabels(rest[1..]) == [s[0]] + (rest[0] + "." + JoinLabels(rest[1..]));
      }
    }
  }

  lemma {:induction false} JoinOfConcat(xs: seq<string>, ys: seq<string>)
    requires |xs| >= 1 && |ys| >= 1
    ensures JoinLabels(xs + ys) == JoinLabels(xs) + "." + JoinLabels(ys)
  {
    if |xs| == 1 {
      assert (xs + ys)[1..] == ys;
    } else {
      JoinOfConcat(xs[1..], ys);
      assert (xs + ys)[1..] == xs[1..] + ys;
      assert (xs + ys)[0] == xs[0];
      assert xs[0] + "." + (JoinLabels(xs[1..]) + "." + JoinLabels(ys))
          == (xs[0] + "." + JoinLabels(xs[1..])) + "." + JoinLabels(ys);
    }
  }

  lemma {:induction false} LabelsOfJoin(ls: seq<string>)
    requires |ls| >= 1 && forall l :: l in ls ==> '.' !in l
    ensures Labels(JoinLabels(ls)) == ls
  {
    LabelsWithoutDot(ls[0]);
    if |ls| > 1 {
      LabelsOfJoin(ls[1..]);
      LabelsOfConcat(ls[0], JoinLabels(ls[1..]));
    }
  }

  /** One more than the largest int64. */
  const TWO63: int := 0x8000_0000_0000_0000

  // ----- decimal numerals -----

  predicate IsDigit(c: char) { '0' <= c <= '9' }

  predicate AllDigits(s: string) { forall i :: 0 <= i < |s| ==> IsDigit(s[i]) }

  function DigitChar(d: nat): (c: char)
    requires d < 10
    ensures IsDigit(c) && c as int - '0' as int == d
  {
    ('0' as int + d) as char
  }

  /** `%d` of a natural number. */
  function Decimal(n: nat): (s: string)
    ensures |s| >= 1 && AllDigits(s)
    ensures s[0] == '0' ==> s == "0"
  {
    if n < 10 then [DigitChar(n)] else Decimal(n / 10) + [DigitChar(n % 10)]
  }

  function NatOf(s: string): nat
    requires AllDigits(s)
  {
    if s == [] then 0 else 10 * NatOf(s[..|s| - 1]) + (s[|s| - 1] as int - '0' as int)
  }

  lemma {:induction false} NatOfDecimal(n: nat)
    ensures NatOf(Decimal(n)) == n
  {
    var s := Decimal(n);
    if n < 10 {
      assert s[..0] == [];
    } else {
      NatOfDecimal(n / 10);
      assert s[..|s| - 1] == Decimal(n / 10);
    }
  }

  /** `z` zeros. */
  function Zeros(z: nat): (s: string)
    ensures |s| == z && AllDigits(s)
  {
    seq(z, _ => '0')
  }

  /** Leading zeros do not count. */
  lemma {:induction false} NatOfZeros(z: nat, s: string)
    requires AllDigits(s)
    ensures NatOf(Zeros(z) + s) == NatOf(s)
  {
    var t := Zeros(z) + s;
    if s != [] {
      NatOfZeros(z, s[..|s| - 1]);
      assert t[..|t| - 1] == Zeros(z) + s[..|s| - 1];
    } else if z > 0 {
      NatOfZeros(z - 1, s);
      assert t[..z - 1] == Zeros(z - 1) + s;
    }
  }

  /** Every run of digits is some zeros and a numeral. */
  lemma {:induction false} DigitsAreNumeral(s: string) returns (z: nat)
    requires AllDigits(s) && s != []
    ensures s == Zeros(z) + Decimal(NatOf(s))
  {
    if s[0] == '0' && |s| > 1 {
      z := DigitsAreNumeral(s[1..]);
      assert s == Zeros(1) + s[1..];
      NatOfZeros(1, s[1..]);
      assert s == Zeros(z + 1) + Decimal(NatOf(s));
      z := z + 1;
    } else {
      DecimalOfNat(s);
      z := 0;
      assert s == Zeros(0) + s;
    }
  }

  lemma {:induction false} NatOfPositive(s: string)
    requires AllDigits(s) && s != [] && s[0] != '0'
    ensures NatOf(s) > 0
  {
    var p := s[..|s| - 1];
    if p != [] { NatOfPositive(p); }
  }

  lemma {:induction false} DecimalOfNat(s: string)
    requires AllDigits(s) && s != [] && (s[0] == '0' ==> s == "0")
    ensures Decimal(NatOf(s)) == s
  {
    var p, d := s[..|s| - 1], s[|s| - 1] as int - '0' as int;
    assert s == p + [DigitChar(d)];
    if p == [] {
      assert NatOf(p) == 0;
    } else {
      DecimalOfNat(p);
      NatOfPositive(p);
      assert NatOf(s) / 10 == NatOf(p) && NatOf(s) % 10 == d;
    }
  }

  lemma DecimalInjective(m: nat, n: nat)
    requires Decimal(m) == Decimal(n)
    ensures m == n
  {
    NatOfDecimal(m);
    NatOfDecimal(n);
  }

  // ----- lists of lists -----

  function Flatten<T>(parts: seq<seq<T>>): seq<T> {
    if parts == [] then [] else Flatten(parts[..|parts| - 1]) + parts[|parts| - 1]
  }

  lemma {:induction false} InFlatten<T>(parts: seq<seq<T>>, x: T)
    ensures x in Flatten(parts) <==> exists i :: 0 <= i < |parts| && x in parts[i]
  {
    if parts != [] {
      var n := |parts| - 1;
      InFlatten(parts[..n], x);
      assert forall i :: 0 <= i < n ==> parts[..n][i] == parts[i];
    }
  }

  /** One list after the other. */
  lemma {:induction false} FlattenInOrder<T>(a: seq<seq<T>>, b: seq<seq<T>>, x: seq<T>)
    ensures Flatten(a + b) == Flatten(a) + Flatten(b)
    ensures Flatten([x]) == x && Flatten<T>([]) == []
  {
    assert [x][..0] == [];
    if b == [] {
      assert a + b == a;
    } else {
      var n := |b| - 1;
      FlattenInOrder(a, b[..n], x);
      assert (a + b)[..|a + b| - 1] == a + b[..n];
    }
  }

  // ----- optional values -----

  function Present<T>(r: Option<T>): seq<T> { if r.Some? then [r.value] else [] }

  /** The values among the first `m` of `f`, in order. */
  function FirstPresent<T>(f: nat -> Option<T>, m: nat): seq<T> {
    if m == 0 then [] else FirstPresent(f, m - 1) + Present(f(m - 1))
  }

  lemma {:induction false} InFirstPresent<T>(f: nat -> Option<T>, m: nat, x: T)
    ensures x in FirstPresent(f, m) <==> exists i: nat :: i < m && f(i) == Some(x)
  {
    if m > 0 { InFirstPresent(f, m - 1, x); }
  }

  /** `xs` are the values of `f` at the positions `js`, which ascend and are all those below `m` that have one. */
  ghost predicate PresentAt<T(!new)>(f: nat -> Option<T>, m: nat, xs: seq<T>, js: seq<nat>) {
    && |xs| == |js| && (forall a, b :: 0 <= a < b < |js| ==> js[a] < js[b])
    && (forall t :: 0 <= t < |js| ==> js[t] < m && f(js[t]) == Some(xs[t]))
    && (forall i: nat :: i < m && f(i).Some? ==> i in js)
  }

  lemma PresentNext<T(!new)>(f: nat -> Option<T>, m: nat, xs: seq<T>, js: seq<nat>)
    requires PresentAt(f, m, xs, js)
    ensures f(m).None? ==> PresentAt(f, m + 1, xs, js)
    ensures f(m).Some? ==> PresentAt(f, m + 1, xs + [f(m).value], js + [m])
  {
    if f(m).Some? {
      var all := js + [m];
      forall i: nat | i < m + 1 && f(i).Some? ensures i in all {
        if i < m { assert i in js; } else { assert all[|js|] == i; }
      }
    }
  }

  lemma {:induction false} FirstPresentInOrder<T(!new)>(f: nat -> Option<T>, m: nat) returns (js: seq<nat>)
    ensures PresentAt(f, m, FirstPresent(f, m), js)
  {
    js := [];
    if m > 0 {
      js := FirstPresentInOrder(f, m - 1);
      PresentNext(f, m - 1, FirstPresent(f, m - 1), js);
      if f(m - 1).Some? { js := js + [m - 1]; }
    }
  }
}
