/** The named preconditions can be met: a lawful address text, a goal, and zones before and after its first cycle. */
module Instance {
  import opened Text
  import opened Addresses
  import opened Endpoints
  import opened Dns
  import opened Provider
  import opened Plan
  import opened Cycle
  import opened CycleLaws

  /** A colon, then the words in decimal. */
  function PrintWords(w: Words): string {
    ":" + JoinLabels([""] + Numerals(w))
  }

  function Numerals(w: seq<nat>): (r: seq<string>)
    ensures |r| == |w| && forall i :: 0 <= i < |w| ==> r[i] == Decimal(w[i])
  {
    seq(|w|, i requires 0 <= i < |w| => Decimal(w[i]))
  }

  lemma NumeralsInjective(w: seq<nat>, w': seq<nat>)
    requires Numerals(w) == Numerals(w')
    ensures w == w'
  {
    assert |w| == |w'|;
    forall i | 0 <= i < |w| ensures w[i] == w'[i] {
      assert Numerals(w)[i] == Numerals(w')[i];
      DecimalInjective(w[i], w'[i]);
    }
  }

  lemma PrintWordsInjective(w: Words, w': Words)
    requires PrintWords(w) == PrintWords(w')
    ensures w == w'
  {
    var ls, ls' := [""] + Numerals(w), [""] + Numerals(w');
    forall l | l in ls || l in ls' ensures '.' !in l { assert AllDigits(l); }
    assert JoinLabels(ls) == PrintWords(w)[1..] && JoinLabels(ls') == PrintWords(w')[1..];
    LabelsOfJoin(ls);
    LabelsOfJoin(ls');
    assert Numerals(w) == ls[1..] && Numerals(w') == ls'[1..];
    NumeralsInjective(w, w');
  }

  /** An IPv4 address in IPv6 notation. */
  const MAPPED: string := "::ffff:192.0.2.1"

  lemma PrintWordsShape(w: Words)
    ensures PrintWords(w) != MAPPED && FirstSeparator(PrintWords(w)) == Some(':')
  {
    var ls := [""] + Numerals(w);
    assert JoinLabels(ls) == "" + "." + JoinLabels(ls[1..]);
    assert PrintWords(w)[0] == ':' && PrintWords(w)[1] == '.';
    assert MAPPED[1] == ':';
  }

  ghost function ParseWords(s: string): Option<Ip> {
    if s == MAPPED then Some(V4(ADDRESS))
    else if w: Words :| PrintWords(w) == s then Some(V6(w))
    else None
  }

  lemma ParsePrinted(w: Words)
    ensures ParseWords(PrintWords(w)) == Some(V6(w))
  {
    PrintWordsShape(w);
    assert exists u: Words :: PrintWords(u) == PrintWords(w);
    forall u: Words | PrintWords(u) == PrintWords(w) ensures u == w { PrintWordsInjective(u, w); }
  }

  /** A text form of addresses that is lawful and reads the IPv6 notation of an IPv4 address as `net.ParseIP` does. */
  lemma LawfulText() returns (v6: Ip6Text)
    ensures v6.Lawful() && v6.parse(MAPPED) == Some(V4(ADDRESS))
  {
    v6 := Ip6Text(s => ParseWords(s), (w: Words) => PrintWords(w));
    forall w: Words ensures FirstSeparator(v6.print6(w)) == Some(':') && v6.parse(v6.print6(w)) == Some(V6(w)) {
      PrintWordsShape(w);
      ParsePrinted(w);
    }
  }

  const APP: string := "app"
  const ADDRESS: Quad := Quad(192, 0, 2, 1)

  function AppEndpoint(): Endpoint { Endpoint(APP, [PrintQuad(ADDRESS)], TYPE_A, 300) }

  /** A goal that wants one address at one name. */
  function AppGoal(v6: Ip6Text): Goal { Goal(Config(0, v6), "me", Index([AppEndpoint()])) }

  lemma AppGoalFacts(v6: Ip6Text)
    ensures AppGoal(v6).want == map[EpKey(AppEndpoint()) := AppEndpoint()] && Wanted(AppGoal(v6), APP)
    ensures KeyOf(AppGoal(v6).cfg, AppEndpoint()) == RRKey("app.", A(ADDRESS)) &&
            Canonical(AppGoal(v6).cfg, AppEndpoint())
  {
    var g, ep, q := AppGoal(v6), AppEndpoint(), ADDRESS;
    assert [ep][..0] == [];
    QuadRoundTrip(q, PrintQuad(q));
    FirstSeparatorAfterDigits(Decimal(q.a), Decimal(q.b) + "." + (Decimal(q.c) + "." + Decimal(q.d)));
    CanonicalIff(g.cfg, ep);
    assert g.want[EpKey(ep)].dnsName == APP;
  }

  lemma AppGoalGood(v6: Ip6Text)
    requires v6.Lawful()
    ensures GoodGoal(AppGoal(v6))
  {
    AppGoalFacts(v6);
  }

  /** The preconditions hold of an unowned zone and of an owned one that holds the desired record. */
  lemma PreconditionsMet() returns (g: Goal, n: string, z: Zone)
    ensures GoodGoal(g) && Wanted(g, n) && GoodZone(g, map[]) && CreatesAt(g, map[], n)
    ensures GoodZone(g, z) && Owned(g.owner, z, n) && exists k :: k in z && IsRecord(k) && NameOf(k) == n
  {
    var v6 := LawfulText();
    AppGoalFacts(v6);
    AppGoalGood(v6);
    g, n := AppGoal(v6), APP;
    var s :| s in g.want && g.want[s].dnsName == n;
    assert Missing(g, map[], s);
    z := NextZone(g, map[]);
    NextGood(g, map[]);
    OwnershipLaw(g, map[], n);
    WantFacts(g, s);
    RecordAfter(g, map[], KeyOf(g.cfg, g.want[s]));
  }
}
