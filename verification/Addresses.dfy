/** IP address text as `net.ParseIP` and `net.IP.String` treat it.  Dotted quads are concrete; the IPv6 text
    form is a parameter, of which only the round trip `ParseIP(ip.String()) == ip` is ever used. */
module Addresses {
  import opened Text

  type Octet = x: int | 0 <= x < 256

  datatype Quad = Quad(a: Octet, b: Octet, c: Octet, d: Octet)

  /** Eight 16-bit words that are not an IPv4-mapped address. */
  predicate IsWords(w: seq<nat>) {
    && |w| == 8 && (forall i :: 0 <= i < 8 ==> w[i] < 0x1_0000)
    && !(w[0] == w[1] == w[2] == w[3] == w[4] == 0 && w[5] == 0xffff)
  }

  type Words = w: seq<nat> | IsWords(w) witness [0, 0, 0, 0, 0, 0, 0, 1]

  /** A 16-byte `net.IP`; an IPv4-mapped one is `V4`, exactly the case in which `To4` is not nil. */
  datatype Ip = V4(quad: Quad) | V6(words: Words)

  datatype Ip6Text = Ip6Text(parse: string -> Option<Ip>, print6: Words -> string) {
    ghost predicate Lawful() {
      forall w: Words {:trigger this.print6(w)} ::
        FirstSeparator(this.print6(w)) == Some(':') && this.parse(this.print6(w)) == Some(V6(w))
    }
  }

  function PrintQuad(q: Quad): string {
    Decimal(q.a) + "." + (Decimal(q.b) + "." + (Decimal(q.c) + "." + Decimal(q.d)))
  }

  predicate IsOctetText(s: string) {
    s != [] && AllDigits(s) && (s[0] == '0' ==> s == "0") && NatOf(s) < 256
  }

  /** netip's IPv4 parser: four decimal fields up to 255 without leading zeros. */
  function ParseQuad(s: string): Option<Quad> {
    var ls := Labels(s);
    if |ls| == 4 && IsOctetText(ls[0]) && IsOctetText(ls[1]) && IsOctetText(ls[2]) && IsOctetText(ls[3])
    then Some(Quad(NatOf(ls[0]), NatOf(ls[1]), NatOf(ls[2]), NatOf(ls[3])))
    else None
  }

  /** The first of '.', ':' and '%' decides which parser `netip.ParseAddr` runs. */
  function FirstSeparator(s: string): Option<char> {
    if s == [] then None
    else if s[0] == '.' || s[0] == ':' || s[0] == '%' then Some(s[0])
    else FirstSeparator(s[1..])
  }

  /** `net.ParseIP`. */
  function ParseIP(v6: Ip6Text, s: string): Option<Ip> {
    match FirstSeparator(s)
    case None => None
    case Some(c) =>
      if c == '.' then
        match ParseQuad(s)
        case Some(q) => Some(V4(q))
        case None => None
      else if c == ':' then v6.parse(s)
      else None
  }

  /** `net.IP.String`. */
  function PrintIP(v6: Ip6Text, ip: Ip): string {
    match ip
    case V4(q) => PrintQuad(q)
    case V6(w) => v6.print6(w)
  }

  lemma DecimalHasNoDot(n: nat)
    ensures '.' !in Decimal(n)
  {
    assert AllDigits(Decimal(n));
  }

  lemma OctetRoundTrip(n: Octet)
    ensures IsOctetText(Decimal(n)) && NatOf(Decimal(n)) == n
  {
    NatOfDecimal(n);
  }

  lemma LabelsOfQuad(q: Quad)
    ensures Labels(PrintQuad(q)) == [Decimal(q.a), Decimal(q.b), Decimal(q.c), Decimal(q.d)]
  {
    DecimalHasNoDot(q.a); DecimalHasNoDot(q.b); DecimalHasNoDot(q.c); DecimalHasNoDot(q.d);
    LabelsWithoutDot(Decimal(q.a)); LabelsWithoutDot(Decimal(q.b));
    LabelsWithoutDot(Decimal(q.c)); LabelsWithoutDot(Decimal(q.d));
    var t2 := Decimal(q.c) + "." + Decimal(q.d);
    var t1 := Decimal(q.b) + "." + t2;
    LabelsOfConcat(Decimal(q.c), Decimal(q.d));
    LabelsOfConcat(Decimal(q.b), t2);
    LabelsOfConcat(Decimal(q.a), t1);
  }

  lemma {:induction false} FirstSeparatorAfterDigits(s: string, t: string)
    requires AllDigits(s)
    ensures FirstSeparator(s + "." + t) == Some('.')
  {
    if s != [] {
      assert (s + "." + t)[1..] == s[1..] + "." + t;
      FirstSeparatorAfterDigits(s[1..], t);
    }
  }

  /** Printing and parsing a dotted quad undo each other, both ways round. */
  lemma QuadRoundTrip(q: Quad, s: string)
    ensures ParseQuad(PrintQuad(q)) == Some(q)
    ensures ParseQuad(s) == Some(q) ==> PrintQuad(q) == s
  {
    LabelsOfQuad(q);
    OctetRoundTrip(q.a); OctetRoundTrip(q.b); OctetRoundTrip(q.c); OctetRoundTrip(q.d);
    if ParseQuad(s) == Some(q) {
      var ls := Labels(s);
      DecimalOfNat(ls[0]); DecimalOfNat(ls[1]); DecimalOfNat(ls[2]); DecimalOfNat(ls[3]);
      assert ls == Labels(PrintQuad(q));
      JoinOfLabels(s);
      JoinOfLabels(PrintQuad(q));
    }
  }

  predicate Separator(c: char) { c == '.' || c == ':' || c == '%' }

  lemma {:induction false} FirstSeparatorAt(t: string, c: char, u: string)
    requires Separator(c) && forall x :: x in t ==> !Separator(x)
    ensures FirstSeparator(t + [c] + u) == Some(c)
  {
    if t == [] {
      assert (t + [c] + u)[0] == c;
    } else {
      assert (t + [c] + u)[1..] == t[1..] + [c] + u && t[0] in t;
      FirstSeparatorAt(t[1..], c, u);
    }
  }

  lemma {:induction false} DotsOnly(s: string)
    requires ':' !in s && '%' !in s
    ensures FirstSeparator(s) == if '.' in s then Some('.') else None
  {
    if s != [] { DotsOnly(s[1..]); }
  }

  lemma QuadText(q: Quad)
    ensures ':' !in PrintQuad(q) && '%' !in PrintQuad(q) && '.' in PrintQuad(q)
  {
    assert AllDigits(Decimal(q.a)) && AllDigits(Decimal(q.b)) && AllDigits(Decimal(q.c)) && AllDigits(Decimal(q.d));
    assert PrintQuad(q)[|Decimal(q.a)|] == '.';
  }

  /** Without a colon or a percent sign exactly the printed dotted quads are addresses. */
  lemma PlainTextParses(v6: Ip6Text, s: string, ip: Ip)
    requires ':' !in s && '%' !in s
    ensures ParseIP(v6, s) == Some(ip) <==> exists q :: ip == V4(q) && s == PrintQuad(q)
  {
    DotsOnly(s);
    forall q ensures ParseQuad(s) == Some(q) <==> s == PrintQuad(q) {
      QuadRoundTrip(q, s);
      QuadText(q);
    }
    if ip.V4? && s == PrintQuad(ip.quad) { QuadText(ip.quad); }
  }

  /** The first separator decides: a colon leads to the IPv6 parser, a percent sign to nothing, a dot to a dotted quad
      or nothing. */
  lemma SeparatorDecides(v6: Ip6Text, t: string, u: string, ip: Ip)
    requires forall x :: x in t ==> !Separator(x)
    ensures ParseIP(v6, t + ":" + u) == v6.parse(t + ":" + u)
    ensures ParseIP(v6, t + "%" + u) == None
    ensures ParseIP(v6, t + "." + u) == Some(ip) ==> ip.V4? && t + "." + u == PrintQuad(ip.quad)
  {
    FirstSeparatorAt(t, ':', u);
    FirstSeparatorAt(t, '%', u);
    FirstSeparatorAt(t, '.', u);
    if ip.V4? { QuadRoundTrip(ip.quad, t + "." + u); }
  }

  lemma IpRoundTrip(v6: Ip6Text, ip: Ip)
    requires v6.Lawful()
    ensures ParseIP(v6, PrintIP(v6, ip)) == Some(ip)
  {
    match ip
    case V4(q) =>
      QuadRoundTrip(q, []);
      FirstSeparatorAfterDigits(Decimal(q.a), Decimal(q.b) + "." + (Decimal(q.c) + "." + Decimal(q.d)));
    case V6(w) =>
      assert FirstSeparator(v6.print6(w)) == Some(':');
  }
}
