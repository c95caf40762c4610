/** The label parser of the Docker source (pkg/source/docker.go). */
module ContainerLabels {
  import opened Text
  import opened Addresses
  import opened Endpoints
  import opened Provider
  import opened Plan
  import opened Cycle

  // ----- validity -----

  predicate IsAlnum(c: char) { 'a' <= c <= 'z' || 'A' <= c <= 'Z' || '0' <= c <= '9' }

  predicate AllLabelChars(s: string) { forall i :: 0 <= i < |s| ==> IsAlnum(s[i]) || s[i] == '-' }

  /** `labelRE`: an alphanumeric, then optionally up to 61 label characters and an alphanumeric. */
  predicate MatchesLabelRE(s: string) {
    && |s| >= 1 && IsAlnum(s[0])
    && (|s| == 1 || (|s| - 2 <= 61 && AllLabelChars(s[1..|s| - 1]) && IsAlnum(s[|s| - 1])))
  }

  /** An RFC 1123 label: 1 to 63 letters, digits and hyphens, with no hyphen at either end. */
  predicate IsLabel(s: string) {
    1 <= |s| <= 63 && AllLabelChars(s) && s[0] != '-' && s[|s| - 1] != '-'
  }

  lemma LabelREIsLabel(s: string)
    ensures MatchesLabelRE(s) <==> IsLabel(s)
  {
    if |s| >= 2 {
      var mid := s[1..|s| - 1];
      assert s == [s[0]] + mid + [s[|s| - 1]];
      if IsLabel(s) {
        forall i | 0 <= i < |mid| ensures IsAlnum(mid[i]) || mid[i] == '-' { assert mid[i] == s[i + 1]; }
      }
    }
  }

  /** A hostname: labels joined by dots, at most 253 characters, one final dot allowed. */
  predicate IsHostname(name: string) {
    var s := TrimDot(name);
    1 <= |s| <= 253 && forall l :: l in Labels(s) ==> IsLabel(l)
  }

  /** The name is these labels joined by dots, with or without a final dot. */
  ghost predicate Spells(ls: seq<string>, name: string) {
    && |ls| >= 1 && (forall l :: l in ls ==> IsLabel(l)) && |JoinLabels(ls)| <= 253
    && (name == JoinLabels(ls) || name == JoinLabels(ls) + ".")
  }

  lemma LabelHasNoDot(l: string)
    requires IsLabel(l)
    ensures '.' !in l
  {
    assert forall i :: 0 <= i < |l| ==> IsAlnum(l[i]) || l[i] == '-';
  }

  lemma FinalDotLabel(s: string)
    requires EndsWithDot(s)
    ensures "" in Labels(s)
  {
    var a := s[..|s| - 1];
    assert s == a + "." + "";
    LabelsOfConcat(a, "");
    assert Labels("") == [""];
  }

  lemma JoinedLabels(ls: seq<string>)
    requires |ls| >= 1 && forall l :: l in ls ==> IsLabel(l)
    ensures var s := JoinLabels(ls); Labels(s) == ls && s != "" && !EndsWithDot(s)
  {
    forall l | l in ls ensures '.' !in l { LabelHasNoDot(l); }
    LabelsOfJoin(ls);
    var s := JoinLabels(ls);
    assert "" !in ls;
    if EndsWithDot(s) { FinalDotLabel(s); }
    assert Labels("") == [""];
  }

  lemma HostnameSpelled(name: string)
    requires IsHostname(name)
    ensures Spells(Labels(TrimDot(name)), name)
  {
    JoinOfLabels(TrimDot(name));
    assert EndsWithDot(name) ==> name == TrimDot(name) + ".";
  }

  lemma SpelledHostname(ls: seq<string>, name: string)
    requires Spells(ls, name)
    ensures IsHostname(name)
  {
    JoinedLabels(ls);
    var s := JoinLabels(ls);
    assert (s + ".")[..|s|] == s;
    assert TrimDot(name) == s;
  }

  /** The hostname rule as a grammar. */
  lemma HostnameIff(name: string)
    ensures IsHostname(name) <==> exists ls :: Spells(ls, name)
  {
    if IsHostname(name) { HostnameSpelled(name); }
    if ls :| Spells(ls, name) { SpelledHostname(ls, name); }
  }

  method IsValidHostname(name: string) returns (ok: bool)
    ensures ok <==> IsHostname(name)
    ensures ok <==> exists ls :: Spells(ls, name)
  {
    HostnameIff(name);
    var s := TrimDot(name);
    if |s| == 0 || |s| > 253 { return false; }
    var ls := Labels(s);
    for i := 0 to |ls|
      invariant forall j :: 0 <= j < i ==> IsLabel(ls[j])
    {
      LabelREIsLabel(ls[i]);
      if !MatchesLabelRE(ls[i]) { return false; }
    }
    return true;
  }

  /** `ipv4RE`: four dot-separated runs of digits. */
  predicate LooksLikeQuad(s: string) {
    |Labels(s)| == 4 && forall l :: l in Labels(s) ==> l != [] && AllDigits(l)
  }

  predicate IsTarget(v6: Ip6Text, s: string) {
    ParseIP(v6, s).Some? || (IsHostname(s) && !LooksLikeQuad(s))
  }

  predicate DigitRun(s: string) { s != "" && AllDigits(s) }

  /** Four runs of digits joined by dots. */
  ghost predicate FourRuns(s: string, a: string, b: string, c: string, d: string) {
    DigitRun(a) && DigitRun(b) && DigitRun(c) && DigitRun(d) && s == a + "." + (b + "." + (c + "." + d))
  }

  lemma RunsUnmarked(s: string, a: string, b: string, c: string, d: string)
    requires FourRuns(s, a, b, c, d)
    ensures ':' !in s && '%' !in s
  {
    assert forall x: char :: x in s ==> x in a || x in b || x in c || x in d || x == '.';
  }

  lemma RunsLabels(s: string, a: string, b: string, c: string, d: string)
    requires FourRuns(s, a, b, c, d)
    ensures Labels(s) == [a, b, c, d]
  {
    LabelsWithoutDot(a); LabelsWithoutDot(b); LabelsWithoutDot(c); LabelsWithoutDot(d);
    LabelsOfConcat(c, d);
    LabelsOfConcat(b, c + "." + d);
    LabelsOfConcat(a, b + "." + (c + "." + d));
  }

  lemma JoinFour(a: string, b: string, c: string, d: string)
    ensures JoinLabels([a, b, c, d]) == a + "." + (b + "." + (c + "." + d))
  {
    assert [a, b, c, d][1..] == [b, c, d] && [b, c, d][1..] == [c, d] && [c, d][1..] == [d];
    assert JoinLabels([c, d]) == c + "." + JoinLabels([d]) == c + "." + d;
    assert JoinLabels([b, c, d]) == b + "." + JoinLabels([c, d]);
    assert JoinLabels([a, b, c, d]) == a + "." + JoinLabels([b, c, d]);
  }

  lemma QuadLookIff(s: string)
    ensures LooksLikeQuad(s) <==> exists a, b, c, d :: FourRuns(s, a, b, c, d)
  {
    if LooksLikeQuad(s) {
      var ls := Labels(s);
      JoinOfLabels(s);
      JoinFour(ls[0], ls[1], ls[2], ls[3]);
      assert ls == [ls[0], ls[1], ls[2], ls[3]];
      assert forall i :: 0 <= i < 4 ==> ls[i] in ls;
      assert FourRuns(s, ls[0], ls[1], ls[2], ls[3]);
    }
    if a, b, c, d :| FourRuns(s, a, b, c, d) { RunsLabels(s, a, b, c, d); }
  }

  /** Four dot-separated runs of digits are a target only as the printed form of an address: 999.999.999.999 is none,
      although it would pass as a hostname. */
  lemma AlmostAddresses(v6: Ip6Text, s: string, a: string, b: string, c: string, d: string)
    requires FourRuns(s, a, b, c, d)
    ensures IsTarget(v6, s) <==> exists q :: s == PrintQuad(q)
  {
    RunsUnmarked(s, a, b, c, d);
    QuadLookIff(s);
    forall ip ensures ParseIP(v6, s) == Some(ip) <==> exists q :: ip == V4(q) && s == PrintQuad(q) {
      PlainTextParses(v6, s, ip);
    }
    if q :| s == PrintQuad(q) { assert ParseIP(v6, s) == Some(V4(q)); }
  }

  /** Any other target is an address or a hostname. */
  lemma OtherTargets(v6: Ip6Text, s: string)
    requires !exists a, b, c, d :: FourRuns(s, a, b, c, d)
    ensures IsTarget(v6, s) <==> ParseIP(v6, s).Some? || exists ls :: Spells(ls, s)
  {
    QuadLookIff(s);
    HostnameIff(s);
  }

  method IsValidTarget(v6: Ip6Text, s: string) returns (ok: bool)
    ensures ok <==> IsTarget(v6, s)
  {
    if LooksLikeQuad(s) { return ParseIP(v6, s).Some?; }
    if ParseIP(v6, s).Some? { return true; }
    ok := IsValidHostname(s);
  }

  // ----- strings.TrimSpace and strconv.ParseInt -----

  /** Unicode White_Space. */
  predicate IsSpace(c: char) {
    || c == '\t' || c == '\n' || c == '\U{B}' || c == '\U{C}' || c == '\r' || c == ' ' || c == '\U{85}' || c == '\U{A0}'
    || c == '\U{1680}' || '\U{2000}' <= c <= '\U{200A}' || c == '\U{2028}' || c == '\U{2029}' || c == '\U{202F}'
    || c == '\U{205F}' || c == '\U{3000}'
  }

  function TrimSpace(s: string): string
    decreases |s|
  {
    if s != [] && IsSpace(s[0]) then TrimSpace(s[1..])
    else if s != [] && IsSpace(s[|s| - 1]) then TrimSpace(s[..|s| - 1])
    else s
  }

  /** The character classes by code point. */
  lemma CharacterClasses(c: char)
    ensures var u := c as int;
            && (IsDigit(c) <==> 0x30 <= u <= 0x39)
            && (IsAlnum(c) <==> IsDigit(c) || 0x41 <= u <= 0x5A || 0x61 <= u <= 0x7A)
            && (IsSpace(c) <==>
                0x09 <= u <= 0x0D || 0x2000 <= u <= 0x200A
                || u in {0x20, 0x85, 0xA0, 0x1680, 0x2028, 0x2029, 0x202F, 0x205F, 0x3000})
  {
  }

  predicate AllSpace(s: string) { forall i :: 0 <= i < |s| ==> IsSpace(s[i]) }

  /** What is left is a part of the text, with only space around it and no space at its ends. */
  lemma {:induction false} TrimSpaceSpec(s: string) returns (before: string, after: string)
    ensures s == before + TrimSpace(s) + after && AllSpace(before) && AllSpace(after)
    ensures var r := TrimSpace(s); r != [] ==> !IsSpace(r[0]) && !IsSpace(r[|r| - 1])
    decreases |s|
  {
    if s != [] && IsSpace(s[0]) {
      before, after := TrimSpaceSpec(s[1..]);
      assert s == ([s[0]] + before) + TrimSpace(s) + after;
      before := [s[0]] + before;
    } else if s != [] && IsSpace(s[|s| - 1]) {
      before, after := TrimSpaceSpec(s[..|s| - 1]);
      assert s == before + TrimSpace(s) + (after + [s[|s| - 1]]);
      after := after + [s[|s| - 1]];
    } else {
      before, after := [], [];
    }
  }

  /** Conversely, what stands between the space is what trimming leaves. */
  lemma {:induction false} TrimSpaceOf(before: string, t: string, after: string)
    requires AllSpace(before) && AllSpace(after) && (t != "" ==> !IsSpace(t[0]) && !IsSpace(t[|t| - 1]))
    ensures TrimSpace(before + t + after) == t
    decreases |before| + |after|, |after|
  {
    var s := before + t + after;
    if before != "" {
      assert s[1..] == before[1..] + t + after;
      TrimSpaceOf(before[1..], t, after);
    } else if t == "" {
      assert s == after + t + "";
      if after != "" { TrimSpaceOf(after, t, ""); }
    } else if after != "" {
      assert s[..|s| - 1] == before + t + after[..|after| - 1];
      TrimSpaceOf(before, t, after[..|after| - 1]);
    } else {
      assert s == t;
    }
  }

  /** `strconv.ParseInt(s, 10, 64)`. */
  function ParseInt(s: string): Option<int> {
    var signed := s != [] && (s[0] == '+' || s[0] == '-');
    var digits := if signed then s[1..] else s;
    if digits == [] || !AllDigits(digits) then None
    else
      var n: int := NatOf(digits);
      var v := if signed && s[0] == '-' then -n else n;
      if -TWO63 <= v < TWO63 then Some(v) else None
  }

  // ----- one record -----

  function ParseTTL(raw: string): Option<int> {
    if raw == "" then Some(DEFAULT_TTL)
    else
      match ParseInt(TrimSpace(raw))
      case Some(v) => if v < 0 then None else Some(v)
      case None => None
  }

  // ----- what the text of a TTL means -----

  /** `t` is `n` in decimal, leading zeros allowed. */
  ghost predicate Numeral(t: string, n: nat) { exists z: nat :: t == Zeros(z) + Decimal(n) }

  /** The trimmed text is a numeral, or one after a plus sign; a minus sign is allowed before zero only. */
  ghost predicate ReadsAs(raw: string, n: nat) {
    var t := TrimSpace(raw);
    || Numeral(t, n)
    || (t != "" && t[0] == '+' && Numeral(t[1..], n))
    || (t != "" && t[0] == '-' && Numeral(t[1..], n) && n == 0)
  }

  /** A TTL label that is missing or empty, or zero, means 300; any other number below 2^63 means itself. */
  ghost predicate MeansTTL(raw: string, ttl: int) {
    || (raw == "" && ttl == 300)
    || (1 <= ttl < 0x8000_0000_0000_0000 && ReadsAs(raw, ttl))
    || (ReadsAs(raw, 0) && ttl == 300)
  }

  lemma NumeralReads(t: string, n: nat)
    requires Numeral(t, n)
    ensures t != "" && AllDigits(t) && NatOf(t) == n
  {
    var z: nat :| t == Zeros(z) + Decimal(n);
    NatOfZeros(z, Decimal(n));
    NatOfDecimal(n);
  }

  lemma NumeralIff(t: string, n: nat)
    ensures Numeral(t, n) <==> t != "" && AllDigits(t) && NatOf(t) == n
  {
    if Numeral(t, n) { NumeralReads(t, n); }
    if t != "" && AllDigits(t) && NatOf(t) == n { var z := DigitsAreNumeral(t); }
  }

  lemma ParseIntMeaning(raw: string, n: nat)
    ensures var t := TrimSpace(raw); ReadsAs(raw, n) && n < TWO63 <==> ParseInt(t) == Some(n)
  {
    var t := TrimSpace(raw);
    NumeralIff(t, n);
    if t != "" {
      NumeralIff(t[1..], n);
      assert IsDigit(t[0]) ==> t[0] != '+' && t[0] != '-';
    }
  }

  lemma TTLMeaning(raw: string, ttl: int)
    ensures MeansTTL(raw, ttl) <==>
            ParseTTL(raw).Some? && ttl == NewEndpoint("", [], "", ParseTTL(raw).value).ttl
  {
    ParseIntMeaning(raw, 0);
    if ttl > 0 { ParseIntMeaning(raw, ttl); }
    assert Labels("") == [""];
    if raw == "" { assert TrimSpace(raw) == "" && ParseInt("") == None; }
  }

  /** What a group of labels asks for, label by label. */
  ghost predicate MeansRecord(v6: Ip6Text, hostname: string, target: string, rawTTL: string, rawType: string,
                              ep: Endpoint) {
    var name, t, recordType := TrimSpace(hostname), TrimSpace(target), TrimSpace(rawType);
    && IsHostname(name) && ep.dnsName == name
    && IsTarget(v6, t) && ep.targets == [t]
    && MeansTTL(rawTTL, ep.ttl)
    && (recordType != "" ==> ep.recordType == recordType)
    && (recordType == "" ==> match ParseIP(v6, t)
                             case None => ep.recordType == "CNAME"
                             case Some(V4(_)) => ep.recordType == "A"
                             case Some(V6(_)) => ep.recordType == "AAAA")
  }

  lemma RecordMeaning(v6: Ip6Text, hostname: string, target: string, rawTTL: string, rawType: string, ep: Endpoint)
    ensures ParseRecord(v6, hostname, target, rawTTL, rawType) == Some(ep) <==>
            MeansRecord(v6, hostname, target, rawTTL, rawType, ep)
  {
    TTLMeaning(rawTTL, ep.ttl);
  }

  /** The endpoint of one group of labels, or none if a required label is missing or invalid. */
  function ParseRecord(v6: Ip6Text, hostname: string, target: string, rawTTL: string,
                       rawType: string): Option<Endpoint> {
    var name, t, ttl, recordType := TrimSpace(hostname), TrimSpace(target), ParseTTL(rawTTL), TrimSpace(rawType);
    if name == "" || !IsHostname(name) || t == "" || !IsTarget(v6, t) || ttl.None? then None
    else Some(NewEndpoint(name, [t], if recordType == "" then InferRecordType(v6, t) else recordType, ttl.value))
  }

  method ParseSingle(v6: Ip6Text, hostname: string, target: string, rawTTL: string, rawType: string)
    returns (r: Option<Endpoint>)
    ensures r == ParseRecord(v6, hostname, target, rawTTL, rawType)
    ensures forall ep :: r == Some(ep) <==> MeansRecord(v6, hostname, target, rawTTL, rawType, ep)
  {
    forall ep
      ensures ParseRecord(v6, hostname, target, rawTTL, rawType) == Some(ep) <==>
              MeansRecord(v6, hostname, target, rawTTL, rawType, ep)
    {
      RecordMeaning(v6, hostname, target, rawTTL, rawType, ep);
    }
    var name := TrimSpace(hostname);
    if name == "" { return None; }
    var ok := IsValidHostname(name);
    if !ok { return None; }
    var t := TrimSpace(target);
    if t == "" { return None; }
    ok := IsValidTarget(v6, t);
    if !ok { return None; }
    var ttl := DEFAULT_TTL;
    if rawTTL != "" {
      var v := ParseInt(TrimSpace(rawTTL));
      if v.None? || v.value < 0 { return None; }
      ttl := v.value;
    }
    var recordType := TrimSpace(rawType);
    if recordType == "" { recordType := InferRecordType(v6, t); }
    return Some(NewEndpoint(name, [t], recordType, ttl));
  }

  // ----- a container -----

  type LabelMap = map<string, string>

  const LABEL_PREFIX: string := "external-dns.io/"

  /** A missing label reads as the empty text. */
  function At(labels: LabelMap, key: string): string { if key in labels then labels[key] else "" }

  /** `field`, or `field-i` for an indexed record. */
  function IndexKey(field: string, i: nat): string { LABEL_PREFIX + field + "-" + Decimal(i) }

  lemma IndexKeyInjective(field: string, i: nat, j: nat)
    requires IndexKey(field, i) == IndexKey(field, j)
    ensures i == j
  {
    var p := LABEL_PREFIX + field + "-";
    assert Decimal(i) == IndexKey(field, i)[|p|..] && Decimal(j) == IndexKey(field, j)[|p|..];
    DecimalInjective(i, j);
  }

  function Plain(v6: Ip6Text, labels: LabelMap): Option<Endpoint> {
    var key := LABEL_PREFIX + "hostname";
    if key !in labels then None
    else ParseRecord(v6, labels[key], At(labels, LABEL_PREFIX + "target"), At(labels, LABEL_PREFIX + "ttl"),
        At(labels, LABEL_PREFIX + "record-type"))
  }

  function Indexed(v6: Ip6Text, labels: LabelMap, i: nat): Option<Endpoint> {
    ParseRecord(v6, At(labels, IndexKey("hostname", i)), At(labels, IndexKey("target", i)),
        At(labels, IndexKey("ttl", i)), At(labels, IndexKey("record-type", i)))
  }

  /** The valid ones among the first `m` indexed records, in order. */
  function FirstIndexed(v6: Ip6Text, labels: LabelMap, m: nat): seq<Endpoint> {
    FirstPresent(AllIndexed(v6, labels), m)
  }

  function AllIndexed(v6: Ip6Text, labels: LabelMap): nat -> Option<Endpoint> {
    (i: nat) => Indexed(v6, labels, i)
  }

  predicate HasHost(labels: LabelMap, i: nat) { IndexKey("hostname", i) in labels }

  /** `m` is the least index without a hostname label. */
  ghost predicate FirstGap(labels: LabelMap, m: nat) {
    !HasHost(labels, m) && Filled(labels, m)
  }

  ghost predicate Filled(labels: LabelMap, m: nat) {
    forall i: nat :: i < m ==> HasHost(labels, i)
  }

  lemma FilledStep(labels: LabelMap, i: nat)
    requires Filled(labels, i) && HasHost(labels, i)
    ensures Filled(labels, i + 1) && i + 1 <= |labels|
  {
    IndicesFit(labels, i + 1);
  }

  lemma {:induction false} DistinctFit(keys: seq<string>, s: set<string>)
    requires Distinct(keys) && forall k :: k in keys ==> k in s
    ensures |keys| <= |s|
  {
    if keys != [] {
      var n := |keys| - 1;
      DistinctFit(keys[..n], s - {keys[n]});
    }
  }

  /** A label map with `m` consecutive hostname indices has at least `m` labels: the loop ends. */
  lemma IndicesFit(labels: LabelMap, m: nat)
    requires Filled(labels, m)
    ensures m <= |labels|
  {
    var keys := seq(m, (i: nat) => IndexKey("hostname", i));
    forall k | k in keys ensures k in labels {
      var i: nat :| i < m && keys[i] == k;
      assert HasHost(labels, i);
    }
    forall i, j | 0 <= i < j < m ensures keys[i] != keys[j] {
      if IndexKey("hostname", i) == IndexKey("hostname", j) { IndexKeyInjective("hostname", i, j); }
    }
    DistinctFit(keys, labels.Keys);
  }

  /** The first gap from index `i` on. */
  ghost function GapFrom(labels: LabelMap, i: nat): (m: nat)
    requires Filled(labels, i)
    ensures FirstGap(labels, m)
    decreases if i <= |labels| then |labels| - i else 0
  {
    IndicesFit(labels, i);
    if HasHost(labels, i) then FilledStep(labels, i); GapFrom(labels, i + 1) else i
  }

  /** The plain record, then the indexed ones up to the first gap. */
  ghost function EndpointsOf(v6: Ip6Text, labels: LabelMap): seq<Endpoint> {
    Present(Plain(v6, labels)) + FirstIndexed(v6, labels, GapFrom(labels, 0))
  }

  lemma GapIsUnique(labels: LabelMap, m: nat)
    requires FirstGap(labels, m)
    ensures m == GapFrom(labels, 0)
  {
    var m' := GapFrom(labels, 0);
    assert !(m < m') && !(m' < m);
  }

  method ParsePlain(v6: Ip6Text, labels: LabelMap) returns (r: Option<Endpoint>)
    ensures r == Plain(v6, labels)
  {
    var key := LABEL_PREFIX + "hostname";
    if key !in labels { return None; }
    r := ParseSingle(v6, labels[key], At(labels, LABEL_PREFIX + "target"), At(labels, LABEL_PREFIX + "ttl"),
        At(labels, LABEL_PREFIX + "record-type"));
  }

  method ParseIndexed(v6: Ip6Text, labels: LabelMap, i: nat) returns (r: Option<Endpoint>)
    ensures r == Indexed(v6, labels, i)
  {
    r := ParseSingle(v6, At(labels, IndexKey("hostname", i)), At(labels, IndexKey("target", i)),
        At(labels, IndexKey("ttl", i)), At(labels, IndexKey("record-type", i)));
  }

  /** The body of the loop. */
  method AppendIndexed(v6: Ip6Text, labels: LabelMap, i: nat, eps: seq<Endpoint>) returns (out: seq<Endpoint>)
    requires eps == FirstIndexed(v6, labels, i)
    ensures out == FirstIndexed(v6, labels, i + 1)
  {
    var ep := ParseIndexed(v6, labels, i);
    out := eps + Present(ep);
  }

  /** The loop ends because decimal index keys are distinct and the map is finite. */
  method CollectIndexed(v6: Ip6Text, labels: LabelMap) returns (eps: seq<Endpoint>)
    ensures eps == FirstIndexed(v6, labels, GapFrom(labels, 0))
  {
    eps := [];
    var i: nat := 0;
    while HasHost(labels, i)
      invariant Filled(labels, i) && i <= |labels|
      invariant eps == FirstIndexed(v6, labels, i)
      decreases |labels| - i
    {
      eps := AppendIndexed(v6, labels, i, eps);
      FilledStep(labels, i);
      i := i + 1;
    }
    GapIsUnique(labels, i);
  }

  method EndpointsFromLabels(v6: Ip6Text, labels: LabelMap) returns (eps: seq<Endpoint>)
    ensures eps == EndpointsOf(v6, labels)
  {
    var plain := ParsePlain(v6, labels);
    var indexed := CollectIndexed(v6, labels);
    eps := Present(plain) + indexed;
  }

  /** The labels that are read: `external-dns.io/` and the field, then a hyphen and the index, counted from 0. */
  lemma LabelKeys(v6: Ip6Text, labels: LabelMap, i: nat)
    ensures HasHost(labels, i) <==> "external-dns.io/hostname-" + Decimal(i) in labels
    ensures Indexed(v6, labels, i) ==
            ParseRecord(v6, At(labels, "external-dns.io/hostname-" + Decimal(i)),
                At(labels, "external-dns.io/target-" + Decimal(i)), At(labels, "external-dns.io/ttl-" + Decimal(i)),
                At(labels, "external-dns.io/record-type-" + Decimal(i)))
    ensures Plain(v6, labels) == if "external-dns.io/hostname" !in labels then None else
            ParseRecord(v6, labels["external-dns.io/hostname"], At(labels, "external-dns.io/target"),
                At(labels, "external-dns.io/ttl"), At(labels, "external-dns.io/record-type"))
  {
    assert LABEL_PREFIX + "hostname" + "-" == "external-dns.io/hostname-";
    assert LABEL_PREFIX + "target" + "-" == "external-dns.io/target-";
    assert LABEL_PREFIX + "ttl" + "-" == "external-dns.io/ttl-";
    assert LABEL_PREFIX + "record-type" + "-" == "external-dns.io/record-type-";
    assert LABEL_PREFIX + "hostname" == "external-dns.io/hostname";
    assert LABEL_PREFIX + "target" == "external-dns.io/target";
    assert LABEL_PREFIX + "ttl" == "external-dns.io/ttl";
    assert LABEL_PREFIX + "record-type" == "external-dns.io/record-type";
  }

  /** The endpoints of a container in order: the plain one, if any, then those of the indices `js`, which ascend and are
      all the indices below the first gap `m` that have an endpoint. */
  lemma EndpointsInOrder(v6: Ip6Text, labels: LabelMap) returns (m: nat, tail: seq<Endpoint>, js: seq<nat>)
    ensures FirstGap(labels, m) && PresentAt((i: nat) => Indexed(v6, labels, i), m, tail, js)
    ensures EndpointsOf(v6, labels) == Present(Plain(v6, labels)) + tail
  {
    m := GapFrom(labels, 0);
    var f := AllIndexed(v6, labels);
    js := FirstPresentInOrder(f, m);
    tail := FirstPresent(f, m);
    assert forall i: nat :: f(i) == Indexed(v6, labels, i);
  }

  lemma InFirstIndexed(v6: Ip6Text, labels: LabelMap, m: nat, ep: Endpoint)
    ensures ep in FirstIndexed(v6, labels, m) <==> exists i: nat :: i < m && Indexed(v6, labels, i) == Some(ep)
  {
    var f := AllIndexed(v6, labels);
    InFirstPresent(f, m, ep);
    assert forall i: nat :: f(i) == Indexed(v6, labels, i);
  }

  ghost predicate Gathered(v6: Ip6Text, containers: seq<LabelMap>, parts: seq<seq<Endpoint>>) {
    |parts| == |containers| && forall i :: 0 <= i < |parts| ==> parts[i] == EndpointsOf(v6, containers[i])
  }

  /** `eps` are the endpoints of the containers, one container after the other. */
  ghost predicate AllEndpoints(v6: Ip6Text, containers: seq<LabelMap>, eps: seq<Endpoint>) {
    exists parts :: Gathered(v6, containers, parts) && eps == Flatten(parts)
  }

  lemma GatherOne(v6: Ip6Text, containers: seq<LabelMap>, i: nat, parts: seq<seq<Endpoint>>)
    requires i < |containers| && Gathered(v6, containers[..i], parts)
    ensures var found := EndpointsOf(v6, containers[i]);
            Gathered(v6, containers[..i + 1], parts + [found]) && Flatten(parts + [found]) == Flatten(parts) + found
  {
    var found := EndpointsOf(v6, containers[i]);
    assert (parts + [found])[..i] == parts;
  }

  /** `DockerSource.Endpoints`, for the containers that the daemon listed. */
  method ListEndpoints(v6: Ip6Text, containers: seq<LabelMap>) returns (eps: seq<Endpoint>)
    ensures AllEndpoints(v6, containers, eps)
  {
    eps := [];
    ghost var parts: seq<seq<Endpoint>> := [];
    for i := 0 to |containers|
      invariant eps == Flatten(parts) && Gathered(v6, containers[..i], parts)
    {
      var found := EndpointsFromLabels(v6, containers[i]);
      GatherOne(v6, containers, i, parts);
      eps, parts := eps + found, parts + [found];
    }
    assert containers[..|containers|] == containers;
  }

  /** The plain record, or an indexed one below the first gap. */
  ghost predicate FromContainer(v6: Ip6Text, labels: LabelMap, ep: Endpoint) {
    || Plain(v6, labels) == Some(ep)
    || exists i: nat :: Indexed(v6, labels, i) == Some(ep) && Filled(labels, i + 1)
  }

  lemma InEndpointsOf(v6: Ip6Text, labels: LabelMap, ep: Endpoint)
    ensures ep in EndpointsOf(v6, labels) <==> FromContainer(v6, labels, ep)
  {
    var m := GapFrom(labels, 0);
    InFirstIndexed(v6, labels, m, ep);
  }

  lemma InGathered(v6: Ip6Text, containers: seq<LabelMap>, parts: seq<seq<Endpoint>>, ep: Endpoint)
    requires Gathered(v6, containers, parts)
    ensures ep in Flatten(parts) <==> exists i :: 0 <= i < |containers| && ep in EndpointsOf(v6, containers[i])
  {
    InFlatten(parts, ep);
  }

  /** Exactly the valid records of the containers, invalid ones passed over without hiding a later one. */
  lemma InAllEndpoints(v6: Ip6Text, containers: seq<LabelMap>, eps: seq<Endpoint>, ep: Endpoint)
    requires AllEndpoints(v6, containers, eps)
    ensures ep in eps <==> exists i :: 0 <= i < |containers| && FromContainer(v6, containers[i], ep)
  {
    var parts :| Gathered(v6, containers, parts) && eps == Flatten(parts);
    InGathered(v6, containers, parts, ep);
    forall i | 0 <= i < |containers|
      ensures ep in EndpointsOf(v6, containers[i]) <==> FromContainer(v6, containers[i], ep)
    {
      InEndpointsOf(v6, containers[i], ep);
    }
  }

  // ----- what the plan may rely on -----

  lemma {:induction false} LabelCharsOfLabels(s: string)
    requires forall l :: l in Labels(s) ==> AllLabelChars(l)
    ensures forall i :: 0 <= i < |s| ==> IsAlnum(s[i]) || s[i] == '-' || s[i] == '.'
  {
    if s != [] {
      var rest := Labels(s[1..]);
      if s[0] == '.' {
        forall l | l in rest ensures AllLabelChars(l) { assert l in Labels(s); }
      } else {
        var first := [s[0]] + rest[0];
        assert first in Labels(s) && first[0] == s[0];
        forall l | l in rest ensures AllLabelChars(l) {
          if l == rest[0] {
            forall i | 0 <= i < |l| ensures IsAlnum(l[i]) || l[i] == '-' { assert l[i] == first[i + 1]; }
          } else {
            assert l in Labels(s);
          }
        }
      }
      LabelCharsOfLabels(s[1..]);
    }
  }

  predicate HostChar(c: char) { IsAlnum(c) || c == '-' || c == '.' }

  lemma HostnameChars(name: string)
    requires IsHostname(name)
    ensures name != "" && forall c :: c in name ==> HostChar(c)
  {
    LabelCharsOfLabels(TrimDot(name));
    if EndsWithDot(name) { assert name == TrimDot(name) + "."; }
  }

  /** Every parsed endpoint has one target, a positive TTL and a hostname, so no bar in its name. */
  lemma ParsedFacts(v6: Ip6Text, hostname: string, target: string, rawTTL: string, rawType: string, ep: Endpoint)
    requires ParseRecord(v6, hostname, target, rawTTL, rawType) == Some(ep)
    ensures ep.dnsName != "" && '|' !in ep.dnsName && IsHostname(ep.dnsName)
    ensures |ep.targets| == 1 && IsTarget(v6, ep.targets[0]) && 1 <= ep.ttl < TWO63
    ensures TrimSpace(rawType) == "" ==> ep.recordType == InferRecordType(v6, ep.targets[0])
  {
    HostnameChars(ep.dnsName);
  }

  /** Exactly when an endpoint with an inferred type reads back equal: no final dot, a TTL the server keeps, and an
      address in its canonical text.  An IPv4 address in IPv6 notation is inferred to be of type A and never is. */
  lemma ParsedCanonicalIff(cfg: Config, hostname: string, target: string, rawTTL: string, ep: Endpoint)
    requires ParseRecord(cfg.v6, hostname, target, rawTTL, "") == Some(ep) && cfg.minTTL < TWO32
    ensures Canonical(cfg, ep) <==>
            && !EndsWithDot(ep.dnsName)
            && cfg.minTTL <= ep.ttl < TWO32
            && match ParseIP(cfg.v6, ep.targets[0])
               case None => !EndsWithDot(ep.targets[0])
               case Some(V4(_)) => FirstSeparator(ep.targets[0]) == Some('.')
               case Some(V6(w)) => cfg.v6.print6(w) == ep.targets[0]
  {
    ParsedFacts(cfg.v6, hostname, target, rawTTL, "", ep);
    CanonicalIff(cfg, ep);
  }

  ghost predicate WellParsed(v6: Ip6Text, ep: Endpoint) {
    && ep.dnsName != "" && '|' !in ep.dnsName && IsHostname(ep.dnsName)
    && |ep.targets| == 1 && IsTarget(v6, ep.targets[0]) && 1 <= ep.ttl < TWO63
  }

  lemma SourceFacts(v6: Ip6Text, containers: seq<LabelMap>, eps: seq<Endpoint>, ep: Endpoint)
    requires AllEndpoints(v6, containers, eps) && ep in eps
    ensures WellParsed(v6, ep)
  {
    InAllEndpoints(v6, containers, eps, ep);
    var j :| 0 <= j < |containers| && FromContainer(v6, containers[j], ep);
    var c := containers[j];
    if Plain(v6, c) == Some(ep) {
      ParsedFacts(v6, c[LABEL_PREFIX + "hostname"], At(c, LABEL_PREFIX + "target"), At(c, LABEL_PREFIX + "ttl"),
          At(c, LABEL_PREFIX + "record-type"), ep);
    } else {
      var i: nat :| Indexed(v6, c, i) == Some(ep);
      ParsedFacts(v6, At(c, IndexKey("hostname", i)), At(c, IndexKey("target", i)), At(c, IndexKey("ttl", i)),
          At(c, IndexKey("record-type", i)), ep);
    }
  }

  /** What the parser leaves open: a final dot, the TTL range of the server, the spelling of an address, the type. */
  predicate Tidy(cfg: Config, ep: Endpoint) {
    && !EndsWithDot(ep.dnsName)
    && cfg.minTTL <= ep.ttl < TWO32
    && |ep.targets| == 1 && CanonicalTarget(cfg, ep.recordType, ep.targets[0])
    && !IsOwnershipTXT(ep)
  }

  /** The desired set of a Docker source is readable exactly when the endpoints that survive the index are tidy. */
  lemma SourceReadableIff(cfg: Config, owner: string, containers: seq<LabelMap>, eps: seq<Endpoint>)
    requires AllEndpoints(cfg.v6, containers, eps) && cfg.minTTL < TWO32
    ensures var want := Index(eps);
            DesiredReadable(Goal(cfg, owner, want)) <==> forall s :: s in want ==> Tidy(cfg, want[s])
  {
    var want := Index(eps);
    forall s | s in want
      ensures EpKey(want[s]) == s && want[s].dnsName != "" &&
              (Canonical(cfg, want[s]) && !IsOwnershipTXT(want[s]) <==> Tidy(cfg, want[s]))
    {
      InIndex(eps, s);
      SourceFacts(cfg.v6, containers, eps, want[s]);
      CanonicalIff(cfg, want[s]);
    }
  }
}
