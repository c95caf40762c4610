/** The RFC 2136 provider (pkg/provider/rfc2136/rfc2136.go): records read from a transfer, changes written as
    one UPDATE message. */
module Provider {
  import opened Text
  import opened Addresses
  import opened Endpoints
  import opened Dns

  datatype Config = Config(minTTL: int, v6: Ip6Text)

  datatype Changes =
    Changes(create: seq<Endpoint>, updateOld: seq<Endpoint>, updateNew: seq<Endpoint>, delete: seq<Endpoint>)
  {
    predicate IsEmpty() {
      create == [] && updateOld == [] && updateNew == [] && delete == []
    }
  }

  // ----- conversions -----

  function EffectiveTTL(cfg: Config, ttl: int): int {
    if cfg.minTTL > 0 && ttl < cfg.minTTL then cfg.minTTL else ttl
  }

  const TWO32: int := 0x1_0000_0000

  /** Go's `uint32(n)`. */
  function U32(n: int): nat { n % TWO32 }

  function TypeOf(d: RData): string {
    match d
    case A(_) => TYPE_A
    case AAAA(_) => TYPE_AAAA
    case CNAME(_) => TYPE_CNAME
    case TXT(_) => TYPE_TXT
    case Other(_, _) => ""
  }

  function TargetsOf(cfg: Config, d: RData): seq<string> {
    match d
    case A(q) => [PrintQuad(q)]
    case AAAA(ip) => [PrintIP(cfg.v6, ip)]
    case CNAME(t) => [TrimDot(t)]
    case TXT(ss) => ss
    case Other(_, _) => []
  }

  /** The endpoint a supported record is read as. */
  function Read(cfg: Config, k: RRKey, ttl: nat): Endpoint {
    NewEndpoint(TrimDot(k.name), TargetsOf(cfg, k.data), TypeOf(k.data), ttl)
  }

  function RrToEndpoint(cfg: Config, rr: RR): Option<Endpoint> {
    if rr.key.data.Other? then None else Some(Read(cfg, rr.key, rr.ttl))
  }

  function ToRData(cfg: Config, recordType: string, target: string): Option<RData> {
    if recordType == TYPE_A then
      match ParseIP(cfg.v6, target)
      case Some(V4(q)) => Some(A(q))
      case _ => None
    else if recordType == TYPE_AAAA then
      match ParseIP(cfg.v6, target)
      case Some(ip) => Some(AAAA(ip))
      case None => None
    else if recordType == TYPE_CNAME then Some(CNAME(Fqdn(target)))
    else if recordType == TYPE_TXT then Some(TXT([target]))
    else None
  }

  /** The records of the first `n` targets, or an error if one of them does not convert. */
  function ConvertFirst(cfg: Config, ep: Endpoint, n: nat): Option<seq<RR>>
    requires n <= |ep.targets|
  {
    if n == 0 then Some([])
    else
      match (ConvertFirst(cfg, ep, n - 1), ToRData(cfg, ep.recordType, ep.targets[n - 1]))
      case (Some(rrs), Some(d)) => Some(rrs + [RR(RRKey(Fqdn(ep.dnsName), d), U32(EffectiveTTL(cfg, ep.ttl)))])
      case _ => None
  }

  function EndpointToRRs(cfg: Config, ep: Endpoint): Option<seq<RR>> {
    ConvertFirst(cfg, ep, |ep.targets|)
  }

  /** `full` is `name` with a final dot, one added only if there is none. */
  ghost predicate IsAbsolute(name: string, full: string) {
    full != "" && full[|full| - 1] == '.' && (full == name || (full == name + "." && !EndsWithDot(name)))
  }

  /** `d` is what a target text stands for in a record of this type. */
  ghost predicate Denotes(cfg: Config, recordType: string, target: string, d: RData) {
    match d
    case A(q) => recordType == "A" && ParseIP(cfg.v6, target) == Some(V4(q))
    case AAAA(ip) => recordType == "AAAA" && ParseIP(cfg.v6, target) == Some(ip)
    case CNAME(t) => recordType == "CNAME" && IsAbsolute(target, t)
    case TXT(ss) => recordType == "TXT" && ss == [target]
    case Other(_, _) => false
  }

  /** `w` is the low half of the 64-bit number `t`. */
  ghost predicate Low32(t: int, w: nat) { w < 0x1_0000_0000 && (t - w) % 0x1_0000_0000 == 0 }

  /** `w` is written for `ttl`: a MinTTL above it takes its place. */
  ghost predicate WritesTTL(cfg: Config, ttl: int, w: nat) {
    || (0 < cfg.minTTL && ttl < cfg.minTTL && Low32(cfg.minTTL, w))
    || ((cfg.minTTL <= 0 || cfg.minTTL <= ttl) && Low32(ttl, w))
  }

  /** The record of one target. */
  ghost predicate WrittenAs(cfg: Config, ep: Endpoint, target: string, rr: RR) {
    && IsAbsolute(ep.dnsName, rr.key.name)
    && Denotes(cfg, ep.recordType, target, rr.key.data)
    && WritesTTL(cfg, ep.ttl, rr.ttl)
  }

  lemma ToRDataMeaning(cfg: Config, recordType: string, target: string, d: RData)
    ensures ToRData(cfg, recordType, target) == Some(d) <==> Denotes(cfg, recordType, target, d)
  {
  }

  /** The target stands for no record data of this type. */
  ghost predicate Meaningless(cfg: Config, recordType: string, target: string) {
    forall d :: !Denotes(cfg, recordType, target, d)
  }

  lemma MeaninglessIff(cfg: Config, recordType: string, target: string)
    ensures ToRData(cfg, recordType, target).None? <==> Meaningless(cfg, recordType, target)
  {
    forall d ensures ToRData(cfg, recordType, target) == Some(d) <==> Denotes(cfg, recordType, target, d) {
      ToRDataMeaning(cfg, recordType, target, d);
    }
  }

  lemma ConvertedAs(cfg: Config, ep: Endpoint, target: string, d: RData)
    requires ToRData(cfg, ep.recordType, target) == Some(d)
    ensures WrittenAs(cfg, ep, target, RR(RRKey(Fqdn(ep.dnsName), d), U32(EffectiveTTL(cfg, ep.ttl))))
  {
    ToRDataMeaning(cfg, ep.recordType, target, d);
  }

  /** MinTTL is enforced: within 32 bits what is written is the greater of the two. */
  lemma MinTTLEnforced(cfg: Config, ep: Endpoint, rr: RR)
    requires Yields(cfg, ep, rr) && 0 <= ep.ttl < 0x1_0000_0000 && cfg.minTTL < 0x1_0000_0000
    ensures rr.ttl >= cfg.minTTL && rr.ttl >= ep.ttl && (rr.ttl == ep.ttl || rr.ttl == cfg.minTTL)
  {
    ConvertedTTLs(cfg, ep, |ep.targets|);
  }

  lemma {:induction false} ConvertedTTLs(cfg: Config, ep: Endpoint, n: nat)
    requires n <= |ep.targets|
    ensures var r := ConvertFirst(cfg, ep, n); r.Some? ==> forall rr :: rr in r.value ==> WritesTTL(cfg, ep.ttl, rr.ttl)
  {
    if n > 0 { ConvertedTTLs(cfg, ep, n - 1); }
  }

  lemma {:induction false} FailureIsFinal(cfg: Config, ep: Endpoint, i: nat, n: nat)
    requires i <= n <= |ep.targets| && ConvertFirst(cfg, ep, i).None?
    ensures ConvertFirst(cfg, ep, n).None?
    decreases n - i
  {
    if i < n { FailureIsFinal(cfg, ep, i + 1, n); }
  }

  /** One record per target, in order; an endpoint is refused as a whole if a target stands for nothing. */
  method ConvertEndpoint(cfg: Config, ep: Endpoint) returns (r: Option<seq<RR>>)
    ensures r == EndpointToRRs(cfg, ep)
    ensures r.None? <==> exists t :: t in ep.targets && Meaningless(cfg, ep.recordType, t)
    ensures r.Some? ==>
              && |r.value| == |ep.targets|
              && forall i :: 0 <= i < |ep.targets| ==> WrittenAs(cfg, ep, ep.targets[i], r.value[i])
  {
    var rrs: seq<RR> := [];
    for i := 0 to |ep.targets|
      invariant ConvertFirst(cfg, ep, i) == Some(rrs)
      invariant |rrs| == i && forall j :: 0 <= j < i ==> WrittenAs(cfg, ep, ep.targets[j], rrs[j])
      invariant forall j :: 0 <= j < i ==> !Meaningless(cfg, ep.recordType, ep.targets[j])
    {
      var d := ToRData(cfg, ep.recordType, ep.targets[i]);
      if d.None? {
        FailureIsFinal(cfg, ep, i + 1, |ep.targets|);
        MeaninglessIff(cfg, ep.recordType, ep.targets[i]);
        return None;
      }
      ConvertedAs(cfg, ep, ep.targets[i], d.value);
      assert !Meaningless(cfg, ep.recordType, ep.targets[i]);
      rrs := rrs + [RR(RRKey(Fqdn(ep.dnsName), d.value), U32(EffectiveTTL(cfg, ep.ttl)))];
    }
    return Some(rrs);
  }

  // ----- reading the zone -----

  function ReadAll(cfg: Config, rrs: seq<RR>): seq<Endpoint> {
    if rrs == [] then []
    else
      var before := ReadAll(cfg, rrs[..|rrs| - 1]);
      match RrToEndpoint(cfg, rrs[|rrs| - 1])
      case Some(ep) => before + [ep]
      case None => before
  }

  lemma {:induction false} InReadAll(cfg: Config, rrs: seq<RR>, ep: Endpoint)
    ensures ep in ReadAll(cfg, rrs) <==> exists rr :: rr in rrs && RrToEndpoint(cfg, rr) == Some(ep)
  {
    if rrs != [] {
      var n := |rrs| - 1;
      InReadAll(cfg, rrs[..n], ep);
      assert rrs == rrs[..n] + [rrs[n]];
    }
  }

  /** One message of the transfer stream. */
  datatype Envelope = Answers(rrs: seq<RR>) | TransferError

  /** The fields of what a record is read as; addresses are the subject of `RecordRoundTrip`. */
  lemma ReadFields(cfg: Config, rr: RR)
    ensures RrToEndpoint(cfg, rr).None? <==> rr.key.data.Other?
    ensures RrToEndpoint(cfg, rr).Some? ==>
              var ep := RrToEndpoint(cfg, rr).value;
              && ep.ttl == (if rr.ttl == 0 then 300 else rr.ttl)
              && (Legal(rr.key.name) ==> rr.key.name == ep.dnsName + ".")
              && match rr.key.data
                 case A(q) => ep.recordType == "A" && ep.targets == [PrintIP(cfg.v6, V4(q))]
                 case AAAA(ip) => ep.recordType == "AAAA" && ep.targets == [PrintIP(cfg.v6, ip)]
                 case CNAME(t) => ep.recordType == "CNAME" && |ep.targets| == 1 && (Legal(t) ==> t == ep.targets[0] + ".")
                 case TXT(ss) => ep.recordType == "TXT" && ep.targets == ss
  {
    LegalTrim(rr.key.name);
    if rr.key.data.CNAME? { LegalTrim(rr.key.data.target); }
  }

  lemma LegalTrim(x: string)
    ensures Legal(x) ==> x == TrimDot(x) + "."
  {
    if Legal(x) { FqdnTrim(x); }
  }

  lemma {:induction false} ReadAllConcat(cfg: Config, a: seq<RR>, b: seq<RR>)
    ensures ReadAll(cfg, a + b) == ReadAll(cfg, a) + ReadAll(cfg, b)
  {
    if b == [] {
      assert a + b == a;
    } else {
      var n := |b| - 1;
      ReadAllConcat(cfg, a, b[..n]);
      assert (a + b)[..|a + b| - 1] == a + b[..n];
    }
  }

  function AllAnswers(env: seq<Envelope>): seq<RR>
    requires TransferError !in env
  {
    if env == [] then [] else AllAnswers(env[..|env| - 1]) + env[|env| - 1].rrs
  }

  /** The inner loop of `Records`: one envelope appended to what came before it. */
  method AppendAnswers(cfg: Config, ghost before: seq<RR>, eps: seq<Endpoint>, rrs: seq<RR>)
    returns (out: seq<Endpoint>)
    requires eps == ReadAll(cfg, before)
    ensures out == ReadAll(cfg, before + rrs)
  {
    out := eps;
    assert before + rrs[..0] == before;
    for j := 0 to |rrs|
      invariant out == ReadAll(cfg, before + rrs[..j])
    {
      assert (before + rrs[..j + 1])[..|before| + j] == before + rrs[..j];
      var ep := RrToEndpoint(cfg, rrs[j]);
      if ep.Some? { out := out + [ep.value]; }
    }
    assert rrs[..|rrs|] == rrs;
  }

  lemma {:induction false} AllAnswersConcat(a: seq<Envelope>, b: seq<Envelope>)
    requires TransferError !in a && TransferError !in b
    ensures AllAnswers(a + b) == AllAnswers(a) + AllAnswers(b)
  {
    if b == [] {
      assert a + b == a;
    } else {
      var n := |b| - 1;
      AllAnswersConcat(a, b[..n]);
      assert (a + b)[..|a + b| - 1] == a + b[..n];
    }
  }

  /** Every answer of every envelope and no other. */
  lemma {:induction false} InAllAnswers(env: seq<Envelope>, rr: RR)
    requires TransferError !in env
    ensures rr in AllAnswers(env) <==> exists i :: 0 <= i < |env| && rr in env[i].rrs
  {
    if env != [] {
      var n := |env| - 1;
      InAllAnswers(env[..n], rr);
      assert forall i :: 0 <= i < n ==> env[..n][i] == env[i];
    }
  }

  /** Some answer of the transfer reads as `ep`. */
  ghost predicate Answered(cfg: Config, env: seq<Envelope>, ep: Endpoint)
    requires TransferError !in env
  {
    exists i, rr :: 0 <= i < |env| && rr in env[i].rrs && RrToEndpoint(cfg, rr) == Some(ep)
  }

  lemma InTransfer(cfg: Config, env: seq<Envelope>, ep: Endpoint)
    requires TransferError !in env
    ensures ep in ReadAll(cfg, AllAnswers(env)) <==> Answered(cfg, env, ep)
  {
    InReadAll(cfg, AllAnswers(env), ep);
    forall rr ensures rr in AllAnswers(env) <==> exists i :: 0 <= i < |env| && rr in env[i].rrs {
      InAllAnswers(env, rr);
    }
  }

  /** A transfer reads envelope by envelope and answer by answer, in order: what its first part reads as, then what
      the rest does; one answer reads as its endpoint, if it has one. */
  lemma TransferInOrder(cfg: Config, a: seq<Envelope>, b: seq<Envelope>, rrs: seq<RR>, rr: RR)
    requires TransferError !in a && TransferError !in b
    ensures ReadAll(cfg, AllAnswers(a + b)) == ReadAll(cfg, AllAnswers(a)) + ReadAll(cfg, AllAnswers(b))
    ensures ReadAll(cfg, AllAnswers([Answers(rrs + [rr])])) ==
            ReadAll(cfg, AllAnswers([Answers(rrs)])) + Present(RrToEndpoint(cfg, rr))
    ensures ReadAll(cfg, AllAnswers([Answers([])])) == ReadAll(cfg, AllAnswers([])) == []
  {
    AllAnswersConcat(a, b);
    ReadAllConcat(cfg, AllAnswers(a), AllAnswers(b));
    forall xs: seq<RR> ensures AllAnswers([Answers(xs)]) == xs {
      assert [Answers(xs)][..0] == [];
    }
    assert (rrs + [rr])[..|rrs|] == rrs;
  }

  method Records(cfg: Config, env: seq<Envelope>) returns (r: Option<seq<Endpoint>>)
    ensures r.None? <==> TransferError in env
    ensures r.Some? ==> r.value == ReadAll(cfg, AllAnswers(env))
    ensures r.Some? ==> forall ep :: ep in r.value <==> Answered(cfg, env, ep)
  {
    var eps: seq<Endpoint> := [];
    for i := 0 to |env|
      invariant TransferError !in env[..i]
      invariant eps == ReadAll(cfg, AllAnswers(env[..i]))
    {
      if env[i] == TransferError { return None; }
      assert env[..i + 1] == env[..i] + [env[i]];
      assert env[..i + 1][..i] == env[..i];
      eps := AppendAnswers(cfg, AllAnswers(env[..i]), eps, env[i].rrs);
    }
    assert env[..|env|] == env;
    forall ep ensures ep in eps <==> Answered(cfg, env, ep) { InTransfer(cfg, env, ep); }
    return Some(eps);
  }

  // ----- the UPDATE message -----

  function Removes(rrs: seq<RR>): seq<Op> { seq(|rrs|, i requires 0 <= i < |rrs| => Remove(rrs[i].key)) }

  function Inserts(rrs: seq<RR>): seq<Op> { seq(|rrs|, i requires 0 <= i < |rrs| => Insert(rrs[i].key, rrs[i].ttl)) }

  function DeleteOps(cfg: Config, eps: seq<Endpoint>): seq<Op> {
    if eps == [] then []
    else
      var before := DeleteOps(cfg, eps[..|eps| - 1]);
      match EndpointToRRs(cfg, eps[|eps| - 1])
      case Some(rrs) => before + Removes(rrs)
      case None => before
  }

  function CreateOps(cfg: Config, eps: seq<Endpoint>): seq<Op> {
    if eps == [] then []
    else
      var before := CreateOps(cfg, eps[..|eps| - 1]);
      match EndpointToRRs(cfg, eps[|eps| - 1])
      case Some(rrs) => before + Inserts(rrs)
      case None => before
  }

  /** Removes the old records and inserts the new ones; an old endpoint that does not convert skips its pair,
      a new one that does not convert still loses the old records. */
  function UpdateOps(cfg: Config, olds: seq<Endpoint>, news: seq<Endpoint>): seq<Op> {
    if olds == [] then []
    else
      var n := |olds| - 1;
      var before := UpdateOps(cfg, olds[..n], news);
      match EndpointToRRs(cfg, olds[n])
      case None => before
      case Some(rrs) =>
        var removed := before + Removes(rrs);
        if n < |news| && EndpointToRRs(cfg, news[n]).Some?
        then removed + Inserts(EndpointToRRs(cfg, news[n]).value)
        else removed
  }

  /** Deletes, then updates, then creates, in one message. */
  function Message(cfg: Config, c: Changes): seq<Op> {
    DeleteOps(cfg, c.delete) + UpdateOps(cfg, c.updateOld, c.updateNew) + CreateOps(cfg, c.create)
  }

  method DeleteSection(cfg: Config, eps: seq<Endpoint>) returns (m: seq<Op>)
    ensures m == DeleteOps(cfg, eps)
  {
    m := [];
    for i := 0 to |eps|
      invariant m == DeleteOps(cfg, eps[..i])
    {
      assert eps[..i + 1][..i] == eps[..i];
      var rrs := ConvertEndpoint(cfg, eps[i]);
      if rrs.Some? { m := m + Removes(rrs.value); }
    }
    assert eps[..|eps|] == eps;
  }

  method UpdateSection(cfg: Config, olds: seq<Endpoint>, news: seq<Endpoint>) returns (m: seq<Op>)
    ensures m == UpdateOps(cfg, olds, news)
  {
    m := [];
    for i := 0 to |olds|
      invariant m == UpdateOps(cfg, olds[..i], news)
    {
      assert olds[..i + 1][..i] == olds[..i];
      var rrs := ConvertEndpoint(cfg, olds[i]);
      if rrs.Some? {
        m := m + Removes(rrs.value);
        if i < |news| {
          var newRRs := ConvertEndpoint(cfg, news[i]);
          if newRRs.Some? { m := m + Inserts(newRRs.value); }
        }
      }
    }
    assert olds[..|olds|] == olds;
  }

  method CreateSection(cfg: Config, eps: seq<Endpoint>) returns (m: seq<Op>)
    ensures m == CreateOps(cfg, eps)
  {
    m := [];
    for i := 0 to |eps|
      invariant m == CreateOps(cfg, eps[..i])
    {
      assert eps[..i + 1][..i] == eps[..i];
      var rrs := ConvertEndpoint(cfg, eps[i]);
      if rrs.Some? { m := m + Inserts(rrs.value); }
    }
    assert eps[..|eps|] == eps;
  }

  method BuildMessage(cfg: Config, c: Changes) returns (m: seq<Op>)
    ensures m == Message(cfg, c)
  {
    m := DeleteSection(cfg, c.delete);
    var updates := UpdateSection(cfg, c.updateOld, c.updateNew);
    m := m + updates;
    var creates := CreateSection(cfg, c.create);
    m := m + creates;
  }

  /** What came of one UPDATE: an error may reach the client although the server applied the message. */
  datatype Outcome = Success | Failure(tookEffect: bool)

  /** The server's zone after `ApplyChanges`: an empty change set sends nothing; otherwise the whole message takes
      effect or none of it. */
  method ApplyChanges(cfg: Config, z: Zone, c: Changes, outcome: Outcome) returns (z': Zone, failed: bool)
    ensures failed <==> !c.IsEmpty() && outcome.Failure?
    ensures z' == if c.IsEmpty() || outcome == Failure(false) then z else Run(z, Message(cfg, c))
  {
    if c.IsEmpty() { return z, false; }
    var m := BuildMessage(cfg, c);
    z' := if outcome == Failure(false) then z else Run(z, m);
    failed := outcome.Failure?;
  }

  lemma EmptyMessage(cfg: Config, z: Zone, c: Changes)
    requires c.IsEmpty()
    ensures Run(z, Message(cfg, c)) == z
  {
    assert Message(cfg, c) == [];
  }

  ghost predicate Yields(cfg: Config, ep: Endpoint, rr: RR) {
    EndpointToRRs(cfg, ep).Some? && rr in EndpointToRRs(cfg, ep).value
  }

  ghost predicate YieldsKey(cfg: Config, ep: Endpoint, k: RRKey) {
    exists rr :: Yields(cfg, ep, rr) && rr.key == k
  }

  lemma InRemoves(rrs: seq<RR>, op: Op)
    ensures op in Removes(rrs) <==> op.Remove? && exists rr :: rr in rrs && rr.key == op.key
  {
    if op.Remove? {
      forall rr | rr in rrs && rr.key == op.key ensures op in Removes(rrs) {
        var i :| 0 <= i < |rrs| && rrs[i] == rr;
        assert Removes(rrs)[i] == op;
      }
    }
  }

  lemma InInserts(rrs: seq<RR>, op: Op)
    ensures op in Inserts(rrs) <==> op.Insert? && RR(op.key, op.ttl) in rrs
  {
    if op.Insert? && RR(op.key, op.ttl) in rrs {
      var i :| 0 <= i < |rrs| && rrs[i] == RR(op.key, op.ttl);
      assert Inserts(rrs)[i] == op;
    }
  }

  lemma {:induction false} InDeleteOps(cfg: Config, eps: seq<Endpoint>, op: Op)
    ensures op in DeleteOps(cfg, eps) <==> op.Remove? && exists ep :: ep in eps && YieldsKey(cfg, ep, op.key)
  {
    if eps != [] {
      var n := |eps| - 1;
      InDeleteOps(cfg, eps[..n], op);
      assert eps == eps[..n] + [eps[n]];
      assert op in DeleteOps(cfg, eps) <==>
          op in DeleteOps(cfg, eps[..n]) || (op.Remove? && YieldsKey(cfg, eps[n], op.key)) by {
        if EndpointToRRs(cfg, eps[n]).Some? { InRemoves(EndpointToRRs(cfg, eps[n]).value, op); }
      }
    }
  }

  lemma {:induction false} InCreateOps(cfg: Config, eps: seq<Endpoint>, op: Op)
    ensures op in CreateOps(cfg, eps) <==> op.Insert? && exists ep :: ep in eps && Yields(cfg, ep, RR(op.key, op.ttl))
  {
    if eps != [] {
      var n := |eps| - 1;
      InCreateOps(cfg, eps[..n], op);
      assert eps == eps[..n] + [eps[n]];
      assert op in CreateOps(cfg, eps) <==>
          op in CreateOps(cfg, eps[..n]) || (op.Insert? && Yields(cfg, eps[n], RR(op.key, op.ttl))) by {
        if EndpointToRRs(cfg, eps[n]).Some? { InInserts(EndpointToRRs(cfg, eps[n]).value, op); }
      }
    }
  }

  lemma {:induction false} ConvertedNames(cfg: Config, ep: Endpoint, n: nat)
    requires n <= |ep.targets|
    ensures var r := ConvertFirst(cfg, ep, n); r.Some? ==> forall rr :: rr in r.value ==>
            rr.key.name == Fqdn(ep.dnsName)
  {
    if n > 0 { ConvertedNames(cfg, ep, n - 1); }
  }

  ghost predicate FromList(cfg: Config, eps: seq<Endpoint>, op: Op) {
    exists ep :: ep in eps && YieldsKey(cfg, ep, op.key)
  }

  /** Some pair has an old endpoint that converts and a new one that yields this record. */
  ghost predicate FromPairs(cfg: Config, olds: seq<Endpoint>, news: seq<Endpoint>, rr: RR) {
    exists i :: 0 <= i < |olds| && i < |news| && EndpointToRRs(cfg, olds[i]).Some? && Yields(cfg, news[i], rr)
  }

  lemma LastPairOps(cfg: Config, olds: seq<Endpoint>, news: seq<Endpoint>, op: Op)
    requires olds != []
    ensures var n := |olds| - 1;
            op in UpdateOps(cfg, olds, news) <==>
              || op in UpdateOps(cfg, olds[..n], news)
              || (op.Remove? && YieldsKey(cfg, olds[n], op.key))
              || (op.Insert? && n < |news| && EndpointToRRs(cfg, olds[n]).Some? && Yields(cfg, news[n], RR(op.key, op.ttl)))
  {
    var n := |olds| - 1;
    if EndpointToRRs(cfg, olds[n]).Some? {
      InRemoves(EndpointToRRs(cfg, olds[n]).value, op);
      if n < |news| && EndpointToRRs(cfg, news[n]).Some? { InInserts(EndpointToRRs(cfg, news[n]).value, op); }
    }
  }

  /** Removed is what an old endpoint yields, whether or not the new one converts; inserted is what a new one yields
      whose old one converts. */
  lemma {:induction false} InUpdateOps(cfg: Config, olds: seq<Endpoint>, news: seq<Endpoint>, op: Op)
    ensures op in UpdateOps(cfg, olds, news) <==>
            if op.Remove? then FromList(cfg, olds, op) else FromPairs(cfg, olds, news, RR(op.key, op.ttl))
  {
    if olds != [] {
      var n := |olds| - 1;
      InUpdateOps(cfg, olds[..n], news, op);
      LastPairOps(cfg, olds, news, op);
      assert olds == olds[..n] + [olds[n]];
      if op.Insert? {
        var rr := RR(op.key, op.ttl);
        assert FromPairs(cfg, olds, news, rr) <==>
            (FromPairs(cfg, olds[..n], news, rr) ||
             (n < |news| && EndpointToRRs(cfg, olds[n]).Some? && Yields(cfg, news[n], rr)));
      }
    }
  }

  /** The entries of a message, exactly. */
  lemma InMessage(cfg: Config, c: Changes, op: Op)
    ensures op in Message(cfg, c) <==>
            match op
            case Remove(k) => exists ep :: (ep in c.delete || ep in c.updateOld) && YieldsKey(cfg, ep, k)
            case Insert(k, ttl) =>
              || FromPairs(cfg, c.updateOld, c.updateNew, RR(k, ttl))
              || exists ep :: ep in c.create && Yields(cfg, ep, RR(k, ttl))
  {
    InDeleteOps(cfg, c.delete, op);
    InUpdateOps(cfg, c.updateOld, c.updateNew, op);
    InCreateOps(cfg, c.create, op);
  }

  /** Every entry of a message comes from an endpoint of the change set: removals from what is deleted or updated,
      insertions from what is created or updated. */
  lemma MessageSource(cfg: Config, c: Changes, op: Op) returns (ep: Endpoint)
    requires op in Message(cfg, c)
    ensures YieldsKey(cfg, ep, op.key)
    ensures if op.Remove? then ep in c.delete || ep in c.updateOld else ep in c.create || ep in c.updateNew
  {
    if op in DeleteOps(cfg, c.delete) {
      InDeleteOps(cfg, c.delete, op);
      ep :| ep in c.delete && YieldsKey(cfg, ep, op.key);
    } else if op in CreateOps(cfg, c.create) {
      InCreateOps(cfg, c.create, op);
      ep :| ep in c.create && Yields(cfg, ep, RR(op.key, op.ttl));
      assert YieldsKey(cfg, ep, op.key);
    } else {
      InUpdateOps(cfg, c.updateOld, c.updateNew, op);
      if op.Remove? {
        ep :| ep in c.updateOld && YieldsKey(cfg, ep, op.key);
      } else {
        var i :| 0 <= i < |c.updateOld| && i < |c.updateNew| && Yields(cfg, c.updateNew[i], RR(op.key, op.ttl));
        ep := c.updateNew[i];
      }
    }
  }

  lemma YieldedName(cfg: Config, ep: Endpoint, k: RRKey)
    requires YieldsKey(cfg, ep, k)
    ensures k.name == Fqdn(ep.dnsName)
  {
    ConvertedNames(cfg, ep, |ep.targets|);
  }

  lemma {:induction false} ConvertedTypes(cfg: Config, ep: Endpoint, n: nat)
    requires n <= |ep.targets|
    ensures var r := ConvertFirst(cfg, ep, n); r.Some? ==> forall rr :: rr in r.value ==>
            TypeOf(rr.key.data) == ep.recordType
  {
    if n > 0 {
      ConvertedTypes(cfg, ep, n - 1);
      TargetReadsBackIff(cfg, ep.recordType, ep.targets[n - 1]);
    }
  }

  lemma YieldsNoOther(cfg: Config, ep: Endpoint, k: RRKey)
    requires YieldsKey(cfg, ep, k)
    ensures !k.data.Other?
  {
    YieldedType(cfg, ep, k);
    if ep.recordType == "" { NoTypeNoData(cfg, ep, |ep.targets|); }
  }

  lemma {:induction false} NoTypeNoData(cfg: Config, ep: Endpoint, n: nat)
    requires ep.recordType == "" && n <= |ep.targets|
    ensures ConvertFirst(cfg, ep, n).Some? ==> ConvertFirst(cfg, ep, n).value == []
  {
    if n > 0 { NoTypeNoData(cfg, ep, n - 1); }
  }

  lemma {:induction false} ConvertedTargets(cfg: Config, ep: Endpoint, n: nat, rr: RR)
    requires n <= |ep.targets| && ConvertFirst(cfg, ep, n).Some? && rr in ConvertFirst(cfg, ep, n).value
    ensures exists t :: t in ep.targets && ToRData(cfg, ep.recordType, t) == Some(rr.key.data)
  {
    if rr in ConvertFirst(cfg, ep, n - 1).value {
      ConvertedTargets(cfg, ep, n - 1, rr);
    } else {
      assert ep.targets[n - 1] in ep.targets;
    }
  }

  lemma YieldedTarget(cfg: Config, ep: Endpoint, k: RRKey)
    requires YieldsKey(cfg, ep, k)
    ensures exists t :: t in ep.targets && ToRData(cfg, ep.recordType, t) == Some(k.data)
  {
    var rr :| Yields(cfg, ep, rr) && rr.key == k;
    ConvertedTargets(cfg, ep, |ep.targets|, rr);
  }

  lemma YieldedType(cfg: Config, ep: Endpoint, k: RRKey)
    requires YieldsKey(cfg, ep, k)
    ensures TypeOf(k.data) == ep.recordType
  {
    ConvertedTypes(cfg, ep, |ep.targets|);
  }

  // ----- reading and writing undo each other -----

  lemma OneTarget(cfg: Config, ep: Endpoint)
    requires |ep.targets| == 1
    ensures match ToRData(cfg, ep.recordType, ep.targets[0])
            case Some(d) => EndpointToRRs(cfg, ep) ==
                Some([RR(RRKey(Fqdn(ep.dnsName), d), U32(EffectiveTTL(cfg, ep.ttl)))])
            case None => EndpointToRRs(cfg, ep) == None
  {
    assert ConvertFirst(cfg, ep, 0) == Some([]);
    match ToRData(cfg, ep.recordType, ep.targets[0])
    case Some(d) =>
      var rr := RR(RRKey(Fqdn(ep.dnsName), d), U32(EffectiveTTL(cfg, ep.ttl)));
      assert [] + [rr] == [rr];
    case None =>
  }

  predicate SingleString(d: RData) {
    d.TXT? ==> |d.strings| == 1
  }

  /** A record that is read and written back is one record with the same name, type and data, so a removal
      hits exactly what the transfer returned. */
  lemma RecordRoundTrip(cfg: Config, k: RRKey, ttl: nat)
    requires cfg.v6.Lawful() && Legal(k.name) && LegalData(k.data) && !k.data.Other? && SingleString(k.data)
    ensures var ep := Read(cfg, k, ttl);
            |ep.targets| == 1 && ToRData(cfg, ep.recordType, ep.targets[0]) == Some(k.data) &&
                Fqdn(ep.dnsName) == k.name
    ensures EndpointToRRs(cfg, Read(cfg, k, ttl)) == Some([RR(k, U32(EffectiveTTL(cfg, Read(cfg, k, ttl).ttl)))])
  {
    FqdnTrim(k.name);
    match k.data {
    case A(q) => assert PrintQuad(q) == PrintIP(cfg.v6, V4(q)); IpRoundTrip(cfg.v6, V4(q));
    case AAAA(ip) => IpRoundTrip(cfg.v6, ip);
    case CNAME(t) => FqdnTrim(t);
    case TXT(ss) => assert ss == [ss[0]];
    }
    OneTarget(cfg, Read(cfg, k, ttl));
  }

  lemma {:induction false} TextRecordsOf(cfg: Config, ep: Endpoint, n: nat)
    requires n <= |ep.targets| && ep.recordType == TYPE_TXT
    ensures var r := ConvertFirst(cfg, ep, n);
            r.Some? && |r.value| == n && forall rr :: rr in r.value ==> rr.key.data.TXT? && |rr.key.data.strings| == 1
  {
    if n > 0 { TextRecordsOf(cfg, ep, n - 1); }
  }

  /** The round trip fails exactly for TXT records that do not hold one string. */
  lemma RewriteHitsIff(cfg: Config, k: RRKey, ttl: nat)
    requires cfg.v6.Lawful() && Legal(k.name) && LegalData(k.data) && !k.data.Other?
    ensures YieldsKey(cfg, Read(cfg, k, ttl), k) <==> SingleString(k.data)
  {
    var ep := Read(cfg, k, ttl);
    if SingleString(k.data) {
      RecordRoundTrip(cfg, k, ttl);
      assert Yields(cfg, ep, RR(k, U32(EffectiveTTL(cfg, ep.ttl))));
    } else {
      TextRecordsOf(cfg, ep, |ep.targets|);
    }
  }

  /** The data an endpoint with one target is written as; `Other` stands for an endpoint that is not. */
  function DataOf(cfg: Config, ep: Endpoint): RData {
    if |ep.targets| != 1 then Other(0, "")
    else
      match ToRData(cfg, ep.recordType, ep.targets[0])
      case Some(d) => d
      case None => Other(0, "")
  }

  function KeyOf(cfg: Config, ep: Endpoint): RRKey {
    RRKey(Fqdn(ep.dnsName), DataOf(cfg, ep))
  }

  function WrittenTTL(cfg: Config, ttl: int): nat { U32(EffectiveTTL(cfg, ttl)) }

  /** The endpoint has one target, converts, and reads back equal once written. */
  predicate Canonical(cfg: Config, ep: Endpoint) {
    && |ep.targets| == 1
    && !DataOf(cfg, ep).Other?
    && Read(cfg, KeyOf(cfg, ep), WrittenTTL(cfg, ep.ttl)) == ep
  }

  /** The target text is the one the record data prints as. */
  predicate CanonicalTarget(cfg: Config, recordType: string, target: string) {
    || (recordType == TYPE_A && ParseQuad(target).Some? && FirstSeparator(target) == Some('.'))
    || (recordType == TYPE_AAAA && ParseIP(cfg.v6, target).Some? &&
        PrintIP(cfg.v6, ParseIP(cfg.v6, target).value) == target)
    || (recordType == TYPE_CNAME && !EndsWithDot(target))
    || recordType == TYPE_TXT
  }

  lemma TTLReadsBackIff(cfg: Config, ttl: int)
    requires cfg.minTTL < TWO32
    ensures NewEndpoint("", [], "", WrittenTTL(cfg, ttl)).ttl == ttl <==> 1 <= ttl < TWO32 && cfg.minTTL <= ttl
  {
  }

  lemma AddressTargetIff(cfg: Config, target: string, q: Quad)
    requires ParseIP(cfg.v6, target) == Some(V4(q))
    ensures PrintQuad(q) == target <==> ParseQuad(target).Some? && FirstSeparator(target) == Some('.')
  {
    QuadRoundTrip(q, target);
    FirstSeparatorAfterDigits(Decimal(q.a), Decimal(q.b) + "." + (Decimal(q.c) + "." + Decimal(q.d)));
  }

  lemma TargetReadsBackIff(cfg: Config, recordType: string, target: string)
    ensures var d := ToRData(cfg, recordType, target);
            d.Some? && TargetsOf(cfg, d.value) == [target] <==> CanonicalTarget(cfg, recordType, target)
    ensures var d := ToRData(cfg, recordType, target); d.Some? ==> TypeOf(d.value) == recordType
  {
    TrimFqdn(target);
    if recordType == TYPE_A {
      match ParseIP(cfg.v6, target)
      case Some(V4(q)) => AddressTargetIff(cfg, target, q);
      case _ =>
    }
  }

  /** Exactly which single-target endpoints read back equal. */
  lemma CanonicalIff(cfg: Config, ep: Endpoint)
    requires cfg.minTTL < TWO32 && |ep.targets| == 1
    ensures Canonical(cfg, ep) <==>
            && !EndsWithDot(ep.dnsName)
            && 1 <= ep.ttl < TWO32 && cfg.minTTL <= ep.ttl
            && CanonicalTarget(cfg, ep.recordType, ep.targets[0])
  {
    TrimFqdn(ep.dnsName);
    TTLReadsBackIff(cfg, ep.ttl);
    TargetReadsBackIff(cfg, ep.recordType, ep.targets[0]);
    assert ep.targets == [ep.targets[0]];
  }

  lemma CanonicalWrites(cfg: Config, ep: Endpoint)
    requires Canonical(cfg, ep)
    ensures EndpointToRRs(cfg, ep) == Some([RR(KeyOf(cfg, ep), WrittenTTL(cfg, ep.ttl))])
    ensures Legal(Fqdn(ep.dnsName)) && !EndsWithDot(ep.dnsName) && LegalData(KeyOf(cfg, ep).data) &&
            SingleString(KeyOf(cfg, ep).data)
    ensures TrimDot(KeyOf(cfg, ep).name) == ep.dnsName && TypeOf(KeyOf(cfg, ep).data) == ep.recordType &&
            !KeyOf(cfg, ep).data.Other?
  {
    OneTarget(cfg, ep);
    TrimFqdn(ep.dnsName);
    TrimFqdn(ep.targets[0]);
  }
}
