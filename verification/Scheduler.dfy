/** The controller's loop (pkg/controller/controller.go:66-192) as a state machine: Docker events, the debounce
    timer, its callbacks, the one-slot channel, the next-tick timer and the reconcile in progress. */
module Scheduler {
  import opened Text

  // ----- configuration and backoff -----

  const SECOND: int := 1_000_000_000

  /** Durations are 64-bit nanosecond counts. */
  datatype Config = Config(interval: int, debounce: int, backoffBase: int, backoffMax: int)

  predicate Int64(x: int) { -TWO63 <= x < TWO63 }

  function ApplyDefaults(c: Config): (r: Config)
    ensures r.interval > 0 && r.debounce > 0 && r.backoffBase > 0 && r.backoffMax > 0
    ensures c.interval > 0 ==> r.interval == c.interval
    ensures c.debounce > 0 ==> r.debounce == c.debounce
    ensures c.backoffBase > 0 ==> r.backoffBase == c.backoffBase
    ensures c.backoffMax > 0 ==> r.backoffMax == c.backoffMax
    ensures c.interval <= 0 ==> r.interval == 60_000_000_000
    ensures c.debounce <= 0 ==> r.debounce == 5_000_000_000
    ensures c.backoffBase <= 0 ==> r.backoffBase == 5_000_000_000
    ensures c.backoffMax <= 0 ==> r.backoffMax == 300_000_000_000
  {
    Config(if c.interval <= 0 then 60 * SECOND else c.interval,
           if c.debounce <= 0 then 5 * SECOND else c.debounce,
           if c.backoffBase <= 0 then 5 * SECOND else c.backoffBase,
           if c.backoffMax <= 0 then 300 * SECOND else c.backoffMax)
  }

  /** Two's complement wrap-around of an int64 product. */
  function Wrap64(x: int): (r: int)
    ensures Int64(r)
    ensures (x - r) % (2 * TWO63) == 0
    ensures Int64(x) ==> r == x
  {
    (x + TWO63) % (2 * TWO63) - TWO63
  }

  function Pow2(n: nat): (r: nat)
    ensures r >= 1
  {
    if n == 0 then 1 else 2 * Pow2(n - 1)
  }

  function Shift(consecutiveErrors: int): nat {
    if consecutiveErrors - 1 < 0 then 0 else if consecutiveErrors - 1 > 20 then 20 else consecutiveErrors - 1
  }

  function BackoffDuration(c: Config, consecutiveErrors: int): int {
    var d := Wrap64(c.backoffBase * Pow2(Shift(consecutiveErrors)));
    if d > c.backoffMax then c.backoffMax else d
  }

  predicate ValidBackoff(c: Config) {
    0 < c.backoffBase < TWO63 && 0 < c.backoffMax < TWO63
  }

  lemma {:induction false} Pow2Monotone(m: nat, n: nat)
    requires m <= n
    ensures Pow2(m) <= Pow2(n)
  {
    if m < n { Pow2Monotone(m, n - 1); }
  }

  lemma MulMonotone(b: int, x: int, y: int)
    requires 0 < b && x <= y
    ensures b * x <= b * y
  {
  }

  function Min(x: int, y: int): int { if x < y then x else y }

  /** Whatever the base: the product, wrapped around, up to the ceiling. */
  lemma BackoffWraps(c: Config, k: int)
    ensures k <= 1 ==> BackoffDuration(c, k) == Min(Wrap64(c.backoffBase), c.backoffMax)
    ensures 1 <= k <= 21 ==> BackoffDuration(c, k) == Min(Wrap64(c.backoffBase * Pow2(k - 1)), c.backoffMax)
    ensures k >= 21 ==> BackoffDuration(c, k) == BackoffDuration(c, 21)
  {
    assert Pow2(0) == 1;
    assert k <= 1 ==> c.backoffBase * Pow2(Shift(k)) == c.backoffBase;
  }

  lemma Pow2Of20()
    ensures Pow2(20) == 0x10_0000
  {
    assert Pow2(5) == 32;
    assert Pow2(10) == 1024 by { assert Pow2(7) == 128; }
    assert Pow2(15) == 32768 by { assert Pow2(12) == 4096; }
    assert Pow2(20) == 1048576 by { assert Pow2(17) == 131072; }
  }

  lemma ProductFits(c: Config, n: nat)
    requires ValidBackoff(c) && c.backoffBase * 0x10_0000 < TWO63 && n <= 20
    ensures 0 < c.backoffBase * Pow2(n) < TWO63
  {
    Pow2Of20();
    Pow2Monotone(n, 20);
    MulMonotone(c.backoffBase, Pow2(n), Pow2(20));
    MulMonotone(c.backoffBase, 1, Pow2(n));
  }

  lemma BackoffFits(c: Config, k: int)
    requires ValidBackoff(c) && c.backoffBase * 0x10_0000 < TWO63 && 1 <= k <= 21
    ensures BackoffDuration(c, k) == Min(c.backoffBase * Pow2(k - 1), c.backoffMax) > 0
  {
    BackoffWraps(c, k);
    ProductFits(c, k - 1);
  }

  lemma DoubleProduct(b: int, n: nat)
    ensures b * Pow2(n + 1) == 2 * (b * Pow2(n))
  {
    var p := Pow2(n);
    assert Pow2(n + 1) == 2 * p;
    assert b * (2 * p) == 2 * (b * p);
  }

  lemma DoubleMin(x: int, m: int)
    requires x > 0 && m > 0
    ensures Min(2 * Min(x, m), m) == Min(2 * x, m)
  {
  }

  lemma BackoffDoubles(c: Config, k: int)
    requires ValidBackoff(c) && c.backoffBase * 0x10_0000 < TWO63 && 1 <= k <= 20
    ensures BackoffDuration(c, k + 1) == Min(2 * BackoffDuration(c, k), c.backoffMax)
  {
    BackoffFits(c, k);
    BackoffFits(c, k + 1);
    DoubleProduct(c.backoffBase, k - 1);
    DoubleMin(c.backoffBase * Pow2(k - 1), c.backoffMax);
  }

  /** While `base << 20` fits: the base at the first failure, twice as much at each of the next twenty, never above the
      ceiling, and from the 21st on the same. */
  lemma BackoffExact(c: Config, k: int)
    requires ValidBackoff(c) && c.backoffBase * 0x10_0000 < TWO63
    ensures k <= 1 ==> BackoffDuration(c, k) == Min(c.backoffBase, c.backoffMax)
    ensures 1 <= k <= 20 ==> BackoffDuration(c, k + 1) == Min(2 * BackoffDuration(c, k), c.backoffMax)
    ensures 1 <= k <= 21 ==> BackoffDuration(c, k) == Min(c.backoffBase * Pow2(k - 1), c.backoffMax)
    ensures k >= 21 ==> BackoffDuration(c, k) == BackoffDuration(c, 21)
    ensures BackoffDuration(c, k) > 0
  {
    BackoffWraps(c, k);
    if k <= 1 {
      BackoffFits(c, 1);
    } else if k <= 21 {
      BackoffFits(c, k);
    } else {
      BackoffFits(c, 21);
    }
    if 1 <= k <= 20 { BackoffDoubles(c, k); }
  }

  lemma BackoffMonotone(c: Config, j: int, k: int)
    requires ValidBackoff(c) && c.backoffBase * 0x10_0000 < TWO63 && j <= k
    ensures BackoffDuration(c, j) <= BackoffDuration(c, k)
  {
    ProductFits(c, Shift(j));
    ProductFits(c, Shift(k));
    Pow2Monotone(Shift(j), Shift(k));
    MulMonotone(c.backoffBase, Pow2(Shift(j)), Pow2(Shift(k)));
  }

  /** The first shift whose product overflows: the one before it still fits. */
  lemma {:induction false} FirstOverflow(b: int, n: nat) returns (s: nat)
    requires 0 < b < TWO63 && b * Pow2(n) >= TWO63 && n > 0
    ensures 0 < s <= n && TWO63 <= b * Pow2(s) < 2 * TWO63
  {
    if b * Pow2(n - 1) >= TWO63 {
      s := FirstOverflow(b, n - 1);
    } else {
      s := n;
      assert b * Pow2(n) == 2 * (b * Pow2(n - 1));
    }
  }

  /** The delay is positive for every failure count exactly when `base << 20` fits: otherwise the first product
      that does not fit comes out negative. */
  lemma BackoffPositiveIff(c: Config)
    requires ValidBackoff(c)
    ensures (forall k :: BackoffDuration(c, k) > 0) <==> c.backoffBase * 0x10_0000 < TWO63
  {
    if c.backoffBase * 0x10_0000 < TWO63 {
      forall k ensures BackoffDuration(c, k) > 0 { BackoffExact(c, k); }
    } else {
      Pow2Of20();
      var s := FirstOverflow(c.backoffBase, 20);
      BackoffWraps(c, s + 1);
      assert BackoffDuration(c, s + 1) < 0;
    }
  }

  /** A base of 2^43 ns, about two hours and a half, backs off by a negative delay at the 21st failure. */
  lemma BackoffOverflows()
    ensures var c := Config(60 * SECOND, 5 * SECOND, 0x800_0000_0000, TWO63 - 1);
            ValidBackoff(c) && BackoffDuration(c, 21) == -TWO63
  {
    Pow2Of20();
    BackoffWraps(Config(60 * SECOND, 5 * SECOND, 0x800_0000_0000, TWO63 - 1), 21);
  }

  // ----- the state machine -----

  /** The next-tick timer.  Stop and Reset leave no stale tick behind. */
  datatype Tick = Unarmed | Armed(delay: int) | Ready

  datatype Loop = Selecting | Starting | Reconciling | Returned

  datatype State = State(
    debounce: bool,        // the debounce timer is running
    inFlight: nat,         // callbacks of fired debounce timers that have not yet tried to send
    token: bool,           // the one-slot channel holds a token
    tick: Tick,
    loop: Loop,
    errors: nat,           // consecutiveErrors
    history: seq<bool>,    // results of the reconciles so far
    unseen: bool)          // an event arrived after the last reconcile began to read the source

  datatype Action =
    | DockerEvent      // the handler stops the running timer, if any, and starts a new one
    | DebounceFires    // the timer starts its callback
    | CallbackSends    // a callback sends, or drops its token if the slot is taken
    | TickFires
    | TakeTick         // select: the tick
    | TakeToken        // select: the token; the pending tick is cancelled
    | Begin            // the reconcile starts to read the source
    | End(ok: bool)    // it returns, and the next tick is scheduled
    | Cancel           // select: the context is done

  function Start(): State {
    State(false, 0, false, Armed(0), Selecting, 0, [], false)
  }

  predicate Enabled(s: State, a: Action) {
    match a
    case DockerEvent => true
    case DebounceFires => s.debounce
    case CallbackSends => s.inFlight > 0
    case TickFires => s.tick.Armed?
    case TakeTick => s.loop.Selecting? && s.tick.Ready?
    case TakeToken => s.loop.Selecting? && s.token
    case Begin => s.loop.Starting?
    case End(_) => s.loop.Reconciling?
    case Cancel => s.loop.Selecting?
  }

  function Perform(c: Config, s: State, a: Action): State
    requires Enabled(s, a)
  {
    match a
    case DockerEvent => s.(debounce := true, unseen := true)
    case DebounceFires => s.(debounce := false, inFlight := s.inFlight + 1)
    case CallbackSends => s.(inFlight := s.inFlight - 1, token := true)
    case TickFires => s.(tick := Ready)
    case TakeTick => s.(tick := Unarmed, loop := Starting)
    case TakeToken => s.(token := false, tick := Unarmed, loop := Starting)
    case Begin => s.(loop := Reconciling, unseen := false)
    case End(ok) =>
      if ok then s.(loop := Selecting, errors := 0, tick := Armed(c.interval), history := s.history + [true])
      else s.(loop := Selecting, errors := s.errors + 1, tick := Armed(BackoffDuration(c, s.errors + 1)),
          history := s.history + [false])
    case Cancel => s.(loop := Returned)
  }

  ghost predicate Behaviour(c: Config, ss: seq<State>, acts: seq<Action>) {
    && |ss| == |acts| + 1
    && forall i :: 0 <= i < |acts| ==> Enabled(ss[i], acts[i]) && ss[i + 1] == Perform(c, ss[i], acts[i])
  }

  /** The length of the run of failures at the end. */
  function TrailingFailures(h: seq<bool>): nat {
    if h == [] || h[|h| - 1] then 0 else 1 + TrailingFailures(h[..|h| - 1])
  }

  function NextDelay(c: Config, h: seq<bool>): int {
    if h == [] then 0 else if h[|h| - 1] then c.interval else BackoffDuration(c, TrailingFailures(h))
  }

  /** A wake-up is on its way to the loop. */
  predicate WakeUpPending(s: State) {
    s.debounce || s.inFlight > 0 || s.token
  }

  ghost predicate Inv(c: Config, s: State) {
    // no lost wake-up: an event not yet read has a wake-up on its way, or the loop is about to read it
    && (s.unseen ==> WakeUpPending(s) || s.loop.Starting? || s.loop.Returned?)
    // at every select exactly one next tick is armed or ready, and none while a reconcile runs
    && (s.loop.Selecting? ==> !s.tick.Unarmed?)
    && (s.loop.Starting? || s.loop.Reconciling? ==> s.tick.Unarmed?)
    // the delay is the one the results so far call for
    && (s.tick.Armed? ==> s.tick.delay == NextDelay(c, s.history))
    && s.errors == TrailingFailures(s.history)
  }

  lemma StepKeepsInv(c: Config, s: State, a: Action)
    requires Inv(c, s) && Enabled(s, a)
    ensures Inv(c, Perform(c, s, a))
  {
    if a.End? {
      var h := s.history + [a.ok];
      assert h[..|h| - 1] == s.history;
    }
  }

  /** In every state of every behaviour: no lost wake-up, the scheduler invariant, the failure count; and the loop
      has returned if and only if the context was cancelled. */
  lemma {:induction false} InvAlways(c: Config, ss: seq<State>, acts: seq<Action>, i: nat)
    requires Behaviour(c, ss, acts) && ss[0] == Start() && i < |ss|
    ensures Inv(c, ss[i])
    ensures ss[i].loop.Returned? <==> Cancel in acts[..i]
  {
    if i > 0 {
      InvAlways(c, ss, acts, i - 1);
      StepKeepsInv(c, ss[i - 1], acts[i - 1]);
      assert acts[..i] == acts[..i - 1] + [acts[i - 1]];
    }
  }

  // ----- when the next tick is due -----

  function Count(acts: seq<Action>, a: Action): nat {
    if acts == [] then 0 else Count(acts[..|acts| - 1], a) + if acts[|acts| - 1] == a then 1 else 0
  }

  lemma CountNext(acts: seq<Action>, i: nat, j: nat, a: Action)
    requires i < j <= |acts|
    ensures Count(acts[i..j], a) == Count(acts[i..j - 1], a) + if acts[j - 1] == a then 1 else 0
  {
    assert acts[i..j][..j - i - 1] == acts[i..j - 1];
  }

  /** The delay after `k` failures in a row, which follow a success or the start. */
  function DelayAfter(c: Config, started: bool, k: nat): int {
    if k > 0 then BackoffDuration(c, k) else if started then 0 else c.interval
  }

  /** With `i` the start or the end of a successful reconcile and no success since: the error count is the number of
      reconciles that failed since, an armed tick is due after the delay for that many, and the end of a reconcile
      always arms one. */
  lemma {:induction false} DelayLaw(c: Config, ss: seq<State>, acts: seq<Action>, i: nat, j: nat)
    requires Behaviour(c, ss, acts) && ss[0] == Start() && i <= j < |ss|
    requires i == 0 || acts[i - 1] == End(true)
    requires forall t :: i <= t < j ==> acts[t] != End(true)
    ensures ss[j].errors == Count(acts[i..j], End(false))
    ensures ss[j].tick.Armed? ==> ss[j].tick.delay == DelayAfter(c, i == 0, Count(acts[i..j], End(false)))
    ensures j > 0 && acts[j - 1].End? ==> ss[j].tick.Armed?
    decreases j
  {
    if j > i {
      DelayLaw(c, ss, acts, i, j - 1);
      CountNext(acts, i, j, End(false));
      assert ss[j] == Perform(c, ss[j - 1], acts[j - 1]);
    } else if i > 0 {
      assert ss[i] == Perform(c, ss[i - 1], acts[i - 1]);
    }
  }

  // ----- nothing happens without a cause -----

  function One(b: bool): nat { if b then 1 else 0 }

  function Ends(acts: seq<Action>): nat { Count(acts, End(true)) + Count(acts, End(false)) }

  /** Every reconcile was asked for by a tick or a token, every token by a callback, every callback by a debounce timer
      that fired, every firing by an event of its own, and every tick by the start or the end of a reconcile. */
  ghost predicate Caused(s: State, done: seq<Action>) {
    && Ends(done) + One(s.loop.Reconciling?) == Count(done, Begin)
    && Count(done, Begin) + One(s.loop.Starting?) == Count(done, TakeTick) + Count(done, TakeToken)
    && Count(done, TakeToken) + One(s.token) <= Count(done, CallbackSends)
    && Count(done, CallbackSends) + s.inFlight == Count(done, DebounceFires)
    && Count(done, DebounceFires) + One(s.debounce) <= Count(done, DockerEvent)
    && Count(done, TakeTick) + One(s.tick.Ready?) <= Count(done, TickFires)
    && Count(done, TickFires) + One(s.tick.Armed?) <= 1 + Ends(done)
  }

  lemma CountSnoc(done: seq<Action>, a: Action)
    ensures forall b :: Count(done + [a], b) == Count(done, b) + One(a == b)
  {
    assert (done + [a])[..|done|] == done;
  }

  lemma StepCaused(c: Config, s: State, done: seq<Action>, a: Action)
    requires Caused(s, done) && Enabled(s, a)
    ensures Caused(Perform(c, s, a), done + [a])
  {
    CountSnoc(done, a);
    if a.End? { assert a == End(true) || a == End(false); }
  }

  lemma {:induction false} CausesFirst(c: Config, ss: seq<State>, acts: seq<Action>, i: nat)
    requires Behaviour(c, ss, acts) && ss[0] == Start() && i < |ss|
    ensures Caused(ss[i], acts[..i])
  {
    if i > 0 {
      CausesFirst(c, ss, acts, i - 1);
      StepCaused(c, ss[i - 1], acts[..i - 1], acts[i - 1]);
      assert acts[..i] == acts[..i - 1] + [acts[i - 1]];
    }
  }

  // ----- a reconcile begins again and again, and an unread event is read -----

  /** Everything that happens by itself: no new Docker event, no shutdown. */
  predicate Internal(a: Action) { !a.DockerEvent? && !a.Cancel? }

  function Rank(s: State): nat {
    (if s.debounce then 3 else 0) + 2 * s.inFlight + (if s.token then 1 else 0)
    + (match s.tick case Unarmed => 0 case Armed(_) => 2 case Ready => 1)
    + (match s.loop case Selecting => 2 case Starting => 1 case Reconciling => 5 case Returned => 0)
  }

  lemma RankFalls(c: Config, s: State, a: Action)
    requires Enabled(s, a) && Internal(a) && !a.Begin?
    ensures Rank(Perform(c, s, a)) < Rank(s)
  {
  }

  /** As long as the loop has not returned, something can happen by itself. */
  lemma NeverStuck(c: Config, s: State) returns (a: Action)
    requires Inv(c, s) && !s.loop.Returned?
    ensures Internal(a) && Enabled(s, a)
  {
    a := if s.loop.Starting? then Begin else if s.loop.Reconciling? then End(true)
         else if s.token then TakeToken else if s.tick.Ready? then TakeTick else TickFires;
  }

  lemma {:induction false} RankBoundsRun(c: Config, ss: seq<State>, acts: seq<Action>, i: nat)
    requires Behaviour(c, ss, acts) && (forall t :: 0 <= t < |acts| ==> Internal(acts[t])) && i < |ss|
    requires Begin !in acts
    ensures Rank(ss[i]) + i <= Rank(ss[0])
  {
    if i > 0 {
      RankBoundsRun(c, ss, acts, i - 1);
      assert acts[i - 1] in acts;
      RankFalls(c, ss[i - 1], acts[i - 1]);
    }
  }

  /** Periodic reconciliation: with or without an unread event, from any state, every schedule of the loop, the timers and the
      callbacks begins a reconcile within `Rank` steps. */
  lemma ReconcilesForEver(c: Config, ss: seq<State>, acts: seq<Action>)
    requires Behaviour(c, ss, acts) && (forall t :: 0 <= t < |acts| ==> Internal(acts[t]))
    requires |acts| > Rank(ss[0])
    ensures Begin in acts
  {
    if Begin !in acts { RankBoundsRun(c, ss, acts, |acts|); }
  }

  /** Once events pause, that reconcile reads the last of them. */
  lemma EveryEventIsRead(c: Config, ss: seq<State>, acts: seq<Action>)
    requires Behaviour(c, ss, acts) && (forall t :: 0 <= t < |acts| ==> Internal(acts[t]))
    requires |acts| > Rank(ss[0])
    ensures exists t :: 0 <= t < |acts| && acts[t].Begin? && !ss[t + 1].unseen
  {
    ReconcilesForEver(c, ss, acts);
    var t :| 0 <= t < |acts| && acts[t] == Begin;
    assert ss[t + 1] == Perform(c, ss[t], acts[t]);
  }

  /** An event leads to a reconcile that reads it without waiting for the tick, which is cancelled; and a tick needs no
      event. */
  lemma ReconcilesOnEvent(c: Config, s: State) returns (ss: seq<State>)
    requires s.loop.Selecting?
    ensures Behaviour(c, ss, [DockerEvent, DebounceFires, CallbackSends, TakeToken, Begin]) && ss[0] == s
    ensures ss[5].loop.Reconciling? && !ss[5].unseen && ss[5].tick.Unarmed? && !ss[5].token
  {
    var s1 := Perform(c, s, DockerEvent);
    var s2 := Perform(c, s1, DebounceFires);
    var s3 := Perform(c, s2, CallbackSends);
    var s4 := Perform(c, s3, TakeToken);
    ss := [s, s1, s2, s3, s4, Perform(c, s4, Begin)];
  }

  lemma ReconcilesOnTick(c: Config, s: State) returns (ss: seq<State>)
    requires s.loop.Selecting? && s.tick.Armed?
    ensures Behaviour(c, ss, [TickFires, TakeTick, Begin]) && ss[0] == s && ss[3].loop.Reconciling?
  {
    var s1 := Perform(c, s, TickFires);
    var s2 := Perform(c, s1, TakeTick);
    ss := [s, s1, s2, Perform(c, s2, Begin)];
  }
}
