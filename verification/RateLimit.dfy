/**
  The per-key token bucket of internal/core/auth/ratelimit.go.

  `TokenBucketLimiter` is the mutable limiter; `AllowStep` and `Sweep` are its
  specification on values.  The reference it is shown to refine is a meter that
  keeps one instant per key, the moment the key's reservoir is full again, and
  never forgets anything; properties of whole runs are proved on the meter.

  Times are seconds as reals.  The clock is a parameter of every call.
 */
module RateLimit {
  type Key = string

  datatype Bucket = Bucket(tokens: real, last: real)

  /** What `Allow` answers: admitted, or how many seconds until a whole token. */
  datatype Decision = Admitted | Retry(after: real)

  datatype Config = Config(rate: real, burst: real) {
    // The config layer rejects a non-positive rate or burst; burst is an integer.
    ghost predicate Valid() { rate > 0.0 && burst >= 1.0 }
  }

  datatype State = State(buckets: map<Key, Bucket>, lastPrune: real)

  /** One request: who, and what the clock read. */
  datatype Call = Call(key: Key, now: real)

  const PRUNE_INTERVAL: real := 300.0

  function Min(a: real, b: real): real { if a < b then a else b }

  function Refilled(cfg: Config, b: Bucket, now: real): real {
    Min(cfg.burst, b.tokens + (now - b.last) * cfg.rate)
  }

  function RefilledBucket(cfg: Config, b: Bucket, now: real): Bucket {
    if now - b.last > 0.0 then Bucket(Refilled(cfg, b, now), now) else b
  }

  /** The bucket `Allow` works on: a full one for an unknown key, else the stored one refilled. */
  function Touched(cfg: Config, buckets: map<Key, Bucket>, key: Key, now: real): Bucket {
    if key in buckets then RefilledBucket(cfg, buckets[key], now) else Bucket(cfg.burst, now)
  }

  function Sweep(cfg: Config, s: State, now: real): State {
    if now - s.lastPrune < PRUNE_INTERVAL then s
    else State(map k | k in s.buckets && Refilled(cfg, s.buckets[k], now) < cfg.burst :: s.buckets[k], now)
  }

  /** `Allow` after the sweep: refill, then spend one token or say how long to wait. */
  function Spend(cfg: Config, s: State, c: Call): (State, Decision)
    requires cfg.rate > 0.0
  {
    var b := Touched(cfg, s.buckets, c.key, c.now);
    if b.tokens >= 1.0 then
      (s.(buckets := s.buckets[c.key := b.(tokens := b.tokens - 1.0)]), Admitted)
    else
      (s.(buckets := s.buckets[c.key := b]), Retry((1.0 - b.tokens) / cfg.rate))
  }

  function AllowStep(cfg: Config, s: State, c: Call): (State, Decision)
    requires cfg.rate > 0.0
  {
    Spend(cfg, Sweep(cfg, s, c.now), c)
  }

  // ----- The limiter itself ---------------------------------------------------

  class TokenBucketLimiter {
    const cfg: Config
    var buckets: map<Key, Bucket>
    var lastPrune: real

    ghost function Contents(): State
      reads this
    {
      State(buckets, lastPrune)
    }

    constructor (perMinute: int, burst: int, now: real)
      requires perMinute > 0 && burst > 0
      ensures cfg == Config(perMinute as real / 60.0, burst as real) && cfg.Valid()
      ensures Contents() == Initial(now)
    {
      cfg := Config(perMinute as real / 60.0, burst as real);
      buckets := map[];
      lastPrune := now;
    }

    method Allow(key: Key, now: real) returns (allowed: bool, retryAfter: real)
      requires cfg.Valid()
      modifies this
      ensures Contents() == AllowStep(cfg, old(Contents()), Call(key, now)).0
      ensures AllowStep(cfg, old(Contents()), Call(key, now)).1 ==
              if allowed then Admitted else Retry(retryAfter)
      ensures allowed ==> retryAfter == 0.0
    {
      PruneLocked(now);

      var b: Bucket;
      if key !in buckets {
        b := Bucket(cfg.burst, now);
      } else {
        b := buckets[key];
        var elapsed := now - b.last;
        if elapsed > 0.0 {
          b := Bucket(Refilled(cfg, b, now), now);
        }
      }
      assert b == Touched(cfg, buckets, key, now);
      if b.tokens >= 1.0 {
        buckets := buckets[key := b.(tokens := b.tokens - 1.0)];
        return true, 0.0;
      }
      buckets := buckets[key := b];
      return false, (1.0 - b.tokens) / cfg.rate;
    }

    method PruneLocked(now: real)
      modifies this
      ensures Contents() == Sweep(cfg, old(Contents()), now)
    {
      if now - lastPrune < PRUNE_INTERVAL {
        return;
      }
      lastPrune := now;
      var pending := buckets.Keys;
      ghost var before := buckets;
      while pending != {}
        invariant pending <= before.Keys
        invariant lastPrune == now
        invariant forall k :: k in buckets <==>
          k in before && (k in pending || Refilled(cfg, before[k], now) < cfg.burst)
        invariant forall k :: k in buckets ==> buckets[k] == before[k]
        decreases |pending|
      {
        var key :| key in pending;
        var refilled := Refilled(cfg, buckets[key], now);
        if refilled >= cfg.burst {
          buckets := buckets - {key};
        }
        pending := pending - {key};
      }
    }
  }

  function Initial(now: real): State { State(map[], now) }

  // ----- The reference meter ----------------------------------------------------

  /** Per key, the instant at which its reservoir is full again. */
  type Meter = map<Key, real>

  /** period: seconds one token takes to refill; horizon: seconds a whole reservoir takes. */
  datatype Law = Law(period: real, horizon: real) {
    ghost predicate Valid() { 0.0 < period <= horizon }
  }

  function LawOf(cfg: Config): Law
    requires cfg.rate > 0.0
  {
    Law(1.0 / cfg.rate, cfg.burst / cfg.rate)
  }

  function Max(a: real, b: real): real { if a < b then b else a }

  /** When `key` is full again, never before `now`. */
  function Due(m: Meter, key: Key, now: real): real {
    if key in m then Max(m[key], now) else now
  }

  /** Admit unless that would owe more than a whole reservoir. */
  function MeterStep(law: Law, m: Meter, c: Call): (Meter, Decision) {
    var due := Due(m, c.key, c.now) + law.period;
    if due <= c.now + law.horizon then (m[c.key := due], Admitted)
    else (m, Retry(due - (c.now + law.horizon)))
  }

  // ----- The limiter refines the meter --------------------------------------------

  function FullAt(cfg: Config, b: Bucket): real
    requires cfg.rate > 0.0
  {
    b.last + (cfg.burst - b.tokens) / cfg.rate
  }

  /** What every reachable state satisfies once the clock has reached `now`. */
  ghost predicate Inv(cfg: Config, s: State, now: real) {
    && cfg.Valid()
    && forall k :: k in s.buckets ==> 0.0 <= s.buckets[k].tokens <= cfg.burst && s.buckets[k].last <= now
  }

  ghost function FullInstant(cfg: Config, s: State, key: Key, now: real): real
    requires cfg.rate > 0.0
  {
    if key in s.buckets then Max(FullAt(cfg, s.buckets[key]), now) else now
  }

  ghost predicate Matches(cfg: Config, s: State, m: Meter, now: real)
    requires cfg.rate > 0.0
  {
    forall key :: FullInstant(cfg, s, key, now) == Due(m, key, now)
  }

  lemma DivTimes(x: real, y: real)
    requires y > 0.0
    ensures x / y * y == x
  {
  }

  lemma TimesOrder(x: real, y: real, rate: real)
    requires rate > 0.0
    ensures x <= y <==> x * rate <= y * rate
  {
  }

  lemma TimesInjective(x: real, y: real, rate: real)
    requires rate > 0.0 && x * rate == y * rate
    ensures x == y
  {
  }

  lemma Distributes(x: real, y: real, rate: real)
    ensures (x + y) * rate == x * rate + y * rate
    ensures (x - y) * rate == x * rate - y * rate
  {
  }

  /** tokens = burst - (seconds still owed) * rate. */
  lemma TokensAreDebt(cfg: Config, b: Bucket, now: real)
    requires cfg.Valid() && b.last <= now
    ensures Refilled(cfg, b, now) == cfg.burst - (Max(FullAt(cfg, b), now) - now) * cfg.rate
    ensures Refilled(cfg, b, now) < cfg.burst <==> now < FullAt(cfg, b)
    ensures Refilled(cfg, b, now) >= b.tokens || Refilled(cfg, b, now) == cfg.burst
  {
    var owed := (cfg.burst - b.tokens) / cfg.rate;
    var idle := now - b.last;
    DivTimes(cfg.burst - b.tokens, cfg.rate);
    Distributes(owed, idle, cfg.rate);
    TimesOrder(owed, idle, cfg.rate);
    TimesOrder(0.0, idle, cfg.rate);
  }

  /** Reading the meter's law back from a token count. */
  lemma DebtIsFullAt(cfg: Config, tokens: real, debt: real, now: real)
    requires cfg.Valid() && tokens == cfg.burst - debt * cfg.rate
    ensures FullAt(cfg, Bucket(tokens, now)) == now + debt
    ensures FullAt(cfg, Bucket(tokens - 1.0, now)) == now + debt + LawOf(cfg).period
    ensures tokens >= 1.0 <==> debt + LawOf(cfg).period <= LawOf(cfg).horizon
    ensures (1.0 - tokens) / cfg.rate == debt + LawOf(cfg).period - LawOf(cfg).horizon
  {
    var rate, law := cfg.rate, LawOf(cfg);
    DivTimes(1.0, rate);
    DivTimes(cfg.burst, rate);
    DivTimes(cfg.burst - tokens, rate);
    DivTimes(cfg.burst - (tokens - 1.0), rate);
    DivTimes(1.0 - tokens, rate);
    Distributes(debt, law.period, rate);
    Distributes(debt + law.period, law.horizon, rate);
    TimesInjective((cfg.burst - tokens) / rate, debt, rate);
    TimesInjective((cfg.burst - (tokens - 1.0)) / rate, debt + law.period, rate);
    TimesInjective((1.0 - tokens) / rate, debt + law.period - law.horizon, rate);
    TimesOrder(debt + law.period, law.horizon, rate);
  }

  lemma TouchedDebt(cfg: Config, s: State, key: Key, now: real)
    requires Inv(cfg, s, now)
    ensures var b := Touched(cfg, s.buckets, key, now);
            b.last == now && b.tokens == cfg.burst - (FullInstant(cfg, s, key, now) - now) * cfg.rate
    ensures 0.0 <= Touched(cfg, s.buckets, key, now).tokens <= cfg.burst
  {
    if key in s.buckets {
      TokensAreDebt(cfg, s.buckets[key], now);
    }
  }

  /** The sweep keeps every key's instant: it drops exactly the buckets that are full by now. */
  lemma SweepKeepsInstants(cfg: Config, s: State, now: real)
    requires Inv(cfg, s, now)
    ensures Inv(cfg, Sweep(cfg, s, now), now)
    ensures forall key :: FullInstant(cfg, Sweep(cfg, s, now), key, now) == FullInstant(cfg, s, key, now)
  {
    forall key ensures FullInstant(cfg, Sweep(cfg, s, now), key, now) == FullInstant(cfg, s, key, now) {
      if key in s.buckets { TokensAreDebt(cfg, s.buckets[key], now); }
    }
  }

  lemma DivOrder(x: real, y: real, rate: real)
    requires rate > 0.0 && x <= y
    ensures x / rate <= y / rate
  {
    DivTimes(x, rate);
    DivTimes(y, rate);
    TimesOrder(x / rate, y / rate, rate);
  }

  lemma UnfilledIsRecent(cfg: Config, b: Bucket, now: real)
    requires cfg.Valid() && b.tokens >= 0.0
    ensures now < FullAt(cfg, b) ==> now - b.last < cfg.burst / cfg.rate
  {
    DivOrder(cfg.burst - b.tokens, cfg.burst, cfg.rate);
  }

  /** What a sweep leaves behind: exactly the unfilled buckets, each used less than burst/rate ago. */
  lemma SurvivorsAreRecent(cfg: Config, s: State, now: real, key: Key)
    requires Inv(cfg, s, now) && now - s.lastPrune >= PRUNE_INTERVAL
    ensures key in Sweep(cfg, s, now).buckets <==> now < FullInstant(cfg, s, key, now)
    ensures key in Sweep(cfg, s, now).buckets ==> now - s.buckets[key].last < cfg.burst / cfg.rate
  {
    if key in s.buckets {
      TokensAreDebt(cfg, s.buckets[key], now);
      UnfilledIsRecent(cfg, s.buckets[key], now);
    }
  }

  /** What the touched bucket says about the key's instant. */
  lemma TouchedAnswers(cfg: Config, s: State, key: Key, now: real)
    requires Inv(cfg, s, now)
    ensures var b, due := Touched(cfg, s.buckets, key, now), FullInstant(cfg, s, key, now);
            && b.last == now && 0.0 <= b.tokens <= cfg.burst && FullAt(cfg, b) == due
            && FullAt(cfg, Bucket(b.tokens - 1.0, now)) == due + LawOf(cfg).period
            && (b.tokens >= 1.0 <==> due + LawOf(cfg).period <= now + LawOf(cfg).horizon)
            && (1.0 - b.tokens) / cfg.rate == due + LawOf(cfg).period - (now + LawOf(cfg).horizon)
  {
    var b, due := Touched(cfg, s.buckets, key, now), FullInstant(cfg, s, key, now);
    TouchedDebt(cfg, s, key, now);
    DebtIsFullAt(cfg, b.tokens, due - now, now);
  }

  /** The answer, and the spent key's instant. */
  lemma SpendAnswers(cfg: Config, s: State, m: Meter, c: Call)
    requires Inv(cfg, s, c.now) && Matches(cfg, s, m, c.now)
    ensures Spend(cfg, s, c).1 == MeterStep(LawOf(cfg), m, c).1
    ensures FullInstant(cfg, Spend(cfg, s, c).0, c.key, c.now) == Due(MeterStep(LawOf(cfg), m, c).0, c.key, c.now)
    ensures 0.0 <= Spend(cfg, s, c).0.buckets[c.key].tokens <= cfg.burst
    ensures Spend(cfg, s, c).0.buckets[c.key].last <= c.now
  {
    assert FullInstant(cfg, s, c.key, c.now) == Due(m, c.key, c.now);
    TouchedAnswers(cfg, s, c.key, c.now);
    TimesOrder(0.0, LawOf(cfg).period, cfg.rate);
  }

  lemma SpendRefines(cfg: Config, s: State, m: Meter, c: Call)
    requires Inv(cfg, s, c.now) && Matches(cfg, s, m, c.now)
    ensures Spend(cfg, s, c).1 == MeterStep(LawOf(cfg), m, c).1
    ensures Inv(cfg, Spend(cfg, s, c).0, c.now)
    ensures Matches(cfg, Spend(cfg, s, c).0, MeterStep(LawOf(cfg), m, c).0, c.now)
  {
    SpendAnswers(cfg, s, m, c);
    var s', m' := Spend(cfg, s, c).0, MeterStep(LawOf(cfg), m, c).0;
    forall key ensures FullInstant(cfg, s', key, c.now) == Due(m', key, c.now) {
      assert FullInstant(cfg, s, key, c.now) == Due(m, key, c.now);
    }
  }

  lemma AllowRefines(cfg: Config, s: State, m: Meter, c: Call)
    requires Inv(cfg, s, c.now) && Matches(cfg, s, m, c.now)
    ensures AllowStep(cfg, s, c).1 == MeterStep(LawOf(cfg), m, c).1
    ensures Inv(cfg, AllowStep(cfg, s, c).0, c.now)
    ensures Matches(cfg, AllowStep(cfg, s, c).0, MeterStep(LawOf(cfg), m, c).0, c.now)
  {
    SweepKeepsInstants(cfg, s, c.now);
    SpendRefines(cfg, Sweep(cfg, s, c.now), m, c);
  }

  lemma MatchesLater(cfg: Config, s: State, m: Meter, now: real, t: real)
    requires Inv(cfg, s, now) && Matches(cfg, s, m, now) && now <= t
    ensures Inv(cfg, s, t) && Matches(cfg, s, m, t)
  {
    forall key ensures FullInstant(cfg, s, key, t) == Due(m, key, t) {
      assert FullInstant(cfg, s, key, now) == Due(m, key, now);
    }
  }

  // ----- Whole runs -----------------------------------------------------------

  /** The clock never goes back, from `now` on. */
  ghost predicate Ordered(now: real, calls: seq<Call>)
    decreases |calls|
  {
    calls != [] ==> now <= calls[0].now && Ordered(calls[0].now, calls[1..])
  }

  ghost function Run(cfg: Config, s: State, calls: seq<Call>): (ds: seq<Decision>)
    requires cfg.rate > 0.0
    ensures |ds| == |calls|
    decreases |calls|
  {
    if calls == [] then [] else
    var (s', d) := AllowStep(cfg, s, calls[0]);
    [d] + Run(cfg, s', calls[1..])
  }

  /** The same limiter with the idle sweep taken out. */
  ghost function RunUnswept(cfg: Config, s: State, calls: seq<Call>): (ds: seq<Decision>)
    requires cfg.rate > 0.0
    ensures |ds| == |calls|
    decreases |calls|
  {
    if calls == [] then [] else
    var (s', d) := Spend(cfg, s, calls[0]);
    [d] + RunUnswept(cfg, s', calls[1..])
  }

  ghost function RunMeter(law: Law, m: Meter, calls: seq<Call>): (ds: seq<Decision>)
    ensures |ds| == |calls|
    decreases |calls|
  {
    if calls == [] then [] else
    var (m', d) := MeterStep(law, m, calls[0]);
    [d] + RunMeter(law, m', calls[1..])
  }

  ghost function StateAfter(cfg: Config, s: State, calls: seq<Call>): State
    requires cfg.rate > 0.0
    decreases |calls|
  {
    if calls == [] then s else StateAfter(cfg, AllowStep(cfg, s, calls[0]).0, calls[1..])
  }

  ghost function ClockAfter(now: real, calls: seq<Call>): real {
    if calls == [] then now else calls[|calls| - 1].now
  }

  /** Every reachable state: 0 <= tokens <= burst, no bucket from the future, and the same
      instants as the meter. */
  lemma {:induction false} ReachableStates(cfg: Config, s: State, m: Meter, now: real, calls: seq<Call>)
    requires Inv(cfg, s, now) && Matches(cfg, s, m, now) && Ordered(now, calls)
    ensures now <= ClockAfter(now, calls)
    ensures Inv(cfg, StateAfter(cfg, s, calls), ClockAfter(now, calls))
    ensures Run(cfg, s, calls) == RunMeter(LawOf(cfg), m, calls)
    decreases |calls|
  {
    if calls != [] {
      var c := calls[0];
      MatchesLater(cfg, s, m, now, c.now);
      AllowRefines(cfg, s, m, c);
      ReachableStates(cfg, AllowStep(cfg, s, c).0, MeterStep(LawOf(cfg), m, c).0, c.now, calls[1..]);
    }
  }

  /** From a fresh limiter: token counts stay in range, and the meter gives the same answers. */
  lemma {:induction false} LimiterRefinesMeter(cfg: Config, start: real, calls: seq<Call>)
    requires cfg.Valid() && Ordered(start, calls)
    ensures Inv(cfg, StateAfter(cfg, Initial(start), calls), ClockAfter(start, calls))
    ensures Run(cfg, Initial(start), calls) == RunMeter(LawOf(cfg), map[], calls)
  {
    ReachableStates(cfg, Initial(start), map[], start, calls);
  }

  lemma {:induction false} UnsweptRefines(cfg: Config, s: State, m: Meter, now: real, calls: seq<Call>)
    requires Inv(cfg, s, now) && Matches(cfg, s, m, now) && Ordered(now, calls)
    ensures RunUnswept(cfg, s, calls) == RunMeter(LawOf(cfg), m, calls)
    decreases |calls|
  {
    if calls != [] {
      var c := calls[0];
      MatchesLater(cfg, s, m, now, c.now);
      SpendRefines(cfg, s, m, c);
      UnsweptRefines(cfg, Spend(cfg, s, c).0, MeterStep(LawOf(cfg), m, c).0, c.now, calls[1..]);
    }
  }

  /** The idle sweep never changes an answer, whatever the calls. */
  lemma {:induction false} SweepIsInvisible(cfg: Config, start: real, calls: seq<Call>)
    requires cfg.Valid() && Ordered(start, calls)
    ensures Run(cfg, Initial(start), calls) == RunUnswept(cfg, Initial(start), calls)
  {
    LimiterRefinesMeter(cfg, start, calls);
    UnsweptRefines(cfg, Initial(start), map[], start, calls);
  }

  lemma {:induction false} RunHead(cfg: Config, s: State, c: Call, tail: seq<Call>)
    requires cfg.rate > 0.0
    ensures Run(cfg, s, [c] + tail) == [AllowStep(cfg, s, c).1] + Run(cfg, AllowStep(cfg, s, c).0, tail)
    ensures RunUnswept(cfg, s, [c] + tail) == [Spend(cfg, s, c).1] + RunUnswept(cfg, Spend(cfg, s, c).0, tail)
  {
    assert ([c] + tail)[1..] == tail;
  }

  const ONE := Config(1.0, 1.0)

  /** The state after the first of three calls, and what the other two make of it. */
  lemma SweptSteps(a: State)
    requires a == State(map["a" := Bucket(0.0, 0.0)], 0.0)
    ensures AllowStep(ONE, Initial(0.0), Call("a", 0.0)) == (a, Admitted)
    ensures AllowStep(ONE, a, Call("b", 600.0)) == (State(map["b" := Bucket(0.0, 600.0)], 600.0), Admitted)
  {
    assert Spend(ONE, Initial(0.0), Call("a", 0.0)) == (a, Admitted);
    assert Sweep(ONE, a, 600.0) == State(map[], 600.0);
    assert Spend(ONE, State(map[], 600.0), Call("b", 600.0))
           == (State(map["b" := Bucket(0.0, 600.0)], 600.0), Admitted);
  }

  lemma LastSteps(b: State, ab: State)
    requires b == State(map["b" := Bucket(0.0, 600.0)], 600.0)
    requires ab == State(map["a" := Bucket(0.0, 0.0), "b" := Bucket(0.0, 600.0)], 0.0)
    ensures AllowStep(ONE, b, Call("a", 0.0)).1 == Admitted
    ensures Spend(ONE, ab, Call("a", 0.0)).1 == Retry(1.0)
  {
    assert "a" != "b";
  }

  lemma UnsweptSteps(a: State, ab: State)
    requires a == State(map["a" := Bucket(0.0, 0.0)], 0.0)
    requires ab == State(map["a" := Bucket(0.0, 0.0), "b" := Bucket(0.0, 600.0)], 0.0)
    ensures Spend(ONE, Initial(0.0), Call("a", 0.0)) == (a, Admitted)
    ensures Spend(ONE, a, Call("b", 600.0)) == (ab, Admitted)
  {
    assert "a" != "b";
  }

  /** ... but only because the clock does not go back: here a sweep at 600 forgets a bucket
      that a call stamped 0 would still have found empty. */
  lemma SweepNeedsAForwardClock(first: Call, second: Call)
    requires first == Call("a", 0.0) && second == Call("b", 600.0)
    ensures ONE.Valid()
    ensures Run(ONE, Initial(0.0), [first] + ([second] + ([first] + [])))
            == [Admitted] + ([Admitted] + ([Admitted] + []))
    ensures RunUnswept(ONE, Initial(0.0), [first] + ([second] + ([first] + [])))
            == [Admitted] + ([Admitted] + ([Retry(1.0)] + []))
  {
    var a := State(map["a" := Bucket(0.0, 0.0)], 0.0);
    var b := State(map["b" := Bucket(0.0, 600.0)], 600.0);
    var ab := State(map["a" := Bucket(0.0, 0.0), "b" := Bucket(0.0, 600.0)], 0.0);
    SweptSteps(a);
    UnsweptSteps(a, ab);
    LastSteps(b, ab);
    RunHead(ONE, Initial(0.0), first, [second] + ([first] + []));
    RunHead(ONE, a, second, [first] + []);
    RunHead(ONE, b, first, []);
    RunHead(ONE, ab, first, []);
  }

  // ----- Isolation ------------------------------------------------------------

  ghost function CallsOf(key: Key, calls: seq<Call>): seq<Call> {
    if calls == [] then []
    else (if calls[0].key == key then [calls[0]] else []) + CallsOf(key, calls[1..])
  }

  /** The answers given to `key`, in order. */
  ghost function AnswersTo(key: Key, calls: seq<Call>, ds: seq<Decision>): seq<Decision>
    requires |ds| == |calls|
    decreases |calls|
  {
    if calls == [] then []
    else (if calls[0].key == key then [ds[0]] else []) + AnswersTo(key, calls[1..], ds[1..])
  }

  ghost predicate SameAt(key: Key, a: Meter, b: Meter) {
    (key in a <==> key in b) && (key in a ==> a[key] == b[key])
  }

  lemma MeterStepAgrees(law: Law, a: Meter, b: Meter, c: Call)
    requires SameAt(c.key, a, b)
    ensures MeterStep(law, a, c).1 == MeterStep(law, b, c).1
    ensures SameAt(c.key, MeterStep(law, a, c).0, MeterStep(law, b, c).0)
  {
  }

  lemma {:induction false} MeterIsolation(law: Law, key: Key, a: Meter, b: Meter, calls: seq<Call>)
    requires SameAt(key, a, b)
    ensures AnswersTo(key, calls, RunMeter(law, a, calls)) == RunMeter(law, b, CallsOf(key, calls))
    decreases |calls|
  {
    if calls != [] {
      var c, rest := calls[0], calls[1..];
      var (a', d) := MeterStep(law, a, c);
      var answers := RunMeter(law, a', rest);
      assert RunMeter(law, a, calls) == [d] + answers;
      assert ([d] + answers)[1..] == answers;
      if c.key != key {
        MeterIsolation(law, key, a', b, rest);
        assert CallsOf(key, calls) == CallsOf(key, rest);
      } else {
        MeterStepAgrees(law, a, b, c);
        MeterIsolation(law, key, a', MeterStep(law, b, c).0, rest);
        assert CallsOf(key, calls) == [c] + CallsOf(key, rest);
        assert ([c] + CallsOf(key, rest))[1..] == CallsOf(key, rest);
      }
    }
  }

  lemma {:induction false} CallsOfOrdered(key: Key, now: real, calls: seq<Call>, from: real)
    requires Ordered(now, calls) && from <= now
    ensures Ordered(from, CallsOf(key, calls))
    decreases |calls|
  {
    if calls != [] {
      var c := calls[0];
      if c.key == key {
        CallsOfOrdered(key, c.now, calls[1..], c.now);
        assert CallsOf(key, calls)[1..] == CallsOf(key, calls[1..]);
      } else {
        CallsOfOrdered(key, c.now, calls[1..], from);
        assert CallsOf(key, calls) == CallsOf(key, calls[1..]);
      }
    }
  }

  /** Traffic on other keys, and the sweeps it triggers, never change this key's answers. */
  lemma {:induction false} KeysAreIsolated(cfg: Config, key: Key, start: real, calls: seq<Call>)
    requires cfg.Valid() && Ordered(start, calls)
    ensures AnswersTo(key, calls, Run(cfg, Initial(start), calls))
            == Run(cfg, Initial(start), CallsOf(key, calls))
  {
    LimiterRefinesMeter(cfg, start, calls);
    CallsOfOrdered(key, start, calls, start);
    LimiterRefinesMeter(cfg, start, CallsOf(key, calls));
    MeterIsolation(LawOf(cfg), key, map[], map[], calls);
  }

  // ----- The admission bound --------------------------------------------------

  /** Calls of `key` admitted with a clock reading in [from, upto]. */
  ghost function AdmittedIn(key: Key, from: real, upto: real, calls: seq<Call>, ds: seq<Decision>): nat
    requires |ds| == |calls|
    decreases |calls|
  {
    if calls == [] then 0
    else (if calls[0].key == key && from <= calls[0].now <= upto && ds[0].Admitted? then 1 else 0)
         + AdmittedIn(key, from, upto, calls[1..], ds[1..])
  }

  /** n tokens take n periods to refill. */
  ghost function Seconds(law: Law, n: nat): real { if n == 0 then 0.0 else law.period + Seconds(law, n - 1) }

  /** Nothing admitted can leave the key owing more than a reservoir at the end of the window. */
  lemma {:induction false} MeterBound(
      law: Law, key: Key, m: Meter, now: real, calls: seq<Call>, from: real, upto: real)
    requires law.Valid() && Ordered(now, calls) && Due(m, key, now) <= now + law.horizon
    ensures var opens := Max(now, from);
            var admitted := AdmittedIn(key, from, upto, calls, RunMeter(law, m, calls));
            if opens <= upto then Due(m, key, opens) + Seconds(law, admitted) <= upto + law.horizon
            else admitted == 0
    decreases |calls|
  {
    if calls != [] {
      var c := calls[0];
      var m' := MeterStep(law, m, c).0;
      assert RunMeter(law, m, calls)[1..] == RunMeter(law, m', calls[1..]);
      MeterBound(law, key, m', c.now, calls[1..], from, upto);
    }
  }

  lemma {:induction false} MeterWindow(law: Law, key: Key, start: real, calls: seq<Call>, from: real, length: real)
    requires law.Valid() && Ordered(start, calls) && length >= 0.0
    ensures Seconds(law, AdmittedIn(key, from, from + length, calls, RunMeter(law, map[], calls)))
            <= length + law.horizon
  {
    MeterBound(law, key, map[], start, calls, from, from + length);
  }

  lemma {:induction false} SecondsIsProduct(cfg: Config, n: nat)
    requires cfg.Valid()
    ensures Seconds(LawOf(cfg), n) * cfg.rate == n as real
  {
    if n > 0 {
      SecondsIsProduct(cfg, n - 1);
      DivTimes(1.0, cfg.rate);
      Distributes(LawOf(cfg).period, Seconds(LawOf(cfg), n - 1), cfg.rate);
    }
  }

  lemma LawOfValid(cfg: Config)
    requires cfg.Valid()
    ensures LawOf(cfg).Valid()
  {
    DivTimes(1.0, cfg.rate);
    DivTimes(cfg.burst, cfg.rate);
    TimesOrder(LawOf(cfg).period, LawOf(cfg).horizon, cfg.rate);
    TimesOrder(LawOf(cfg).period, 0.0, cfg.rate);
  }

  lemma SecondsToTokens(cfg: Config, seconds: real, length: real)
    requires cfg.Valid() && seconds <= length + cfg.burst / cfg.rate
    ensures seconds * cfg.rate <= cfg.burst + cfg.rate * length
  {
    DivTimes(cfg.burst, cfg.rate);
    Distributes(length, cfg.burst / cfg.rate, cfg.rate);
    TimesOrder(seconds, length + cfg.burst / cfg.rate, cfg.rate);
  }

  lemma {:induction false} WindowInTokens(cfg: Config, n: nat, length: real)
    requires cfg.Valid() && Seconds(LawOf(cfg), n) <= length + LawOf(cfg).horizon
    ensures n as real <= cfg.burst + cfg.rate * length
  {
    SecondsIsProduct(cfg, n);
    SecondsToTokens(cfg, Seconds(LawOf(cfg), n), length);
  }

  /** No key is admitted more than burst + rate * T times in any interval of length T,
      over any run, whatever buckets were swept away and recreated meanwhile. */
  lemma {:induction false} AdmissionBound(cfg: Config, key: Key, start: real, calls: seq<Call>, from: real,
                                          length: real)
    requires cfg.Valid() && Ordered(start, calls) && length >= 0.0
    ensures AdmittedIn(key, from, from + length, calls, Run(cfg, Initial(start), calls)) as real
            <= cfg.burst + cfg.rate * length
  {
    LimiterRefinesMeter(cfg, start, calls);
    LawOfValid(cfg);
    MeterWindow(LawOf(cfg), key, start, calls, from, length);
    var n := AdmittedIn(key, from, from + length, calls, RunMeter(LawOf(cfg), map[], calls));
    WindowInTokens(cfg, n, length);
  }

  // ----- Retry-After ----------------------------------------------------------

  lemma {:induction false} OthersKeepMatch(
      cfg: Config, s: State, m: Meter, now: real, calls: seq<Call>, key: Key) returns (m': Meter)
    requires Inv(cfg, s, now) && Matches(cfg, s, m, now) && Ordered(now, calls) && CallsOf(key, calls) == []
    ensures now <= ClockAfter(now, calls)
    ensures Inv(cfg, StateAfter(cfg, s, calls), ClockAfter(now, calls))
    ensures Matches(cfg, StateAfter(cfg, s, calls), m', ClockAfter(now, calls))
    ensures SameAt(key, m, m')
    decreases |calls|
  {
    m' := m;
    if calls != [] {
      var c := calls[0];
      MatchesLater(cfg, s, m, now, c.now);
      AllowRefines(cfg, s, m, c);
      m' := OthersKeepMatch(cfg, AllowStep(cfg, s, c).0, MeterStep(LawOf(cfg), m, c).0, c.now, calls[1..], key);
    }
  }

  /** The advertised wait is exact: with no other call on the key in between, a refused caller
      is admitted at `t` if and only if the wait has passed. */
  lemma {:induction false} RetryAfterIsExact(cfg: Config, s: State, m: Meter, c: Call, others: seq<Call>, t: real)
    requires Inv(cfg, s, c.now) && Matches(cfg, s, m, c.now) && AllowStep(cfg, s, c).1.Retry?
    requires Ordered(c.now, others) && CallsOf(c.key, others) == [] && ClockAfter(c.now, others) <= t
    ensures var (s', d) := AllowStep(cfg, s, c);
            AllowStep(cfg, StateAfter(cfg, s', others), Call(c.key, t)).1.Admitted? <==> c.now + d.after <= t
  {
    var law := LawOf(cfg);
    LawOfValid(cfg);
    AllowRefines(cfg, s, m, c);
    var s' := AllowStep(cfg, s, c).0;
    var m' := OthersKeepMatch(cfg, s', MeterStep(law, m, c).0, c.now, others, c.key);
    var s'' := StateAfter(cfg, s', others);
    MatchesLater(cfg, s'', m', ClockAfter(c.now, others), t);
    AllowRefines(cfg, s'', m', Call(c.key, t));
  }
}
