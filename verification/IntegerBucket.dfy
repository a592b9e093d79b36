/** The supply API's rate limiter: a token bucket that counts whole tokens and
    truncates the refill of every call, and the middleware that keeps one such
    bucket per key with refill rate 0.  Time is in seconds. */
module IntegerBucket {
  import opened Arithmetic

  datatype Bucket = Bucket(capacity: int, rate: int, tokens: int, lastRefill: real)

  // ---------- one call ----------

  function NewBucket(capacity: int, rate: int, now: real): Bucket {
    Bucket(capacity, rate, capacity, now)
  }

  function Earned(elapsed: real, rate: int): real {
    elapsed * rate as real
  }

  /** Whole tokens earned in `elapsed` seconds; the fraction is lost. */
  function Gain(elapsed: real, rate: int): int {
    Trunc(Earned(elapsed, rate))
  }

  function Refill(b: Bucket, now: real): Bucket {
    var tokens := Gain(now - b.lastRefill, b.rate) + b.tokens;
    b.(tokens := if tokens > b.capacity then b.capacity else tokens, lastRefill := now)
  }

  function AllowStep(b: Bucket, now: real): (Bucket, bool) {
    var b := Refill(b, now);
    if b.tokens > 0 then (b.(tokens := b.tokens - 1), true) else (b, false)
  }

  function ResetStep(b: Bucket, now: real): Bucket {
    b.(tokens := b.capacity, lastRefill := now)
  }

  // ---------- whole runs of one bucket ----------

  datatype Op = AllowOp(now: real) | RemainingOp(now: real) | ResetOp(now: real)

  datatype Event = Admitted(time: real) | WasReset(time: real)

  datatype State = State(bucket: Bucket, log: seq<Event>)

  function Step(s: State, op: Op): State {
    match op
    case AllowOp(now) =>
      var (b, ok) := AllowStep(s.bucket, now);
      State(b, if ok then s.log + [Admitted(now)] else s.log)
    case RemainingOp(now) => s.(bucket := Refill(s.bucket, now))
    case ResetOp(now) => State(ResetStep(s.bucket, now), s.log + [WasReset(now)])
  }

  function Run(start: Bucket, ops: seq<Op>): State {
    if ops == [] then State(start, [])
    else Step(Run(start, ops[..|ops| - 1]), ops[|ops| - 1])
  }

  predicate OrderedUpTo(start: real, ops: seq<Op>, now: real) {
    if ops == [] then start <= now
    else ops[|ops| - 1].now <= now && OrderedUpTo(start, ops[..|ops| - 1], ops[|ops| - 1].now)
  }

  function Admissions(log: seq<Event>, from: real, to: real): nat {
    if log == [] then 0
    else
      var e := log[|log| - 1];
      Admissions(log[..|log| - 1], from, to) + if e.Admitted? && from <= e.time <= to then 1 else 0
  }

  function Resets(log: seq<Event>, from: real, to: real): nat {
    if log == [] then 0
    else
      var e := log[|log| - 1];
      Resets(log[..|log| - 1], from, to) + if e.WasReset? && from <= e.time <= to then 1 else 0
  }

  /** The ideal bucket: real-valued, refilled continuously, charged only with the
      logged admissions.  It knows nothing of the calls that merely refilled. */
  function Ideal(log: seq<Event>, start: Bucket, now: real): real {
    if log == [] then Flow(start, start.capacity as real, start.lastRefill, now)
    else
      var e := log[|log| - 1];
      var level := if e.Admitted? then Ideal(log[..|log| - 1], start, e.time) - 1.0 else start.capacity as real;
      Flow(start, level, e.time, now)
  }

  /** The level at `now` of an ideal bucket that had `level` at `since`. */
  function Flow(start: Bucket, level: real, since: real, now: real): real {
    Min(start.capacity as real, level + Earned(now - since, start.rate))
  }

  lemma {:induction false} FlowLater(start: Bucket, level: real, since: real, earlier: real, now: real)
    requires earlier <= now
    requires start.rate >= 0 || (since <= earlier && level <= start.capacity as real)
    ensures Flow(start, level, since, now) == Flow(start, Flow(start, level, since, earlier), earlier, now)
  {
    EarnedSplit(start.rate, since, earlier, now);
    EarnedSign(now - earlier, start.rate);
    if start.rate < 0 { EarnedSign(earlier - since, start.rate); }
    MinLater(start.capacity as real, level, Earned(earlier - since, start.rate), Earned(now - earlier, start.rate));
  }

  lemma {:induction false} MinLater(cap: real, level: real, first: real, second: real)
    requires second >= 0.0 || (level <= cap && first <= 0.0)
    ensures Min(cap, level + (first + second)) == Min(cap, Min(cap, level + first) + second)
  {
  }

  // ---------- truncation against the ideal ----------

  predicate NoneAfter(log: seq<Event>, now: real) {
    forall e :: e in log ==> e.time <= now
  }

  /** After n calls the bucket is within n tokens of the ideal one: below it while
      it refills, above it while it drains. */
  predicate Tracks(start: Bucket, s: State, now: real, n: nat) {
    && s.bucket.capacity == start.capacity && s.bucket.rate == start.rate
    && start.lastRefill <= s.bucket.lastRefill <= now && NoneAfter(s.log, s.bucket.lastRefill)
    && var ideal := Ideal(s.log, start, s.bucket.lastRefill);
       && ideal <= start.capacity as real
       && Near(start.rate, s.bucket.tokens, ideal, n)
  }

  predicate Near(rate: int, tokens: int, ideal: real, n: nat) {
    if rate >= 0 then tokens as real <= ideal <= (tokens + n) as real
    else (tokens - n) as real <= ideal <= tokens as real
  }

  lemma {:induction false} EarnedSplit(rate: int, a: real, b: real, c: real)
    ensures Earned(c - a, rate) == Earned(b - a, rate) + Earned(c - b, rate)
  {
    MulSplit(rate as real, a, b, c);
  }

  lemma {:induction false} EarnedSign(elapsed: real, rate: int)
    requires elapsed >= 0.0
    ensures if rate >= 0 then Earned(elapsed, rate) >= 0.0 else Earned(elapsed, rate) <= 0.0
  {
  }

  lemma {:induction false} IdealLater(log: seq<Event>, start: Bucket, earlier: real, now: real)
    requires start.rate >= 0 || (start.lastRefill <= earlier && NoneAfter(log, earlier))
    requires earlier <= now
    ensures Ideal(log, start, now) == Flow(start, Ideal(log, start, earlier), earlier, now)
  {
    if log == [] {
      FlowLater(start, start.capacity as real, start.lastRefill, earlier, now);
    } else {
      var e := log[|log| - 1];
      assert e in log;
      IdealAtMostFull(log[..|log| - 1], start, e.time);
      var level := if e.Admitted? then Ideal(log[..|log| - 1], start, e.time) - 1.0 else start.capacity as real;
      FlowLater(start, level, e.time, earlier, now);
    }
  }

  lemma {:induction false} IdealAtMostFull(log: seq<Event>, start: Bucket, now: real)
    ensures Ideal(log, start, now) <= start.capacity as real
  {
  }

  lemma {:induction false} IdealAppend(log: seq<Event>, start: Bucket, e: Event)
    ensures Ideal(log + [e], start, e.time) ==
            Min(start.capacity as real, if e.Admitted? then Ideal(log, start, e.time) - 1.0 else start.capacity as real)
  {
    assert (log + [e])[..|log|] == log;
  }

  lemma {:induction false} TruncTowardZero(x: real)
    ensures x >= 0.0 ==> Trunc(x) as real <= x <= Trunc(x) as real + 1.0
    ensures x <= 0.0 ==> Trunc(x) as real - 1.0 <= x <= Trunc(x) as real
  {
  }

  lemma {:induction false} GainNear(cap: int, rate: int, tokens: int, ideal: real, gain: real, n: nat)
    requires Near(rate, tokens, ideal, n) && (if rate >= 0 then gain >= 0.0 else gain <= 0.0)
    ensures Near(rate, if Trunc(gain) + tokens > cap then cap else Trunc(gain) + tokens,
                 Min(cap as real, ideal + gain), n + 1)
  {
    TruncTowardZero(gain);
  }

  lemma {:induction false} RefillNear(b: Bucket, ideal: real, now: real, n: nat)
    requires b.lastRefill <= now && Near(b.rate, b.tokens, ideal, n)
    ensures Near(b.rate, Refill(b, now).tokens, Flow(b, ideal, b.lastRefill, now), n + 1)
  {
    var gain := Earned(now - b.lastRefill, b.rate);
    EarnedSign(now - b.lastRefill, b.rate);
    GainNear(b.capacity, b.rate, b.tokens, ideal, gain, n);
  }

  lemma {:induction false} RefillTracks(start: Bucket, s: State, now: real, n: nat)
    requires Tracks(start, s, now, n)
    ensures Tracks(start, s.(bucket := Refill(s.bucket, now)), now, n + 1)
  {
    var ideal := Ideal(s.log, start, s.bucket.lastRefill);
    IdealLater(s.log, start, s.bucket.lastRefill, now);
    assert Flow(start, ideal, s.bucket.lastRefill, now) == Flow(s.bucket, ideal, s.bucket.lastRefill, now);
    RefillNear(s.bucket, ideal, now, n);
  }

  lemma {:induction false} StepTracks(start: Bucket, s: State, op: Op, n: nat)
    requires Tracks(start, s, op.now, n)
    ensures Tracks(start, Step(s, op), op.now, n + 1)
    ensures start.rate >= 0 && op.AllowOp? && AllowStep(s.bucket, op.now).1 ==> Ideal(s.log, start, op.now) >= 1.0
  {
    RefillTracks(start, s, op.now, n);
    IdealAppend(s.log, start, Admitted(op.now));
    IdealAppend(s.log, start, WasReset(op.now));
  }

  lemma {:induction false} RunTracks(start: Bucket, ops: seq<Op>, now: real)
    requires start.tokens == start.capacity && OrderedUpTo(start.lastRefill, ops, now)
    ensures Tracks(start, Run(start, ops), now, |ops|)
  {
    if ops != [] {
      var init, op := ops[..|ops| - 1], ops[|ops| - 1];
      RunTracks(start, init, op.now);
      StepTracks(start, Run(start, init), op, |init|);
    }
  }

  /** Each call loses at most one token, or drains at most one too few: a fresh
      bucket is never further from the ideal one than the number of calls, and on
      the side its rate gives. */
  lemma {:induction false} LosesAtMostOnePerCall(start: Bucket, ops: seq<Op>, now: real)
    requires start.tokens == start.capacity && OrderedUpTo(start.lastRefill, ops, now)
    ensures var s := Run(start, ops);
            Near(start.rate, s.bucket.tokens, Ideal(s.log, start, s.bucket.lastRefill), |ops|)
  {
    RunTracks(start, ops, now);
  }

  /** Unless it drains from a positive capacity, the truncating bucket never admits
      a request that the ideal bucket, charged with the same admissions, refuses. */
  lemma {:induction false} NeverAdmitsMoreThanIdeal(start: Bucket, ops: seq<Op>, now: real)
    requires start.rate >= 0 || start.capacity <= 0
    requires start.tokens == start.capacity && OrderedUpTo(start.lastRefill, ops, now)
    ensures AllowStep(Run(start, ops).bucket, now).1 ==> Ideal(Run(start, ops).log, start, now) >= 1.0
  {
    if start.rate >= 0 {
      RunTracks(start, ops, now);
      StepTracks(start, Run(start, ops), AllowOp(now), |ops|);
    } else {
      NothingFromEmpty(start, ops, now, now);
    }
  }

  /** How long a draining bucket takes for half a token. */
  function HalfToken(rate: int): (r: real)
    requires rate < 0
    ensures r > 0.0 && Earned(r, rate) == -0.5
  {
    -0.5 / rate as real
  }

  /** n reads, half a token apart: the ideal bucket drains, the real one does not. */
  lemma {:induction false} ReadsHideDrain(start: Bucket, n: nat) returns (ops: seq<Op>, now: real)
    requires start.rate < 0 && start.tokens == start.capacity
    ensures OrderedUpTo(start.lastRefill, ops, now)
    ensures Run(start, ops) == State(start.(lastRefill := now), [])
    ensures Earned(now - start.lastRefill, start.rate) == -(n as real) / 2.0
  {
    if n == 0 {
      return [], start.lastRefill;
    }
    var before;
    ops, before := ReadsHideDrain(start, n - 1);
    now := before + HalfToken(start.rate);
    EarnedSplit(start.rate, start.lastRefill, before, now);
    assert Gain(now - before, start.rate) == 0;
    assert (ops + [RemainingOp(now)])[..|ops|] == ops;
    ops := ops + [RemainingOp(now)];
  }

  /** The condition is exact: any bucket that drains from a positive capacity can be
      brought to admit a request when the ideal one is empty. */
  lemma {:induction false} DrainingAdmitsMore(start: Bucket) returns (ops: seq<Op>, now: real)
    requires start.rate < 0 && start.capacity >= 1 && start.tokens == start.capacity
    ensures OrderedUpTo(start.lastRefill, ops, now)
    ensures AllowStep(Run(start, ops).bucket, now).1 && Ideal(Run(start, ops).log, start, now) < 1.0
  {
    ops, now := ReadsHideDrain(start, 2 * start.capacity);
    var drained := start.(lastRefill := now);
    EarnedSplit(start.rate, now, now, now);
    assert AllowStep(drained, now).1;
  }

  /** What the rate means: after a whole number of seconds nothing is lost, and the
      bucket has gained rate tokens for each of them, up to its capacity. */
  lemma {:induction false} WholeSecondsRefill(b: Bucket, seconds: int)
    requires b.rate >= 0 && seconds >= 0
    ensures Refill(b, b.lastRefill + seconds as real).tokens ==
            if b.tokens + b.rate * seconds > b.capacity then b.capacity else b.tokens + b.rate * seconds
  {
    assert Earned(seconds as real, b.rate) == (b.rate * seconds) as real;
    assert b.rate * seconds >= 0;
    assert b.lastRefill + seconds as real - b.lastRefill == seconds as real;
  }

  /** n calls of Allow at one moment. */
  function AllowTimes(b: Bucket, now: real, n: nat): Bucket {
    if n == 0 then b else AllowStep(AllowTimes(b, now, n - 1), now).0
  }

  /** A reset bucket admits exactly its capacity at once, and no more. */
  lemma {:induction false} ResetAdmitsCapacity(b: Bucket, now: real, n: nat)
    ensures AllowTimes(ResetStep(b, now), now, n) ==
            b.(tokens := if b.capacity <= 0 then b.capacity else Positive(b.capacity - n), lastRefill := now)
    ensures AllowStep(AllowTimes(ResetStep(b, now), now, n), now).1 <==> n < b.capacity
  {
    if n > 0 { ResetAdmitsCapacity(b, now, n - 1); }
    NothingAtOnce(AllowTimes(ResetStep(b, now), now, n), now);
  }

  lemma {:induction false} NothingAtOnce(b: Bucket, now: real)
    requires b.lastRefill == now && b.tokens <= b.capacity
    ensures Refill(b, now) == b
  {
    assert Earned(now - now, b.rate) == 0.0;
  }

  // ---------- the interval bound ----------

  lemma {:induction false} CountsAppend(log: seq<Event>, e: Event, from: real, to: real)
    ensures Admissions(log + [e], from, to) ==
            Admissions(log, from, to) + if e.Admitted? && from <= e.time <= to then 1 else 0
    ensures Resets(log + [e], from, to) == Resets(log, from, to) + if e.WasReset? && from <= e.time <= to then 1 else 0
  {
    assert (log + [e])[..|log|] == log;
  }

  lemma {:induction false} CountsBefore(log: seq<Event>, from: real, to: real, to': real)
    requires NoneAfter(log, to) && to <= to'
    ensures Admissions(log, from, to') == Admissions(log, from, to)
    ensures Resets(log, from, to') == Resets(log, from, to)
    ensures to < from ==> Admissions(log, from, to) == 0
  {
    if log != [] {
      assert log[|log| - 1] in log;
      CountsBefore(log[..|log| - 1], from, to, to');
    }
  }

  /** One full bucket plus one per reset. */
  function Fills(capacity: int, resets: nat): int {
    if resets == 0 then capacity else Fills(capacity, resets - 1) + capacity
  }

  lemma {:induction false} FillsIsProduct(capacity: int, resets: nat)
    ensures Fills(capacity, resets) == (1 + resets) * capacity
    ensures capacity >= 0 ==> Fills(capacity, resets) >= capacity
  {
    if resets > 0 { FillsIsProduct(capacity, resets - 1); }
  }

  /** Admissions since `from` plus the ideal level are covered by the fills and
      the refill since `from`. */
  predicate Balance(start: Bucket, admissions: nat, resets: nat, level: real, from: real, now: real) {
    && 0.0 <= level <= start.capacity as real
    && (from <= now ==>
          admissions as real + level <= Fills(start.capacity, resets) as real + Earned(now - from, start.rate))
    && (now < from ==> admissions == 0)
  }

  predicate Covered(start: Bucket, log: seq<Event>, from: real, now: real) {
    Balance(start, Admissions(log, from, now), Resets(log, from, now), Ideal(log, start, now), from, now)
  }

  lemma {:induction false} BalanceLater(start: Bucket, admissions: nat, resets: nat, level: real, level': real,
                                        from: real, earlier: real, now: real)
    requires start.rate >= 0 && earlier <= now && Balance(start, admissions, resets, level, from, earlier)
    requires level' == Flow(start, level, earlier, now)
    ensures Balance(start, admissions, resets, level', from, now)
  {
    EarnedSign(now - earlier, start.rate);
    if from <= earlier {
      EarnedSplit(start.rate, from, earlier, now);
    } else if from <= now {
      EarnedSign(now - from, start.rate);
      FillsIsProduct(start.capacity, resets);
    }
  }

  lemma {:induction false} CoveredLater(start: Bucket, log: seq<Event>, from: real, earlier: real, now: real)
    requires start.rate >= 0 && NoneAfter(log, earlier) && earlier <= now && Covered(start, log, from, earlier)
    ensures Covered(start, log, from, now)
  {
    IdealLater(log, start, earlier, now);
    CountsBefore(log, from, earlier, now);
    BalanceLater(start, Admissions(log, from, now), Resets(log, from, now),
                 Ideal(log, start, earlier), Ideal(log, start, now), from, earlier, now);
  }

  lemma {:induction false} EventCovered(start: Bucket, log: seq<Event>, e: Event, from: real)
    requires Covered(start, log, from, e.time) && (e.Admitted? ==> Ideal(log, start, e.time) >= 1.0)
    ensures Covered(start, log + [e], from, e.time)
  {
    CountsAppend(log, e, from, e.time);
    IdealAppend(log, start, e);
  }

  lemma {:induction false} RunCovered(start: Bucket, ops: seq<Op>, from: real, now: real)
    requires start.rate >= 0 && start.tokens == start.capacity >= 0 && OrderedUpTo(start.lastRefill, ops, now)
    ensures Covered(start, Run(start, ops).log, from, now) && NoneAfter(Run(start, ops).log, now)
  {
    if ops == [] {
      EarnedSign(now - start.lastRefill, start.rate);
      if from <= now { EarnedSign(now - from, start.rate); }
    } else {
      var init, op := ops[..|ops| - 1], ops[|ops| - 1];
      var s := Run(start, init);
      RunCovered(start, init, from, op.now);
      RunTracks(start, init, op.now);
      StepTracks(start, s, op, |init|);
      if op.ResetOp? {
        EventCovered(start, s.log, WasReset(op.now), from);
      } else if op.AllowOp? && AllowStep(s.bucket, op.now).1 {
        EventCovered(start, s.log, Admitted(op.now), from);
      }
      CoveredLater(start, Run(start, ops).log, from, op.now, now);
    }
  }

  lemma {:induction false} NothingFromEmpty(start: Bucket, ops: seq<Op>, from: real, to: real)
    requires start.tokens <= start.capacity <= 0
    ensures Admissions(Run(start, ops).log, from, to) == 0
    ensures Run(start, ops).bucket.tokens <= Run(start, ops).bucket.capacity == start.capacity
  {
    if ops != [] {
      var init, op := ops[..|ops| - 1], ops[|ops| - 1];
      NothingFromEmpty(start, init, from, to);
      CountsAppend(Run(start, init).log, WasReset(op.now), from, to);
    }
  }

  function Positive(n: int): nat { if n < 0 then 0 else n }

  /** A bucket that drains: admissions since `from` plus the tokens left are
      covered by the fills alone. */
  lemma {:induction false} DrainCovered(start: Bucket, ops: seq<Op>, from: real, to: real)
    requires start.rate < 0 && start.tokens == start.capacity >= 0 && OrderedUpTo(start.lastRefill, ops, to)
    ensures var s := Run(start, ops);
            && s.bucket.tokens <= start.capacity
            && Admissions(s.log, from, to) + Positive(s.bucket.tokens)
               <= Fills(start.capacity, Resets(s.log, from, to))
  {
    if ops != [] {
      var init, op := ops[..|ops| - 1], ops[|ops| - 1];
      OrderedWiden(start.lastRefill, init, op.now, to);
      DrainCovered(start, init, from, to);
      RunTracks(start, init, op.now);
      StepDrains(start, Run(start, init), op, from, to);
    }
  }

  lemma {:induction false} OrderedWiden(start: real, ops: seq<Op>, earlier: real, to: real)
    requires OrderedUpTo(start, ops, earlier) && earlier <= to
    ensures OrderedUpTo(start, ops, to)
  {
  }

  lemma {:induction false} RefillOnlyDrains(b: Bucket, now: real)
    requires b.rate < 0 && b.lastRefill <= now
    ensures Refill(b, now).tokens <= b.tokens
  {
    EarnedSign(now - b.lastRefill, b.rate);
  }

  lemma {:induction false} StepDrains(start: Bucket, s: State, op: Op, from: real, to: real)
    requires start.rate < 0 && start.capacity >= 0 && op.now <= to
    requires s.bucket.rate == start.rate && s.bucket.capacity == start.capacity
    requires s.bucket.lastRefill <= op.now && NoneAfter(s.log, op.now) && s.bucket.tokens <= start.capacity
    requires Admissions(s.log, from, to) + Positive(s.bucket.tokens) <= Fills(start.capacity, Resets(s.log, from, to))
    ensures var s' := Step(s, op);
            && s'.bucket.tokens <= start.capacity
            && Admissions(s'.log, from, to) + Positive(s'.bucket.tokens)
               <= Fills(start.capacity, Resets(s'.log, from, to))
  {
    RefillOnlyDrains(s.bucket, op.now);
    CountsAppend(s.log, Admitted(op.now), from, to);
    CountsAppend(s.log, WasReset(op.now), from, to);
    CountsBefore(s.log, from, op.now, to);
    FillsIsProduct(start.capacity, Resets(s.log, from, to));
  }

  /** The bound for `admissions` and `resets` counted over an interval. */
  predicate WithinBound(start: Bucket, admissions: nat, resets: nat, length: real) {
    admissions as real <= ((1 + resets) * Positive(start.capacity)) as real + Positive(start.rate) as real * length
  }

  lemma {:induction false} FillsWithinBound(start: Bucket, admissions: nat, resets: nat, length: real)
    requires start.capacity >= 0
    requires admissions as real <= Fills(start.capacity, resets) as real + Earned(length, Positive(start.rate))
    ensures WithinBound(start, admissions, resets, length)
  {
    FillsIsProduct(start.capacity, resets);
    assert Fills(start.capacity, resets) == (1 + resets) * Positive(start.capacity);
  }

  lemma {:induction false} NoneWithinBound(start: Bucket, resets: nat, length: real)
    requires length >= 0.0
    ensures WithinBound(start, 0, resets, length)
  {
    EarnedSign(length, Positive(start.rate));
    assert (1 + resets) * Positive(start.capacity) >= 0;
  }

  /** Over any interval [from, to], a fresh bucket admits at most one capacity,
      one more per Reset in the interval, and what a positive rate refills. */
  lemma {:induction false} IntervalBound(start: Bucket, ops: seq<Op>, now: real, from: real, to: real)
    requires start.tokens == start.capacity && OrderedUpTo(start.lastRefill, ops, now) && from <= to
    ensures var log := Run(start, ops).log;
            WithinBound(start, Admissions(log, from, to), Resets(log, from, to), to - from)
  {
    if start.capacity < 0 || ops == [] {
      if ops != [] { NothingFromEmpty(start, ops, from, to); }
      NoneWithinBound(start, Resets(Run(start, ops).log, from, to), to - from);
    } else if ops[|ops| - 1].now <= to {
      CoveredInterval(start, ops, from, to);
    } else {
      var init, op := ops[..|ops| - 1], ops[|ops| - 1];
      IntervalBound(start, init, op.now, from, to);
      LaterStepsDoNotCount(Run(start, init), op, from, to);
    }
  }

  lemma {:induction false} CoveredInterval(start: Bucket, ops: seq<Op>, from: real, to: real)
    requires start.tokens == start.capacity >= 0 && OrderedUpTo(start.lastRefill, ops, to) && from <= to
    ensures var log := Run(start, ops).log;
            WithinBound(start, Admissions(log, from, to), Resets(log, from, to), to - from)
  {
    var log := Run(start, ops).log;
    if start.rate < 0 {
      DrainCovered(start, ops, from, to);
      EarnedSign(to - from, Positive(start.rate));
    } else {
      RunCovered(start, ops, from, to);
      assert Positive(start.rate) == start.rate;
    }
    FillsWithinBound(start, Admissions(log, from, to), Resets(log, from, to), to - from);
  }

  lemma {:induction false} LaterStepsDoNotCount(s: State, op: Op, from: real, to: real)
    requires to < op.now
    ensures Admissions(Step(s, op).log, from, to) == Admissions(s.log, from, to)
    ensures Resets(Step(s, op).log, from, to) == Resets(s.log, from, to)
  {
    CountsAppend(s.log, WasReset(op.now), from, to);
    CountsAppend(s.log, Admitted(op.now), from, to);
  }

  // ---------- the middleware: one bucket per key, never refilled ----------

  datatype Config = Config(enabled: bool, requests: int)

  datatype Request = Request(key: string, now: real)

  /** Ask the bucket, and on success read Remaining for the headers. */
  function AskBucket(b: Bucket, now: real): (Bucket, bool) {
    var (b', ok) := AllowStep(b, now);
    (if ok then Refill(b', now) else b', ok)
  }

  /** The key's bucket, created full with refill rate 0 if need be. */
  function FindBucket(requests: int, buckets: map<string, Bucket>, r: Request): Bucket {
    if r.key in buckets then buckets[r.key] else NewBucket(requests, 0, r.now)
  }

  /** One request through the middleware. */
  function ServeStep(c: Config, buckets: map<string, Bucket>, r: Request): (map<string, Bucket>, bool) {
    if !c.enabled then (buckets, true)
    else
      var (b, ok) := AskBucket(FindBucket(c.requests, buckets, r), r.now);
      (buckets[r.key := b], ok)
  }

  function Serve(c: Config, rs: seq<Request>): (map<string, Bucket>, seq<bool>) {
    if rs == [] then (map[], [])
    else
      var (buckets, answers) := Serve(c, rs[..|rs| - 1]);
      var (buckets', ok) := ServeStep(c, buckets, rs[|rs| - 1]);
      (buckets', answers + [ok])
  }

  function Earlier(rs: seq<Request>, key: string): nat {
    if rs == [] then 0 else Earlier(rs[..|rs| - 1], key) + if rs[|rs| - 1].key == key then 1 else 0
  }

  lemma {:induction false} NoRefill(b: Bucket, now: real)
    requires b.rate == 0 && b.tokens <= b.capacity
    ensures Refill(b, now) == b.(lastRefill := now)
  {
    assert (now - b.lastRefill) * 0.0 == 0.0;
  }

  lemma {:induction false} ServeStepCounts(c: Config, buckets: map<string, Bucket>, r: Request)
    requires c.enabled
    requires r.key in buckets ==>
               var b := buckets[r.key]; b.rate == 0 && b.capacity == c.requests && b.tokens <= c.requests
    ensures var before := if r.key in buckets then buckets[r.key].tokens else c.requests;
            var (buckets', ok) := ServeStep(c, buckets, r);
            && (ok <==> before > 0)
            && buckets'[r.key] == Bucket(c.requests, 0, if ok then before - 1 else before, r.now)
  {
    var b := FindBucket(c.requests, buckets, r);
    NoRefill(b, r.now);
    var (b', ok) := AllowStep(b, r.now);
    NoRefill(b', r.now);
  }

  /** A key's bucket only counts down from `requests`, whatever the clock does; a
      disabled middleware has no bucket at all. */
  lemma {:induction false} BucketCountsDown(c: Config, rs: seq<Request>, key: string)
    ensures var buckets := Serve(c, rs).0;
            if !c.enabled || Earlier(rs, key) == 0 then key !in buckets
            else && key in buckets && buckets[key].capacity == c.requests && buckets[key].rate == 0
                 && buckets[key].tokens ==
                    (if c.requests <= 0 then c.requests else Positive(c.requests - Earlier(rs, key)))
  {
    if rs != [] {
      var init, r := rs[..|rs| - 1], rs[|rs| - 1];
      BucketCountsDown(c, init, key);
      if c.enabled && r.key == key {
        ServeStepCounts(c, Serve(c, init).0, r);
      }
    }
  }

  /** The i-th request passes exactly when the limit is off or fewer than `requests`
      requests with the same key came before it: the limit is per lifetime, not per
      window, because nothing ever refills the bucket. */
  lemma {:induction false} LifetimeLimit(c: Config, rs: seq<Request>, i: nat)
    requires i < |rs|
    ensures |Serve(c, rs).1| == |rs|
    ensures Serve(c, rs).1[i] <==> !c.enabled || Earlier(rs[..i], rs[i].key) < c.requests
  {
    var init := rs[..|rs| - 1];
    ServeLength(c, init);
    if i < |rs| - 1 {
      LifetimeLimit(c, init, i);
      assert init[..i] == rs[..i];
    } else if c.enabled {
      BucketCountsDown(c, init, rs[i].key);
      ServeStepCounts(c, Serve(c, init).0, rs[i]);
    }
  }

  lemma {:induction false} ServeLength(c: Config, rs: seq<Request>)
    ensures |Serve(c, rs).1| == |rs|
  {
    if rs != [] { ServeLength(c, rs[..|rs| - 1]); }
  }

  // ---------- the objects themselves ----------

  class TokenBucket {
    const capacity: int
    const rate: int
    var tokens: int
    var lastRefill: real

    function Value(): Bucket
      reads this
    {
      Bucket(capacity, rate, tokens, lastRefill)
    }

    constructor (capacity: int, rate: int, now: real)
      ensures Value() == NewBucket(capacity, rate, now)
    {
      this.capacity := capacity;
      this.rate := rate;
      tokens := capacity;
      lastRefill := now;
    }

    method RefillAt(now: real)
      modifies this
      ensures Value() == Refill(old(Value()), now)
    {
      var tokensToAdd := Gain(now - lastRefill, rate) + tokens;
      if tokensToAdd > capacity {
        tokens := capacity;
      } else {
        tokens := tokensToAdd;
      }
      lastRefill := now;
    }

    method Allow(now: real) returns (ok: bool)
      modifies this
      ensures (Value(), ok) == AllowStep(old(Value()), now)
    {
      RefillAt(now);
      ok := tokens > 0;
      if ok {
        tokens := tokens - 1;
      }
    }

    method Remaining(now: real) returns (r: int)
      modifies this
      ensures Value() == Refill(old(Value()), now) && r == tokens
    {
      RefillAt(now);
      r := tokens;
    }

    /** What ServeHTTP does with a bucket. */
    method Ask(now: real) returns (ok: bool)
      modifies this
      ensures (Value(), ok) == AskBucket(old(Value()), now)
    {
      ok := Allow(now);
      if ok {
        var _ := Remaining(now);
      }
    }

    method Reset(now: real)
      modifies this
      ensures Value() == ResetStep(old(Value()), now)
    {
      tokens := capacity;
      lastRefill := now;
    }
  }

  class RateLimitMiddleware {
    const config: Config
    var buckets: map<string, TokenBucket>

    /** No two keys share a bucket object. */
    ghost predicate Valid()
      reads this
    {
      forall j, k :: j in buckets && k in buckets && j != k ==> buckets[j] != buckets[k]
    }

    ghost function Value(): map<string, Bucket>
      reads this, buckets.Values
    {
      map k | k in buckets :: buckets[k].Value()
    }

    constructor (config: Config)
      ensures this.config == config && Valid() && Value() == map[]
    {
      this.config := config;
      buckets := map[];
    }

    method GetBucket(key: string, now: real) returns (bucket: TokenBucket)
      requires Valid()
      modifies this
      ensures Valid() && key in buckets && bucket == buckets[key]
      ensures buckets == old(buckets) || (fresh(bucket) && buckets == old(buckets)[key := bucket])
      ensures bucket.Value() == FindBucket(config.requests, old(Value()), Request(key, now))
      ensures Value() == old(Value())[key := bucket.Value()]
    {
      if key in buckets {
        assert Value() == old(Value())[key := buckets[key].Value()];
        return buckets[key];
      }
      bucket := new TokenBucket(config.requests, 0, now);
      buckets := buckets[key := bucket];
    }

    method ServeHTTP(key: string, now: real) returns (ok: bool)
      requires Valid()
      modifies this, buckets.Values
      ensures Valid()
      ensures (Value(), ok) == ServeStep(config, old(Value()), Request(key, now))
    {
      if !config.enabled {
        return true;
      }
      var bucket := GetBucket(key, now);
      ghost var found := Value();
      ok := bucket.Ask(now);
      assert Value() == found[key := bucket.Value()];
      assert Value() == old(Value())[key := bucket.Value()];
    }
  }
}
