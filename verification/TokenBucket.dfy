/** The gateway's token-bucket limiter: buckets are created full on first use,
    refilled lazily on each call, and dropped by a sweeper once they are full
    and idle for ten minutes.  Time is in seconds. */
module TokenBucket {
  import opened Common
  import opened Arithmetic

  datatype Config = Config(rpm: int, tpm: int, burstMultiplier: real) {
    function Burst(): int { Trunc(rpm as real * burstMultiplier) }
    function Rate(): real { rpm as real / 60.0 }
  }

  datatype Bucket = Bucket(tokens: real, maxTokens: real, perSec: real, lastRefill: real)

  type Buckets = map<string, Bucket>

  const IDLE_SECONDS := 600.0

  // ---------- one call ----------

  function NewBucket(c: Config, now: real): Bucket {
    Bucket(c.Burst() as real, c.Burst() as real, c.Rate(), now)
  }

  function Accrued(elapsed: real, perSec: real): real { elapsed * perSec }

  function Refill(b: Bucket, now: real): Bucket {
    b.(tokens := Min(b.tokens + Accrued(now - b.lastRefill, b.perSec), b.maxTokens), lastRefill := now)
  }

  function Current(c: Config, buckets: Buckets, key: string, now: real): Bucket {
    if key in buckets then buckets[key] else NewBucket(c, now)
  }

  function AllowStep(c: Config, buckets: Buckets, key: string, tokens: int, now: real): (Buckets, bool) {
    var b := Refill(Current(c, buckets, key, now), now);
    if b.tokens >= tokens as real then (buckets[key := b.(tokens := b.tokens - tokens as real)], true)
    else (buckets[key := b], false)
  }

  predicate Drops(b: Bucket, now: real) {
    b.tokens >= b.maxTokens && now - b.lastRefill > IDLE_SECONDS
  }

  function SweepStep(buckets: Buckets, now: real): Buckets {
    map key | key in buckets && !Drops(buckets[key], now) :: buckets[key]
  }

  /** GetLimit's Remaining: the zero value of the field when there is no bucket. */
  function Remaining(buckets: Buckets, key: string): int {
    if key in buckets then Trunc(buckets[key].tokens) else 0
  }

  /** What GetLimit reports; a key without a bucket has no reset time. */
  datatype Limit = Limit(rpm: int, tpm: int, burst: int, remaining: int, resetAt: Option<real>)

  // ---------- whole runs ----------

  datatype Op = AllowOp(key: string, tokens: int, now: real) | SweepOp(now: real)

  datatype Grant = Grant(key: string, time: real, tokens: int)

  datatype State = State(buckets: Buckets, log: seq<Grant>, answers: seq<bool>)

  function Step(c: Config, s: State, op: Op): State {
    match op
    case AllowOp(key, tokens, now) =>
      var (buckets, ok) := AllowStep(c, s.buckets, key, tokens, now);
      State(buckets, if ok then s.log + [Grant(key, now, tokens)] else s.log, s.answers + [ok])
    case SweepOp(now) =>
      s.(buckets := SweepStep(s.buckets, now))
  }

  function Run(c: Config, ops: seq<Op>): State {
    if ops == [] then State(map[], [], [])
    else Step(c, Run(c, ops[..|ops| - 1]), ops[|ops| - 1])
  }

  predicate OrderedUpTo(ops: seq<Op>, now: real) {
    ops == [] || (ops[|ops| - 1].now <= now && OrderedUpTo(ops[..|ops| - 1], ops[|ops| - 1].now))
  }

  predicate NonNegative(ops: seq<Op>) {
    forall i :: 0 <= i < |ops| && ops[i].AllowOp? ==> ops[i].tokens >= 0
  }

  function Unswept(ops: seq<Op>): seq<Op> {
    if ops == [] then []
    else
      var rest := Unswept(ops[..|ops| - 1]);
      if ops[|ops| - 1].SweepOp? then rest else rest + [ops[|ops| - 1]]
  }

  /** Tokens granted to `key` at times in [from, to], over the full history. */
  function Granted(log: seq<Grant>, key: string, from: real, to: real): int {
    if log == [] then 0
    else
      var g := log[|log| - 1];
      Granted(log[..|log| - 1], key, from, to) + if g.key == key && from <= g.time <= to then g.tokens else 0
  }

  /** A limiter whose burst and rate are not negative. */
  predicate Sane(c: Config) { c.rpm >= 0 && c.Burst() >= 0 }

  // ---------- lazy refill ----------

  /** Refilling in two instalments is refilling once: laziness loses nothing. */
  lemma {:induction false} RefillCompose(b: Bucket, mid: real, now: real)
    requires b.perSec >= 0.0 && b.lastRefill <= mid <= now
    ensures Refill(Refill(b, mid), now) == Refill(b, now)
  {
    MulNonNegative(now - mid, b.perSec);
    MulSplit(b.perSec, b.lastRefill, mid, now);
  }

  // ---------- the potential argument ----------

  /** What a call at `now` would find in the key's bucket. */
  function Level(c: Config, buckets: Buckets, key: string, now: real): real {
    Refill(Current(c, buckets, key, now), now).tokens
  }

  predicate InRange(c: Config, b: Bucket, now: real) {
    && 0.0 <= b.tokens <= b.maxTokens
    && b.maxTokens == c.Burst() as real && b.perSec == c.Rate()
    && b.lastRefill <= now
  }

  predicate AllInRange(c: Config, buckets: Buckets, now: real) {
    forall key :: key in buckets ==> InRange(c, buckets[key], now)
  }

  lemma {:induction false} RefillInRange(c: Config, b: Bucket, earlier: real, now: real)
    requires Sane(c) && InRange(c, b, earlier) && earlier <= now
    ensures InRange(c, Refill(b, now), now)
    ensures b.tokens <= Refill(b, now).tokens
  {
    MulNonNegative(now - b.lastRefill, b.perSec);
  }

  lemma {:induction false} StepInRange(c: Config, s: State, op: Op, earlier: real)
    requires Sane(c) && AllInRange(c, s.buckets, earlier) && earlier <= op.now
    requires op.AllowOp? ==> op.tokens >= 0
    ensures AllInRange(c, Step(c, s, op).buckets, op.now)
  {
    if op.AllowOp? {
      var b := Current(c, s.buckets, op.key, op.now);
      RefillInRange(c, b, op.now, op.now);
    }
  }

  /** Stored tokens stay in [0, maxTokens] as long as no request is negative. */
  lemma {:induction false} StoredInRange(c: Config, ops: seq<Op>, now: real)
    requires Sane(c) && OrderedUpTo(ops, now) && NonNegative(ops)
    ensures AllInRange(c, Run(c, ops).buckets, now)
  {
    if ops != [] {
      var init, op := ops[..|ops| - 1], ops[|ops| - 1];
      StoredInRange(c, init, op.now);
      StepInRange(c, Run(c, init), op, op.now);
    }
  }

  /** The last request made for the key. */
  function LastRequest(ops: seq<Op>, key: string): Option<int> {
    if ops == [] then None
    else if ops[|ops| - 1].AllowOp? && ops[|ops| - 1].key == key then Some(ops[|ops| - 1].tokens)
    else LastRequest(ops[..|ops| - 1], key)
  }

  /** A bucket holds no more than it should, but for what a negative request just
      put on top. */
  predicate OverfilledBy(c: Config, b: Bucket, now: real, last: Option<int>) {
    && last.Some?
    && 0.0 <= b.tokens <= b.maxTokens - (if last.value < 0 then last.value as real else 0.0)
    && b.maxTokens == c.Burst() as real && b.perSec == c.Rate() && b.lastRefill <= now
  }

  /** For any requests, negative ones included: stored tokens are never negative and
      exceed maxTokens at most by the key's last request, if that was negative. */
  lemma {:induction false} StoredAfterAnyRequests(c: Config, ops: seq<Op>, now: real)
    requires Sane(c) && OrderedUpTo(ops, now)
    ensures forall key :: key in Run(c, ops).buckets ==>
                            OverfilledBy(c, Run(c, ops).buckets[key], now, LastRequest(ops, key))
  {
    if ops != [] {
      var init, op := ops[..|ops| - 1], ops[|ops| - 1];
      StoredAfterAnyRequests(c, init, op.now);
      if op.AllowOp? {
        RefillCaps(Current(c, Run(c, init).buckets, op.key, op.now), op.now);
      }
    }
  }

  /** A refill never takes tokens away and never leaves more than the maximum. */
  lemma {:induction false} RefillCaps(b: Bucket, now: real)
    requires b.tokens >= 0.0 && b.maxTokens >= 0.0 && b.perSec >= 0.0 && b.lastRefill <= now
    ensures 0.0 <= Refill(b, now).tokens <= b.maxTokens
  {
    AccruedSign(now - b.lastRefill, b.perSec);
  }

  lemma {:induction false} AccruedSign(elapsed: real, perSec: real)
    requires elapsed >= 0.0 && perSec >= 0.0
    ensures Accrued(elapsed, perSec) >= 0.0
  {
  }

  lemma {:induction false} LevelLater(c: Config, buckets: Buckets, key: string, earlier: real, now: real)
    requires Sane(c) && AllInRange(c, buckets, earlier) && earlier <= now
    ensures 0.0 <= Level(c, buckets, key, now) <= c.Burst() as real
    ensures Level(c, buckets, key, now) <= Level(c, buckets, key, earlier) + c.Rate() * (now - earlier)
  {
    MulNonNegative(c.Rate(), now - earlier);
    RefillInRange(c, Current(c, buckets, key, now), now, now);
    if key in buckets {
      RefillInRange(c, buckets[key], earlier, earlier);
      MulSplit(c.Rate(), buckets[key].lastRefill, earlier, now);
    }
  }

  /** Everything granted since `from` plus what is left is covered by one burst
      and the refill since `from`. */
  predicate Covered(c: Config, s: State, key: string, from: real, now: real) {
    if from <= now then
      Granted(s.log, key, from, now) as real + Level(c, s.buckets, key, now)
      <= c.Burst() as real + c.Rate() * (now - from)
    else Granted(s.log, key, from, from) == 0
  }

  predicate NoneAfter(log: seq<Grant>, now: real) {
    forall g :: g in log ==> g.time <= now
  }

  lemma {:induction false} GrantedBefore(log: seq<Grant>, key: string, from: real, to: real, to': real)
    requires NoneAfter(log, to)
    ensures to <= to' ==> Granted(log, key, from, to') == Granted(log, key, from, to)
    ensures to < from ==> Granted(log, key, from, to') == 0
  {
    if log != [] {
      assert log[|log| - 1] in log;
      GrantedBefore(log[..|log| - 1], key, from, to, to');
    }
  }

  lemma {:induction false} GrantedAppend(log: seq<Grant>, g: Grant, key: string, from: real, to: real)
    ensures Granted(log + [g], key, from, to) ==
            Granted(log, key, from, to) + if g.key == key && from <= g.time <= to then g.tokens else 0
  {
    assert (log + [g])[..|log|] == log;
  }

  lemma {:induction false} CoveredLater(c: Config, s: State, key: string, from: real, earlier: real, now: real)
    requires Sane(c) && AllInRange(c, s.buckets, earlier) && NoneAfter(s.log, earlier) && earlier <= now
    requires Covered(c, s, key, from, earlier)
    ensures Covered(c, s, key, from, now)
  {
    LevelLater(c, s.buckets, key, earlier, now);
    GrantedBefore(s.log, key, from, earlier, now);
    GrantedBefore(s.log, key, from, earlier, from);
    if from <= earlier {
      MulSplit(c.Rate(), from, earlier, now);
    } else if from <= now {
      MulNonNegative(c.Rate(), now - from);
    }
  }

  /** A call spends from its key's level exactly what it grants. */
  lemma {:induction false} AllowSpendsLevel(c: Config, buckets: Buckets, k: string, tokens: int, now: real, key: string)
    requires Sane(c) && AllInRange(c, buckets, now) && tokens >= 0
    ensures var (buckets', ok) := AllowStep(c, buckets, k, tokens, now);
            Level(c, buckets', key, now) == Level(c, buckets, key, now) - if ok && k == key then tokens as real else 0.0
  {
    LevelLater(c, buckets, key, now, now);
  }

  /** Dropping a full bucket does not change what the next call would find. */
  lemma {:induction false} SweepKeepsLevel(c: Config, buckets: Buckets, now: real, key: string)
    requires Sane(c) && AllInRange(c, buckets, now)
    ensures Level(c, SweepStep(buckets, now), key, now) == Level(c, buckets, key, now)
  {
    if key in buckets && Drops(buckets[key], now) {
      RefillInRange(c, buckets[key], now, now);
    }
  }

  lemma {:induction false} StepCovered(c: Config, s: State, op: Op, key: string, from: real)
    requires Sane(c) && AllInRange(c, s.buckets, op.now) && NoneAfter(s.log, op.now)
    requires op.AllowOp? ==> op.tokens >= 0
    requires Covered(c, s, key, from, op.now)
    ensures Covered(c, Step(c, s, op), key, from, op.now)
  {
    match op
    case AllowOp(k, tokens, now) =>
      LevelLater(c, s.buckets, key, now, now);
      AllowSpendsLevel(c, s.buckets, k, tokens, now, key);
      GrantedAppend(s.log, Grant(k, now, tokens), key, from, now);
      GrantedAppend(s.log, Grant(k, now, tokens), key, from, from);
    case SweepOp(now) =>
      SweepKeepsLevel(c, s.buckets, now, key);
  }

  lemma {:induction false} RunCovered(c: Config, ops: seq<Op>, key: string, from: real, now: real)
    requires Sane(c) && OrderedUpTo(ops, now) && NonNegative(ops)
    ensures Covered(c, Run(c, ops), key, from, now) && NoneAfter(Run(c, ops).log, now)
  {
    if ops == [] {
      LevelLater(c, map[], key, now, now);
      if from <= now { MulNonNegative(c.Rate(), now - from); }
    } else {
      var init, op := ops[..|ops| - 1], ops[|ops| - 1];
      RunCovered(c, init, key, from, op.now);
      StoredInRange(c, init, op.now);
      StepCovered(c, Run(c, init), op, key, from);
      StoredInRange(c, ops, op.now);
      CoveredLater(c, Run(c, ops), key, from, op.now, now);
    }
  }

  /** The cover is tight from some moment on: what was granted since `from` plus
      the level is all that the burst and the refill since `from` provide. */
  predicate Tight(c: Config, s: State, key: string, from: real, now: real) {
    from <= now
    && Granted(s.log, key, from, now) as real + Level(c, s.buckets, key, now) ==
       c.Burst() as real + c.Rate() * (now - from)
  }

  lemma {:induction false} TightLater(c: Config, s: State, key: string, from: real, earlier: real, now: real)
    returns (from': real)
    requires Sane(c) && AllInRange(c, s.buckets, earlier) && NoneAfter(s.log, earlier) && earlier <= now
    requires Tight(c, s, key, from, earlier)
    ensures Tight(c, s, key, from', now)
  {
    if earlier == now {
      return from;
    }
    var level, level' := Level(c, s.buckets, key, earlier), Level(c, s.buckets, key, now);
    LevelOnTime(c, s.buckets, key, earlier, now);
    if level' == level + c.Rate() * (now - earlier) {
      GrantedBefore(s.log, key, from, earlier, now);
      MulSplit(c.Rate(), from, earlier, now);
      return from;
    }
    GrantedBefore(s.log, key, now, earlier, now);
    return now;
  }

  /** Between calls the level grows at the rate until it reaches the burst. */
  lemma {:induction false} LevelOnTime(c: Config, buckets: Buckets, key: string, earlier: real, now: real)
    requires Sane(c) && AllInRange(c, buckets, earlier) && earlier <= now
    ensures Level(c, buckets, key, now) ==
            Min(c.Burst() as real, Level(c, buckets, key, earlier) + c.Rate() * (now - earlier))
  {
    MulNonNegative(c.Rate(), now - earlier);
    if key in buckets {
      var mid := Refill(buckets[key], earlier);
      RefillCompose(buckets[key], earlier, now);
      assert Refill(mid, now).tokens == Min(mid.tokens + (now - earlier) * c.Rate(), c.Burst() as real);
    } else {
      FreshIsFull(c, now);
      FreshIsFull(c, earlier);
    }
  }

  lemma {:induction false} FreshIsFull(c: Config, now: real)
    ensures Refill(NewBucket(c, now), now) == NewBucket(c, now)
  {
  }

  lemma {:induction false} StepTight(c: Config, s: State, op: Op, key: string, from: real)
    requires Sane(c) && AllInRange(c, s.buckets, op.now) && (op.AllowOp? ==> op.tokens >= 0)
    requires Tight(c, s, key, from, op.now)
    ensures Tight(c, Step(c, s, op), key, from, op.now)
  {
    match op
    case AllowOp(k, tokens, now) =>
      AllowSpendsLevel(c, s.buckets, k, tokens, now, key);
      GrantedAppend(s.log, Grant(k, now, tokens), key, from, now);
    case SweepOp(now) =>
      SweepKeepsLevel(c, s.buckets, now, key);
  }

  lemma {:induction false} RunTight(c: Config, ops: seq<Op>, key: string, now: real) returns (from: real)
    requires Sane(c) && OrderedUpTo(ops, now) && NonNegative(ops)
    ensures Tight(c, Run(c, ops), key, from, now)
  {
    if ops == [] {
      from := now;
      LevelLater(c, map[], key, now, now);
      LevelOnTime(c, map[], key, now, now);
    } else {
      var init, op := ops[..|ops| - 1], ops[|ops| - 1];
      from := RunTight(c, init, key, op.now);
      StoredInRange(c, init, op.now);
      StepTight(c, Run(c, init), op, key, from);
      StoredInRange(c, ops, op.now);
      RunCovered(c, ops, key, from, op.now);
      from := TightLater(c, Run(c, ops), key, from, op.now, now);
    }
  }

  // ---------- main results ----------

  /** Granting `tokens` now would keep the bound on every interval that ends now. */
  ghost predicate Fits(c: Config, log: seq<Grant>, key: string, tokens: int, now: real) {
    forall from :: from <= now ==>
      (Granted(log, key, from, now) + tokens) as real <= c.Burst() as real + c.Rate() * (now - from)
  }

  lemma {:induction false} GrantIsCovered(c: Config, s: State, key: string, tokens: int, from: real, now: real)
    requires from <= now && Covered(c, s, key, from, now) && AllowStep(c, s.buckets, key, tokens, now).1
    ensures (Granted(s.log, key, from, now) + tokens) as real <= c.Burst() as real + c.Rate() * (now - from)
  {
    assert Level(c, s.buckets, key, now) >= tokens as real;
  }

  lemma {:induction false} RefusalIsTight(c: Config, s: State, key: string, tokens: int, from: real, now: real)
    requires Tight(c, s, key, from, now) && !AllowStep(c, s.buckets, key, tokens, now).1
    ensures !Fits(c, s.log, key, tokens, now)
  {
    assert Level(c, s.buckets, key, now) < tokens as real;
    assert (Granted(s.log, key, from, now) + tokens) as real > c.Burst() as real + c.Rate() * (now - from);
  }

  /** The limiter is exact unless it drains: after requests that were not negative,
      any request is granted if and only if granting it keeps burst + rate * (now -
      from) on every interval [from, now] of the full history.  It never refuses what
      the bound allows, nor allows what the bound refuses. */
  lemma {:induction false} AllowIsExact(c: Config, ops: seq<Op>, key: string, tokens: int, now: real)
    requires c.rpm >= 0 && OrderedUpTo(ops, now) && NonNegative(ops)
    ensures AllowStep(c, Run(c, ops).buckets, key, tokens, now).1 <==> Fits(c, Run(c, ops).log, key, tokens, now)
  {
    var s := Run(c, ops);
    if c.Burst() < 0 {
      DebtStaysFull(c, ops, now);
      ExactInDebt(c, s, key, tokens, now);
    } else if AllowStep(c, s.buckets, key, tokens, now).1 {
      forall from | from <= now
        ensures (Granted(s.log, key, from, now) + tokens) as real <= c.Burst() as real + c.Rate() * (now - from)
      {
        RunCovered(c, ops, key, from, now);
        GrantIsCovered(c, s, key, tokens, from, now);
      }
    } else {
      var from := RunTight(c, ops, key, now);
      RefusalIsTight(c, s, key, tokens, from, now);
    }
  }

  /** With a negative burst every bucket stays at the burst and nothing is granted. */
  lemma {:induction false} DebtStaysFull(c: Config, ops: seq<Op>, now: real)
    requires c.rpm >= 0 && c.Burst() < 0 && OrderedUpTo(ops, now) && NonNegative(ops)
    ensures Run(c, ops).log == []
    ensures forall k :: k in Run(c, ops).buckets ==> IsFull(c, Run(c, ops).buckets[k], now)
  {
    if ops != [] {
      var init, op := ops[..|ops| - 1], ops[|ops| - 1];
      DebtStaysFull(c, init, op.now);
      if op.AllowOp? {
        FullStaysFull(c, Current(c, Run(c, init).buckets, op.key, op.now), op.now);
      }
    }
  }

  predicate IsFull(c: Config, b: Bucket, now: real) {
    b.tokens == b.maxTokens == c.Burst() as real && b.perSec == c.Rate() && b.lastRefill <= now
  }

  lemma {:induction false} FullStaysFull(c: Config, b: Bucket, now: real)
    requires c.rpm >= 0 && IsFull(c, b, now)
    ensures Refill(b, now) == b.(lastRefill := now)
  {
    MulNonNegative(now - b.lastRefill, b.perSec);
  }

  lemma {:induction false} ExactInDebt(c: Config, s: State, key: string, tokens: int, now: real)
    requires c.rpm >= 0 && s.log == []
    requires key in s.buckets ==> IsFull(c, s.buckets[key], now)
    ensures AllowStep(c, s.buckets, key, tokens, now).1 <==> Fits(c, s.log, key, tokens, now)
  {
    FullStaysFull(c, Current(c, s.buckets, key, now), now);
    assert AllowStep(c, s.buckets, key, tokens, now).1 <==> tokens <= c.Burst();
    assert forall from :: Granted(s.log, key, from, now) == 0;
    if tokens <= c.Burst() {
      forall from | from <= now
        ensures (Granted(s.log, key, from, now) + tokens) as real <= c.Burst() as real + c.Rate() * (now - from)
      {
        MulNonNegative(c.Rate(), now - from);
      }
    } else {
      assert (Granted(s.log, key, now, now) + tokens) as real > c.Burst() as real + c.Rate() * (now - now);
    }
  }

  /** Both conditions are needed.  A limiter that drains grants its whole burst on
      the first call, which the bound on the preceding second refuses. */
  lemma {:induction false} DrainingIsInexact(c: Config, key: string)
    requires c.rpm < 0
    ensures Run(c, []) == State(map[], [], [])
    ensures AllowStep(c, map[], key, c.Burst(), 0.0).1 && !Fits(c, [], key, c.Burst(), 0.0)
  {
    FirstCallFindsFull(c, map[], key, c.Burst(), 0.0);
    assert (Granted([], key, -1.0, 0.0) + c.Burst()) as real > c.Burst() as real + c.Rate() * (0.0 - -1.0);
  }

  /** And a negative request that is granted overfills its bucket; the next refill
      caps it again, so the limiter refuses what the bound would allow. */
  lemma {:induction false} NegativeRequestIsInexact(c: Config, key: string, tokens: int)
    requires c.rpm >= 0 && tokens < 0 && tokens <= c.Burst()
    ensures var s := Run(c, [AllowOp(key, tokens, 0.0)]);
            && key in s.buckets && s.buckets[key].tokens == (c.Burst() - tokens) as real > s.buckets[key].maxTokens
            && !AllowStep(c, s.buckets, key, c.Burst() - tokens, 0.0).1
            && Fits(c, s.log, key, c.Burst() - tokens, 0.0)
  {
    var op := AllowOp(key, tokens, 0.0);
    assert [op][..0] == [] && Run(c, []) == State(map[], [], []);
    FirstCallFindsFull(c, map[], key, tokens, 0.0);
    var s := Run(c, [op]);
    assert s == Step(c, State(map[], [], []), op);
    assert (0.0 - 0.0) * c.Rate() == 0.0;
    assert s.log == [] + [Grant(key, 0.0, tokens)];
    forall from | from <= 0.0
      ensures (Granted(s.log, key, from, 0.0) + (c.Burst() - tokens)) as real
              <= c.Burst() as real + c.Rate() * (0.0 - from)
    {
      GrantedAppend([], Grant(key, 0.0, tokens), key, from, 0.0);
      MulNonNegative(c.Rate(), 0.0 - from);
    }
  }

  // ---------- what the configured numbers mean ----------

  /** The key's calls all came by `last`. */
  predicate CalledBy(ops: seq<Op>, key: string, last: real) {
    forall i :: 0 <= i < |ops| && ops[i].AllowOp? && ops[i].key == key ==> ops[i].now <= last
  }

  lemma {:induction false} RefilledBy(c: Config, ops: seq<Op>, key: string, last: real)
    requires CalledBy(ops, key, last)
    ensures key in Run(c, ops).buckets ==> Run(c, ops).buckets[key].lastRefill <= last
  {
    if ops != [] {
      var init := ops[..|ops| - 1];
      assert CalledBy(init, key, last) by {
        assert forall i :: 0 <= i < |init| ==> init[i] == ops[i];
      }
      RefilledBy(c, init, key, last);
    }
  }

  /** What `elapsed` seconds earn, by the minute. */
  lemma {:induction false} AccruedByMinute(rpm: real, perSec: real, elapsed: real)
    requires 60.0 * perSec == rpm
    ensures 60.0 * Accrued(elapsed, perSec) == rpm * elapsed
  {
    assert elapsed * (60.0 * perSec) == 60.0 * (elapsed * perSec);
  }

  lemma {:induction false} AccruedSplit(perSec: real, a: real, b: real, c: real)
    ensures Accrued(c - a, perSec) == Accrued(b - a, perSec) + Accrued(c - b, perSec)
  {
    MulSplit(perSec, a, b, c);
  }

  lemma {:induction false} WaitFills(rpm: real, b: Bucket, last: real, now: real, tokens: real)
    requires b.tokens >= 0.0 && 60.0 * b.perSec == rpm >= 0.0 && tokens <= b.maxTokens
    requires b.lastRefill <= last <= now && rpm * (now - last) >= 60.0 * tokens
    ensures Refill(b, now).tokens >= tokens
  {
    var first, second, all := Accrued(last - b.lastRefill, b.perSec), Accrued(now - last, b.perSec),
                              Accrued(now - b.lastRefill, b.perSec);
    assert first >= 0.0 by { AccruedSign(last - b.lastRefill, b.perSec); }
    assert all == first + second by { AccruedSplit(b.perSec, b.lastRefill, last, now); }
    assert 60.0 * second == rpm * (now - last) by { AccruedByMinute(rpm, b.perSec, now - last); }
    RefillTo(b, now, all, tokens);
  }

  lemma {:induction false} RefillTo(b: Bucket, now: real, gain: real, tokens: real)
    requires gain == Accrued(now - b.lastRefill, b.perSec)
    ensures Refill(b, now).tokens >= tokens <==> b.tokens + gain >= tokens && b.maxTokens >= tokens
  {
  }

  lemma {:induction false} DrainedFills(rpm: real, b: Bucket, now: real, tokens: real)
    requires b.tokens == 0.0 && 60.0 * b.perSec == rpm && tokens <= b.maxTokens
    ensures Refill(b, now).tokens >= tokens <==> rpm * (now - b.lastRefill) >= 60.0 * tokens
  {
    var gain := Accrued(now - b.lastRefill, b.perSec);
    assert 60.0 * gain == rpm * (now - b.lastRefill) by { AccruedByMinute(rpm, b.perSec, now - b.lastRefill); }
    RefillTo(b, now, gain, tokens);
  }

  /** The same for a bucket of the limiter. */
  lemma {:induction false} DrainedGrants(c: Config, buckets: Buckets, key: string, tokens: int, now: real)
    requires key in buckets && tokens <= c.Burst()
    requires var b := buckets[key]; b.tokens == 0.0 && b.perSec == c.Rate() && b.maxTokens == c.Burst() as real
    ensures AllowStep(c, buckets, key, tokens, now).1
            <==> c.rpm as real * (now - buckets[key].lastRefill) >= 60.0 * tokens as real
  {
    assert 60.0 * c.Rate() == c.rpm as real;
    DrainedFills(c.rpm as real, buckets[key], now, tokens as real);
  }

  lemma {:induction false} WaitGrants(c: Config, buckets: Buckets, key: string, last: real, now: real, tokens: int)
    requires c.rpm >= 0 && tokens <= c.Burst() && key in buckets && buckets[key].lastRefill <= last <= now
    requires var b := buckets[key]; b.tokens >= 0.0 && b.perSec == c.Rate() && b.maxTokens == c.Burst() as real
    requires c.rpm as real * (now - last) >= 60.0 * tokens as real
    ensures AllowStep(c, buckets, key, tokens, now).1
  {
    assert 60.0 * c.Rate() == c.rpm as real;
    WaitFills(c.rpm as real, buckets[key], last, now, tokens as real);
  }

  /** The lower bound in requests per minute: whatever the history, a request for at
      most the burst is granted once tokens * 60 / rpm seconds have passed since the
      key's last call. */
  lemma {:induction false} GrantedAfterWaiting(c: Config, ops: seq<Op>, key: string, tokens: int, last: real, now: real)
    requires c.rpm >= 0 && tokens <= c.Burst() && c.Burst() >= 0
    requires OrderedUpTo(ops, now) && CalledBy(ops, key, last) && last <= now
    requires c.rpm as real * (now - last) >= 60.0 * tokens as real
    ensures AllowStep(c, Run(c, ops).buckets, key, tokens, now).1
  {
    var buckets := Run(c, ops).buckets;
    if key in buckets {
      StoredAfterAnyRequests(c, ops, now);
      assert OverfilledBy(c, buckets[key], now, LastRequest(ops, key));
      RefilledBy(c, ops, key, last);
      WaitGrants(c, buckets, key, last, now, tokens);
    } else {
      FirstCallFindsFull(c, buckets, key, tokens, now);
    }
  }

  /** The key's bucket is empty, as its last call at `t` left it. */
  predicate DrainedAt(buckets: Buckets, key: string, t: real) {
    && key in buckets && buckets[key].tokens == 0.0 && buckets[key].lastRefill == t
  }

  lemma {:induction false} StoredNumbers(c: Config, ops: seq<Op>, key: string)
    requires key in Run(c, ops).buckets
    ensures var b := Run(c, ops).buckets[key]; b.perSec == c.Rate() && b.maxTokens == c.Burst() as real
  {
    var init := ops[..|ops| - 1];
    if key in Run(c, init).buckets { StoredNumbers(c, init, key); }
  }

  /** And the exact moment: a key drained at `t` is granted a request for at most the
      burst if and only if rpm * (now - t) has reached 60 times its tokens. */
  lemma {:induction false} DrainedKeyRefills(c: Config, ops: seq<Op>, key: string, t: real, tokens: int, now: real)
    requires DrainedAt(Run(c, ops).buckets, key, t) && tokens <= c.Burst()
    ensures AllowStep(c, Run(c, ops).buckets, key, tokens, now).1
            <==> c.rpm as real * (now - t) >= 60.0 * tokens as real
  {
    StoredNumbers(c, ops, key);
    DrainedGrants(c, Run(c, ops).buckets, key, tokens, now);
  }

  lemma {:induction false} LessThanAMinute(rpm: real, elapsed: real)
    requires rpm > 0.0
    ensures rpm * elapsed >= 60.0 * rpm <==> elapsed >= 60.0
  {
    if elapsed >= 60.0 { MulNonNegative(rpm, elapsed - 60.0); }
    assert elapsed < 60.0 ==> rpm * (60.0 - elapsed) > 0.0;
  }

  /** So a drained key gets rpm tokens after exactly a minute, if the burst holds as
      many. */
  lemma {:induction false} DrainedKeyGetsItsMinute(c: Config, ops: seq<Op>, key: string, t: real, now: real)
    requires DrainedAt(Run(c, ops).buckets, key, t) && 1 <= c.rpm <= c.Burst()
    ensures AllowStep(c, Run(c, ops).buckets, key, c.rpm, now).1 <==> now - t >= 60.0
  {
    DrainedKeyRefills(c, ops, key, t, c.rpm, now);
    LessThanAMinute(c.rpm as real, now - t);
  }

  /** What the burst is: a key's first request is granted if and only if it asks for
      at most rpm * multiplier tokens, a negative product being rounded up. */
  lemma {:induction false} FirstCallGetsBurst(c: Config, ops: seq<Op>, key: string, tokens: int, now: real)
    requires forall i :: 0 <= i < |ops| && ops[i].AllowOp? ==> ops[i].key != key
    ensures var product := c.rpm as real * c.burstMultiplier;
            AllowStep(c, Run(c, ops).buckets, key, tokens, now).1
            <==> if product >= 0.0 then tokens as real <= product else tokens as real < product + 1.0
  {
    NeverCalled(c, ops, key);
    FirstCallFindsFull(c, Run(c, ops).buckets, key, tokens, now);
  }

  lemma {:induction false} NeverCalled(c: Config, ops: seq<Op>, key: string)
    requires forall i :: 0 <= i < |ops| && ops[i].AllowOp? ==> ops[i].key != key
    ensures key !in Run(c, ops).buckets
  {
    if ops != [] {
      var init := ops[..|ops| - 1];
      assert forall i :: 0 <= i < |init| ==> init[i] == ops[i];
      NeverCalled(c, init, key);
    }
  }

  /** In requests per minute: no minute sees more than the burst plus rpm. */
  lemma {:induction false} MinuteBound(c: Config, ops: seq<Op>, now: real, key: string, from: real)
    requires Sane(c) && OrderedUpTo(ops, now) && NonNegative(ops)
    ensures Granted(Run(c, ops).log, key, from, from + 60.0) <= c.Burst() + c.rpm
  {
    IntervalBound(c, ops, now, key, from, from + 60.0);
    assert c.Rate() * 60.0 == c.rpm as real;
  }

  /** Between any two times a key is granted at most burst + rate * (to - from),
      across lazy refills, sweeps and re-creations. */
  lemma {:induction false} IntervalBound(c: Config, ops: seq<Op>, now: real, key: string, from: real, to: real)
    requires Sane(c) && OrderedUpTo(ops, now) && NonNegative(ops) && from <= to
    ensures Granted(Run(c, ops).log, key, from, to) as real <= c.Burst() as real + c.Rate() * (to - from)
  {
    if ops == [] || ops[|ops| - 1].now <= to {
      OrderedWiden(ops, now, to);
      RunCovered(c, ops, key, from, to);
      StoredInRange(c, ops, to);
      LevelLater(c, Run(c, ops).buckets, key, to, to);
    } else {
      var init, op := ops[..|ops| - 1], ops[|ops| - 1];
      IntervalBound(c, init, op.now, key, from, to);
      if op.AllowOp? {
        GrantedAppend(Run(c, init).log, Grant(op.key, op.now, op.tokens), key, from, to);
      }
    }
  }

  /** Without a burst no bucket ever holds a token, whatever the rate. */
  lemma {:induction false} NothingWithoutBurst(c: Config, ops: seq<Op>, key: string, from: real, to: real)
    requires c.Burst() <= 0 && NonNegative(ops)
    ensures forall k :: k in Run(c, ops).buckets ==> Run(c, ops).buckets[k].maxTokens == c.Burst() as real
    ensures Granted(Run(c, ops).log, key, from, to) == 0
  {
    if ops != [] {
      var init, op := ops[..|ops| - 1], ops[|ops| - 1];
      NothingWithoutBurst(c, init, key, from, to);
      if op.AllowOp? {
        GrantedAppend(Run(c, init).log, Grant(op.key, op.now, op.tokens), key, from, to);
      }
    }
  }

  /** For every configuration but a burst that drains, a key is granted at most
      max(0, burst + rate * (to - from)). */
  lemma {:induction false} BoundUnlessDraining(c: Config, ops: seq<Op>, now: real, key: string, from: real, to: real)
    requires c.rpm >= 0 || c.Burst() <= 0
    requires OrderedUpTo(ops, now) && NonNegative(ops) && from <= to
    ensures Granted(Run(c, ops).log, key, from, to) as real <= Max(0.0, c.Burst() as real + c.Rate() * (to - from))
  {
    if c.Burst() <= 0 {
      NothingWithoutBurst(c, ops, key, from, to);
    } else {
      IntervalBound(c, ops, now, key, from, to);
    }
  }

  /** And not for those: the whole burst is granted at once, and the bound has
      fallen to zero by the time the burst would have drained. */
  lemma {:induction false} DrainingBreaksBound(c: Config, key: string) returns (op: Op, to: real)
    requires c.rpm < 0 && c.Burst() > 0
    ensures OrderedUpTo([op], to) && NonNegative([op]) && op.now <= to
    ensures Granted(Run(c, [op]).log, key, op.now, to) as real > Max(0.0, c.Burst() as real + c.Rate() * (to - op.now))
  {
    op := AllowOp(key, c.Burst(), 0.0);
    var drain := -c.Rate();
    to := c.Burst() as real / drain;
    assert c.Rate() * to == -(c.Burst() as real);
    assert OrderedUpTo([], 0.0);
    assert [op][..0] == [] && Run(c, []) == State(map[], [], []);
    FirstCallFindsFull(c, map[], key, c.Burst(), 0.0);
    assert Run(c, [op]).log == [] + [Grant(key, 0.0, c.Burst())];
    GrantedAppend([], Grant(key, 0.0, c.Burst()), key, 0.0, to);
  }

  lemma {:induction false} OrderedWiden(ops: seq<Op>, now: real, to: real)
    requires OrderedUpTo(ops, now) && (ops == [] || ops[|ops| - 1].now <= to)
    ensures OrderedUpTo(ops, to)
  {
  }

  /** The swept run holds the same buckets as the unswept one, except that some
      full, idle buckets are missing from it. */
  predicate Matches(c: Config, swept: Buckets, full: Buckets, now: real) {
    && (forall key :: key in swept ==> key in full && swept[key] == full[key])
    && (forall key :: key in full ==>
          full[key].maxTokens == c.Burst() as real && full[key].perSec == c.Rate() && full[key].lastRefill <= now)
    && (forall key :: key in full && key !in swept ==> full[key].tokens >= full[key].maxTokens)
  }

  lemma {:induction false} AllowMatches(c: Config, swept: Buckets, full: Buckets, key: string, tokens: int, now: real)
    requires c.rpm >= 0 && Matches(c, swept, full, now)
    ensures AllowStep(c, swept, key, tokens, now).1 == AllowStep(c, full, key, tokens, now).1
    ensures Matches(c, AllowStep(c, swept, key, tokens, now).0, AllowStep(c, full, key, tokens, now).0, now)
  {
    if key in full && key !in swept {
      MulNonNegative(now - full[key].lastRefill, full[key].perSec);
    }
    assert Refill(Current(c, swept, key, now), now) == Refill(Current(c, full, key, now), now);
  }

  /** With a rate that is not negative, erasing the sweeps changes no answer:
      a dropped bucket would have refilled to full anyway. */
  lemma {:induction false} SweepsUnobservable(c: Config, ops: seq<Op>, now: real)
    requires c.rpm >= 0 && OrderedUpTo(ops, now)
    ensures Run(c, ops).answers == Run(c, Unswept(ops)).answers
    ensures Matches(c, Run(c, ops).buckets, Run(c, Unswept(ops)).buckets, now)
  {
    if ops != [] {
      var init, op := ops[..|ops| - 1], ops[|ops| - 1];
      SweepsUnobservable(c, init, op.now);
      if op.AllowOp? {
        assert (Unswept(init) + [op])[..|Unswept(init)|] == Unswept(init);
        AllowMatches(c, Run(c, init).buckets, Run(c, Unswept(init)).buckets, op.key, op.tokens, op.now);
      }
    }
  }

  /** The condition is exact: with a negative rate a sweep turns a refusal into
      a grant. */
  lemma {:induction false} SweepsObservableWhenDraining(c: Config, key: string) returns (ops: seq<Op>)
    requires c.rpm < 0
    ensures OrderedUpTo(ops, 601.0)
    ensures Run(c, ops).answers != Run(c, Unswept(ops)).answers
  {
    var first, sweep, last := AllowOp(key, c.Burst() + 1, 0.0), SweepOp(601.0), AllowOp(key, c.Burst(), 601.0);
    ops := [first, sweep, last];
    assert OrderedUpTo([], 0.0) && OrderedUpTo([first], 601.0);
    assert [first, sweep][..1] == [first] && ops[..2] == [first, sweep];
    RunThree(c, first, sweep, last);
    var s1 := Step(c, State(map[], [], []), first);
    FirstCallFindsFull(c, map[], key, c.Burst() + 1, 0.0);
    FirstCallFindsFull(c, Step(c, s1, sweep).buckets, key, c.Burst(), 601.0);
    DrainedRefuses(c, s1.buckets, key);
    var k := |s1.answers|;
    assert Run(c, ops).answers[k] && !Run(c, Unswept(ops)).answers[k];
  }

  lemma {:induction false} RunThree(c: Config, first: Op, sweep: Op, last: Op)
    requires first.AllowOp? && sweep.SweepOp? && last.AllowOp?
    ensures var s1 := Step(c, State(map[], [], []), first);
            && Run(c, [first, sweep, last]) == Step(c, Step(c, s1, sweep), last)
            && Run(c, Unswept([first, sweep, last])) == Step(c, s1, last)
  {
    assert [first][..0] == [] && [first, sweep][..1] == [first] && [first, last][..1] == [first];
    assert [first, sweep, last][..2] == [first, sweep];
    assert Unswept([]) == [] && Unswept([first]) == [first] && Unswept([first, sweep]) == [first];
    assert Run(c, []) == State(map[], [], []);
    assert Run(c, [first]) == Step(c, Run(c, []), first);
    assert Run(c, [first, sweep]) == Step(c, Run(c, [first]), sweep);
  }

  lemma {:induction false} FirstCallFindsFull(c: Config, buckets: Buckets, key: string, tokens: int, now: real)
    requires key !in buckets
    ensures AllowStep(c, buckets, key, tokens, now).1 <==> c.Burst() >= tokens
    ensures c.Burst() < tokens ==> AllowStep(c, buckets, key, tokens, now).0 == buckets[key := NewBucket(c, now)]
  {
  }

  lemma {:induction false} DrainedRefuses(c: Config, buckets: Buckets, key: string)
    requires c.rpm < 0 && key in buckets && buckets[key] == NewBucket(c, 0.0)
    ensures !AllowStep(c, buckets, key, c.Burst(), 601.0).1
  {
    assert 601.0 * c.Rate() < 0.0;
  }

  // ---------- what GetLimit shows ----------

  lemma {:induction false} NonNegativeUnswept(ops: seq<Op>, now: real)
    requires NonNegative(ops) && OrderedUpTo(ops, now)
    ensures NonNegative(Unswept(ops)) && OrderedUpTo(Unswept(ops), now)
  {
    if ops != [] {
      var init, op := ops[..|ops| - 1], ops[|ops| - 1];
      NonNegativeUnswept(init, op.now);
      if op.AllowOp? {
        assert (Unswept(init) + [op])[..|Unswept(init)|] == Unswept(init);
      } else if Unswept(init) != [] {
        OrderedWiden(Unswept(init), op.now, now);
      }
    }
  }

  /** GetLimit does notice sweeps, unless the burst is zero: with no burst every
      stored level is zero, which is also what a missing bucket reports. */
  lemma {:induction false} GetLimitBlindWithoutBurst(c: Config, ops: seq<Op>, now: real, key: string)
    requires Sane(c) && OrderedUpTo(ops, now) && NonNegative(ops) && c.Burst() == 0
    ensures Remaining(Run(c, ops).buckets, key) == Remaining(Run(c, Unswept(ops)).buckets, key)
  {
    NonNegativeUnswept(ops, now);
    StoredInRange(c, ops, now);
    StoredInRange(c, Unswept(ops), now);
  }

  lemma {:induction false} GetLimitSeesSweep(c: Config, key: string) returns (ops: seq<Op>)
    requires Sane(c) && c.Burst() > 0
    ensures OrderedUpTo(ops, 601.0) && NonNegative(ops)
    ensures Remaining(Run(c, ops).buckets, key) == 0
    ensures Remaining(Run(c, Unswept(ops)).buckets, key) == c.Burst()
  {
    var first, sweep := AllowOp(key, 0, 0.0), SweepOp(601.0);
    ops := [first, sweep];
    assert ops[..1] == [first] && [first][..0] == [];
    assert OrderedUpTo([], 0.0) && OrderedUpTo([first], 601.0);
    assert Unswept([]) == [] && Unswept([first]) == [first] && Unswept(ops) == [first];
    var full := Bucket(c.Burst() as real, c.Burst() as real, c.Rate(), 0.0);
    assert Run(c, []) == State(map[], [], []);
    assert Run(c, [first]).buckets == map[key := full];
    assert Run(c, ops).buckets == map[];
  }

  // ---------- the limiter itself ----------

  class TokenBucketLimiter {
    const config: Config
    var buckets: Buckets

    constructor (rpm: int, tpm: int, burstMultiplier: real)
      ensures config == Config(rpm, tpm, burstMultiplier) && buckets == map[]
    {
      config := Config(rpm, tpm, burstMultiplier);
      buckets := map[];
    }

    method AllowToken(key: string, tokens: int, now: real) returns (ok: bool)
      modifies this
      ensures (buckets, ok) == AllowStep(config, old(buckets), key, tokens, now)
    {
      if key !in buckets {
        buckets := buckets[key := NewBucket(config, now)];
      }
      var bucket := RefillBucket(buckets[key], now);
      ok := bucket.tokens >= tokens as real;
      if ok {
        bucket := bucket.(tokens := bucket.tokens - tokens as real);
      }
      buckets := buckets[key := bucket];
      assert buckets == old(buckets)[key := bucket];
    }

    method RefillBucket(bucket: Bucket, now: real) returns (b: Bucket)
      ensures b == Refill(bucket, now)
    {
      b := bucket.(tokens := bucket.tokens + (now - bucket.lastRefill) * bucket.perSec);
      if b.tokens > b.maxTokens {
        b := b.(tokens := b.maxTokens);
      }
      b := b.(lastRefill := now);
    }

    method GetLimit(key: string) returns (limit: Limit)
      ensures limit.rpm == config.rpm && limit.tpm == config.tpm
      ensures limit.remaining == Remaining(buckets, key)
      ensures limit.burst == if key in buckets then Trunc(buckets[key].maxTokens) else config.Burst()
      ensures limit.resetAt == if key in buckets then Some(buckets[key].lastRefill + 60.0) else None
    {
      if key !in buckets {
        return Limit(config.rpm, config.tpm, Trunc(config.rpm as real * config.burstMultiplier), 0, None);
      }
      var bucket := buckets[key];
      return Limit(config.rpm, config.tpm, Trunc(bucket.maxTokens), Trunc(bucket.tokens),
                   Some(bucket.lastRefill + 60.0));
    }

    /** One tick of the background sweeper; keys come in no particular order. */
    method Cleanup(now: real)
      modifies this
      ensures buckets == SweepStep(old(buckets), now)
      ensures forall k :: k in old(buckets) ==>
                            var b := old(buckets)[k];
                            (k !in buckets <==> b.tokens >= b.maxTokens && now - b.lastRefill > 600.0)
    {
      var todo := buckets.Keys;
      while todo != {}
        invariant todo <= buckets.Keys <= old(buckets).Keys
        invariant forall k :: k in buckets ==> buckets[k] == old(buckets)[k]
        invariant forall k :: k in old(buckets).Keys - todo ==> (k in buckets <==> !Drops(old(buckets)[k], now))
      {
        var key :| key in todo;
        todo := todo - {key};
        var bucket := buckets[key];
        if bucket.tokens >= bucket.maxTokens && now - bucket.lastRefill > IDLE_SECONDS {
          buckets := buckets - {key};
        }
      }
    }
  }
}
