/** The gateway's sliding-window limiter: per-key lists of admission times that
    Allow prunes lazily and a background sweeper prunes or drops.  The theorems
    compare this pruned state with the full, never pruned admission history. */
module SlidingWindow {

  datatype Config = Config(windowSize: int, maxRequests: int)

  type Windows = map<string, seq<int>>

  // ---------- one call ----------

  /** The timestamps strictly after the cutoff, in order. */
  function Live(times: seq<int>, cutoff: int): seq<int> {
    if times == [] then []
    else
      var last := times[|times| - 1];
      var rest := Live(times[..|times| - 1], cutoff);
      if last > cutoff then rest + [last] else rest
  }

  function Stored(windows: Windows, key: string): seq<int> {
    if key in windows then windows[key] else []
  }

  function AllowStep(c: Config, windows: Windows, key: string, now: int): (Windows, bool) {
    var valid := Live(Stored(windows, key), now - c.windowSize);
    if |valid| >= c.maxRequests then (windows[key := valid], false)
    else (windows[key := valid + [now]], true)
  }

  /** What GetLimit reports as Remaining: an absent key shows the raw limit, a
      present one is clamped at zero. */
  function Remaining(c: Config, windows: Windows, key: string, now: int): int {
    if key !in windows then c.maxRequests
    else
      var left := c.maxRequests - |Live(windows[key], now - c.windowSize)|;
      if left < 0 then 0 else left
  }

  /** The fields that GetLimit fills in. */
  datatype Limit = Limit(rpm: int, remaining: int, resetAt: int)

  /** The sweeper deletes a window only if it is non-empty, everything in it is
      older than two window sizes, and its newest entry is too. */
  predicate Drops(c: Config, times: seq<int>, now: int) {
    Live(times, now - 2 * c.windowSize) == [] && times != [] && now - times[|times| - 1] > 2 * c.windowSize
  }

  function SweepStep(c: Config, windows: Windows, now: int): Windows {
    map key | key in windows && !Drops(c, windows[key], now) :: Live(windows[key], now - 2 * c.windowSize)
  }

  // ---------- whole runs ----------

  datatype Op = AllowOp(key: string, now: int) | SweepOp(now: int)

  datatype Admission = Admission(key: string, time: int)

  /** The limiter's state, with the history that no operation ever prunes. */
  datatype State = State(windows: Windows, log: seq<Admission>, answers: seq<bool>)

  function Step(c: Config, s: State, op: Op): State {
    match op
    case AllowOp(key, now) =>
      var (windows, ok) := AllowStep(c, s.windows, key, now);
      State(windows, if ok then s.log + [Admission(key, now)] else s.log, s.answers + [ok])
    case SweepOp(now) =>
      s.(windows := SweepStep(c, s.windows, now))
  }

  function Run(c: Config, ops: seq<Op>): State {
    if ops == [] then State(map[], [], [])
    else Step(c, Run(c, ops[..|ops| - 1]), ops[|ops| - 1])
  }

  /** The clock never goes back, and the last call is no later than `now`. */
  predicate OrderedUpTo(ops: seq<Op>, now: int) {
    ops == [] || (ops[|ops| - 1].now <= now && OrderedUpTo(ops[..|ops| - 1], ops[|ops| - 1].now))
  }

  /** Admissions of `key` in the half-open interval (lo, hi], over the full history. */
  function CountIn(log: seq<Admission>, key: string, lo: int, hi: int): nat {
    if log == [] then 0
    else
      var e := log[|log| - 1];
      CountIn(log[..|log| - 1], key, lo, hi) + if e.key == key && lo < e.time <= hi then 1 else 0
  }

  function KeyTimes(log: seq<Admission>, key: string): seq<int> {
    if log == [] then []
    else
      var e := log[|log| - 1];
      var rest := KeyTimes(log[..|log| - 1], key);
      if e.key == key then rest + [e.time] else rest
  }

  /** The same run with every sweep taken out. */
  function Unswept(ops: seq<Op>): seq<Op> {
    if ops == [] then []
    else
      var rest := Unswept(ops[..|ops| - 1]);
      if ops[|ops| - 1].SweepOp? then rest else rest + [ops[|ops| - 1]]
  }

  predicate Called(ops: seq<Op>, key: string) {
    exists i :: 0 <= i < |ops| && ops[i].AllowOp? && ops[i].key == key
  }

  // ---------- pruning commutes with looking ----------

  function Max(a: int, b: int): int { if a < b then b else a }

  lemma {:induction false} LiveAppend(times: seq<int>, t: int, cutoff: int)
    ensures Live(times + [t], cutoff) == if t > cutoff then Live(times, cutoff) + [t] else Live(times, cutoff)
  {
    assert (times + [t])[..|times|] == times;
  }

  lemma {:induction false} LiveTwice(times: seq<int>, a: int, b: int)
    ensures Live(Live(times, a), b) == Live(times, Max(a, b))
  {
    if times != [] {
      var init, last := times[..|times| - 1], times[|times| - 1];
      LiveTwice(init, a, b);
      if last > a {
        LiveAppend(Live(init, a), last, b);
      }
    }
  }

  lemma {:induction false} LiveIsCount(log: seq<Admission>, key: string, lo: int, now: int)
    requires forall e :: e in log ==> e.time <= now
    ensures |Live(KeyTimes(log, key), lo)| == CountIn(log, key, lo, now)
  {
    if log != [] {
      var init, e := log[..|log| - 1], log[|log| - 1];
      LiveIsCount(init, key, lo, now);
      if e.key == key {
        LiveAppend(KeyTimes(init, key), e.time, lo);
      }
    }
  }

  // ---------- the pruned state agrees with the history ----------

  predicate Agrees(c: Config, s: State, key: string, now: int) {
    Live(Stored(s.windows, key), now - c.windowSize) == Live(KeyTimes(s.log, key), now - c.windowSize)
  }

  predicate NoneAfter(log: seq<Admission>, now: int) {
    forall e :: e in log ==> e.time <= now
  }

  lemma {:induction false} AgreesLater(c: Config, s: State, key: string, earlier: int, now: int)
    requires Agrees(c, s, key, earlier) && earlier <= now
    ensures Agrees(c, s, key, now)
  {
    var (a, b) := (earlier - c.windowSize, now - c.windowSize);
    LiveTwice(Stored(s.windows, key), a, b);
    LiveTwice(KeyTimes(s.log, key), a, b);
  }

  lemma {:induction false} PrunedAgrees(stored: seq<int>, times: seq<int>, cut: int, now: int)
    requires Live(stored, cut) == Live(times, cut)
    ensures Live(Live(stored, cut), cut) == Live(times, cut)
    ensures Live(Live(stored, cut) + [now], cut) == Live(times + [now], cut)
  {
    LiveTwice(stored, cut, cut);
    LiveAppend(Live(stored, cut), now, cut);
    LiveAppend(times, now, cut);
  }

  lemma {:induction false} SweptAgrees(stored: seq<int>, log: seq<Admission>, key: string, window: int, now: int)
    requires Live(stored, now - window) == Live(KeyTimes(log, key), now - window) && NoneAfter(log, now)
    ensures Live(Live(stored, now - 2 * window), now - window) == Live(KeyTimes(log, key), now - window)
  {
    var cut, far := now - window, now - 2 * window;
    LiveTwice(stored, far, cut);
    if cut < far {
      LiveTwice(stored, cut, far);
      LiveIsCount(log, key, cut, now);
      NothingAhead(log, key, cut, now);
    }
  }

  lemma {:induction false} KeyTimesAppend(log: seq<Admission>, e: Admission, key: string)
    ensures KeyTimes(log + [e], key) == if e.key == key then KeyTimes(log, key) + [e.time] else KeyTimes(log, key)
  {
    assert (log + [e])[..|log|] == log;
  }

  lemma {:induction false} CountInAppend(log: seq<Admission>, e: Admission, key: string, lo: int, hi: int)
    ensures CountIn(log + [e], key, lo, hi) ==
            CountIn(log, key, lo, hi) + if e.key == key && lo < e.time <= hi then 1 else 0
  {
    assert (log + [e])[..|log|] == log;
  }

  lemma {:induction false} AllowAgrees(c: Config, s: State, k: string, now: int, key: string)
    requires Agrees(c, s, key, now) && NoneAfter(s.log, now)
    ensures Agrees(c, Step(c, s, AllowOp(k, now)), key, now) && NoneAfter(Step(c, s, AllowOp(k, now)).log, now)
  {
    var cut := now - c.windowSize;
    KeyTimesAppend(s.log, Admission(k, now), key);
    StoredAfterAllow(c, s.windows, k, now, key);
    if k == key {
      PrunedAgrees(Stored(s.windows, key), KeyTimes(s.log, key), cut, now);
    }
  }

  lemma {:induction false} StoredAfterAllow(c: Config, windows: Windows, k: string, now: int, key: string)
    ensures var (windows', ok) := AllowStep(c, windows, k, now);
            var valid := Live(Stored(windows, key), now - c.windowSize);
            Stored(windows', key) == if k != key then Stored(windows, key) else if ok then valid + [now] else valid
  {
  }

  lemma {:induction false} SweepAgrees(c: Config, s: State, now: int, key: string)
    requires Agrees(c, s, key, now) && NoneAfter(s.log, now)
    ensures Agrees(c, Step(c, s, SweepOp(now)), key, now) && NoneAfter(Step(c, s, SweepOp(now)).log, now)
  {
    var stored := Stored(s.windows, key);
    SweptAgrees(stored, s.log, key, c.windowSize, now);
    assert Stored(SweepStep(c, s.windows, now), key) == Live(stored, now - 2 * c.windowSize);
  }

  lemma {:induction false} StepAgrees(c: Config, s: State, op: Op, key: string)
    requires Agrees(c, s, key, op.now) && NoneAfter(s.log, op.now)
    ensures Agrees(c, Step(c, s, op), key, op.now) && NoneAfter(Step(c, s, op).log, op.now)
  {
    match op
    case AllowOp(k, now) => AllowAgrees(c, s, k, now, key);
    case SweepOp(now) => SweepAgrees(c, s, now, key);
  }

  lemma {:induction false} NothingAhead(log: seq<Admission>, key: string, lo: int, hi: int)
    requires hi <= lo
    ensures CountIn(log, key, lo, hi) == 0
  {
    if log != [] { NothingAhead(log[..|log| - 1], key, lo, hi); }
  }

  lemma {:induction false} RunAgrees(c: Config, ops: seq<Op>, key: string, now: int)
    requires OrderedUpTo(ops, now)
    ensures Agrees(c, Run(c, ops), key, now) && NoneAfter(Run(c, ops).log, now)
  {
    if ops != [] {
      var init, op := ops[..|ops| - 1], ops[|ops| - 1];
      RunAgrees(c, init, key, op.now);
      StepAgrees(c, Run(c, init), op, key);
      AgreesLater(c, Run(c, ops), key, op.now, now);
    }
  }

  // ---------- main results ----------

  lemma {:induction false} StateIsExact(c: Config, s: State, key: string, now: int)
    requires Agrees(c, s, key, now) && NoneAfter(s.log, now)
    ensures AllowStep(c, s.windows, key, now).1 <==> CountIn(s.log, key, now - c.windowSize, now) < c.maxRequests
  {
    LiveIsCount(s.log, key, now - c.windowSize, now);
  }

  /** Allow answers yes exactly when the full history holds fewer than
      maxRequests admissions of the key in (now - window, now]. */
  lemma {:induction false} AllowIsExact(c: Config, ops: seq<Op>, key: string, now: int)
    requires OrderedUpTo(ops, now)
    ensures AllowStep(c, Run(c, ops).windows, key, now).1
            <==> CountIn(Run(c, ops).log, key, now - c.windowSize, now) < c.maxRequests
  {
    RunAgrees(c, ops, key, now);
    StateIsExact(c, Run(c, ops), key, now);
  }

  lemma {:induction false} CountShrinks(log: seq<Admission>, key: string, lo: int, hi: int, lo': int, hi': int)
    requires lo <= lo' && NoneAfter(log, hi)
    ensures CountIn(log, key, lo', hi') <= CountIn(log, key, lo, hi)
  {
    if log != [] { CountShrinks(log[..|log| - 1], key, lo, hi, lo', hi'); }
  }

  lemma {:induction false} StepWithinLimit(c: Config, s: State, op: Op, key: string, t: int)
    requires Agrees(c, s, key, op.now) && NoneAfter(s.log, op.now)
    requires CountIn(s.log, key, t - c.windowSize, t) <= Max(0, c.maxRequests)
    ensures CountIn(Step(c, s, op).log, key, t - c.windowSize, t) <= Max(0, c.maxRequests)
  {
    if op.AllowOp? && op.key == key {
      CountInAppend(s.log, Admission(op.key, op.now), key, t - c.windowSize, t);
      if op.now <= t {
        StateIsExact(c, s, key, op.now);
        CountShrinks(s.log, key, op.now - c.windowSize, op.now, t - c.windowSize, t);
      }
    } else if op.AllowOp? {
      CountInAppend(s.log, Admission(op.key, op.now), key, t - c.windowSize, t);
    }
  }

  /** No interval (t - window, t] ever holds more than the limit, for any key,
      any t, and sweeps at any moments. */
  lemma {:induction false} WindowNeverExceeded(c: Config, ops: seq<Op>, now: int, key: string, t: int)
    requires OrderedUpTo(ops, now)
    ensures CountIn(Run(c, ops).log, key, t - c.windowSize, t) <= Max(0, c.maxRequests)
  {
    if ops != [] {
      var init, op := ops[..|ops| - 1], ops[|ops| - 1];
      WindowNeverExceeded(c, init, op.now, key, t);
      RunAgrees(c, init, key, op.now);
      StepWithinLimit(c, Run(c, init), op, key, t);
    }
  }

  lemma {:induction false} UnsweptOrdered(ops: seq<Op>, now: int)
    requires OrderedUpTo(ops, now)
    ensures OrderedUpTo(Unswept(ops), now)
  {
    if ops != [] {
      var init, op := ops[..|ops| - 1], ops[|ops| - 1];
      UnsweptOrdered(init, op.now);
      assert (Unswept(init) + [op])[..|Unswept(init)|] == Unswept(init);
      if op.SweepOp? { OrderedWeaken(Unswept(init), op.now, now); }
    }
  }

  lemma {:induction false} OrderedWeaken(ops: seq<Op>, earlier: int, now: int)
    requires OrderedUpTo(ops, earlier) && earlier <= now
    ensures OrderedUpTo(ops, now)
  {
  }

  lemma {:induction false} RunSnoc(c: Config, ops: seq<Op>, op: Op)
    ensures Run(c, ops + [op]) == Step(c, Run(c, ops), op)
  {
    assert (ops + [op])[..|ops|] == ops;
  }

  /** Two limiters with one history give one answer, whatever they have pruned. */
  lemma {:induction false} SameHistorySameAnswer(c: Config, s: State, t: State, op: Op)
    requires op.AllowOp? && s.log == t.log && s.answers == t.answers && NoneAfter(s.log, op.now)
    requires Agrees(c, s, op.key, op.now) && Agrees(c, t, op.key, op.now)
    ensures Step(c, s, op).log == Step(c, t, op).log && Step(c, s, op).answers == Step(c, t, op).answers
  {
    StateIsExact(c, s, op.key, op.now);
    StateIsExact(c, t, op.key, op.now);
  }

  /** Sweeping is unobservable: with the sweeps erased, every answer and every
      admission stays the same. */
  lemma {:induction false} SweepsUnobservable(c: Config, ops: seq<Op>, now: int)
    requires OrderedUpTo(ops, now)
    ensures Run(c, ops).answers == Run(c, Unswept(ops)).answers
    ensures Run(c, ops).log == Run(c, Unswept(ops)).log
  {
    if ops != [] {
      var init, op := ops[..|ops| - 1], ops[|ops| - 1];
      SweepsUnobservable(c, init, op.now);
      if op.AllowOp? {
        UnsweptOrdered(init, op.now);
        RunAgrees(c, init, op.key, op.now);
        RunAgrees(c, Unswept(init), op.key, op.now);
        RunSnoc(c, Unswept(init), op);
        SameHistorySameAnswer(c, Run(c, init), Run(c, Unswept(init)), op);
      }
    }
  }

  /** With a negative limit nothing is stored, so nothing is ever dropped. */
  lemma {:induction false} NegativeLimitWindows(c: Config, ops: seq<Op>, key: string)
    requires c.maxRequests < 0
    ensures key in Run(c, ops).windows <==> Called(ops, key)
    ensures Stored(Run(c, ops).windows, key) == []
  {
    if ops != [] {
      var init, op := ops[..|ops| - 1], ops[|ops| - 1];
      NegativeLimitWindows(c, init, key);
      if Called(init, key) {
        var i :| 0 <= i < |init| && init[i].AllowOp? && init[i].key == key;
        assert ops[i] == init[i];
      }
      if op.AllowOp? && op.key == key {
        assert ops[|ops| - 1].AllowOp?;
      }
      if Called(ops, key) && !(op.AllowOp? && op.key == key) {
        var i :| 0 <= i < |ops| && ops[i].AllowOp? && ops[i].key == key;
        assert init[i] == ops[i];
      }
    }
  }

  lemma {:induction false} StateRemaining(c: Config, s: State, key: string, now: int)
    requires Agrees(c, s, key, now) && NoneAfter(s.log, now) && c.maxRequests >= 0
    requires CountIn(s.log, key, now - c.windowSize, now) <= c.maxRequests
    ensures Remaining(c, s.windows, key, now) == c.maxRequests - CountIn(s.log, key, now - c.windowSize, now)
  {
    LiveIsCount(s.log, key, now - c.windowSize, now);
  }

  /** GetLimit's Remaining is the limit minus the history count; only a negative
      limit behaves otherwise, showing 0 once the key has been tried. */
  lemma {:induction false} RemainingIsExact(c: Config, ops: seq<Op>, key: string, now: int)
    requires OrderedUpTo(ops, now)
    ensures Remaining(c, Run(c, ops).windows, key, now) ==
            if c.maxRequests >= 0 then c.maxRequests - CountIn(Run(c, ops).log, key, now - c.windowSize, now)
            else if Called(ops, key) then 0 else c.maxRequests
  {
    if c.maxRequests >= 0 {
      RunAgrees(c, ops, key, now);
      WindowNeverExceeded(c, ops, now, key, now);
      StateRemaining(c, Run(c, ops), key, now);
    } else {
      NegativeLimitWindows(c, ops, key);
    }
  }

  /** What a sweep reclaims: a key goes exactly if it has admissions, all of them at
      least two windows old and the newest older; the rest keep what is younger. */
  lemma {:induction false} SweepReclaims(c: Config, windows: Windows, now: int, key: string)
    requires key in windows
    ensures var times, cutoff := windows[key], now - 2 * c.windowSize;
            var swept := SweepStep(c, windows, now);
            && (key !in swept <==>
                times != [] && (forall t :: t in times ==> t <= cutoff) && times[|times| - 1] < cutoff)
            && (key in swept ==> forall t :: t in swept[key] <==> t in times && t > cutoff)
  {
    LiveMembers(windows[key], now - 2 * c.windowSize);
  }

  // ---------- the limiter itself ----------

  class SlidingWindowLimiter {
    const config: Config
    var windows: Windows

    constructor (windowSize: int, maxRequests: int)
      ensures config == Config(windowSize, maxRequests) && windows == map[]
    {
      config := Config(windowSize, maxRequests);
      windows := map[];
    }

    method Allow(key: string, now: int) returns (ok: bool)
      modifies this
      ensures (windows, ok) == AllowStep(config, old(windows), key, now)
    {
      if key !in windows {
        windows := windows[key := []];
      }
      var requests := windows[key];
      var valid := Prune(requests, now - config.windowSize);
      windows := windows[key := valid];
      assert windows == old(windows)[key := valid];
      if |valid| >= config.maxRequests {
        return false;
      }
      windows := windows[key := valid + [now]];
      assert windows == old(windows)[key := valid + [now]];
      return true;
    }

    /** The clock is read for the count and again for the reset time. */
    method GetLimit(key: string, now: int, later: int) returns (limit: Limit)
      ensures limit == Limit(config.maxRequests, Remaining(config, windows, key, now), later + config.windowSize)
    {
      var remaining := config.maxRequests;
      if key in windows {
        var requests, count := windows[key], 0;
        for i := 0 to |requests|
          invariant count == |Live(requests[..i], now - config.windowSize)|
        {
          assert requests[..i + 1] == requests[..i] + [requests[i]];
          LiveAppend(requests[..i], requests[i], now - config.windowSize);
          if requests[i] > now - config.windowSize {
            count := count + 1;
          }
        }
        assert requests[..|requests|] == requests;
        remaining := config.maxRequests - count;
        if remaining < 0 {
          remaining := 0;
        }
      }
      limit := Limit(config.maxRequests, remaining, later + config.windowSize);
    }

    /** One tick of the background sweeper; keys come in no particular order. */
    method Cleanup(now: int)
      modifies this
      ensures windows == SweepStep(config, old(windows), now)
    {
      var todo := windows.Keys;
      while todo != {}
        invariant todo <= windows.Keys <= old(windows).Keys
        invariant forall k :: k in todo ==> windows[k] == old(windows)[k]
        invariant forall k :: k in old(windows).Keys - todo ==>
                                (k in windows <==> !Drops(config, old(windows)[k], now))
        invariant forall k :: k in windows.Keys - todo ==>
                                windows[k] == Live(old(windows)[k], now - 2 * config.windowSize)
      {
        var key :| key in todo;
        todo := todo - {key};
        var requests := windows[key];
        var valid := Prune(requests, now - 2 * config.windowSize);
        if |valid| == 0 && |requests| > 0 && now - requests[|requests| - 1] > 2 * config.windowSize {
          windows := windows - {key};
        } else {
          windows := windows[key := valid];
        }
      }
    }
  }

  lemma {:induction false} LiveMembers(times: seq<int>, cutoff: int)
    ensures forall t :: t in Live(times, cutoff) <==> t in times && t > cutoff
    ensures Live(times, cutoff) == [] <==> forall t :: t in times ==> t <= cutoff
  {
    if times != [] {
      LiveMembers(times[..|times| - 1], cutoff);
      assert times == times[..|times| - 1] + [times[|times| - 1]];
      assert times[|times| - 1] in times;
    }
  }

  method Prune(requests: seq<int>, cutoff: int) returns (valid: seq<int>)
    ensures valid == Live(requests, cutoff)
    ensures forall t :: t in valid <==> t in requests && t > cutoff
  {
    LiveMembers(requests, cutoff);
    valid := [];
    for i := 0 to |requests|
      invariant valid == Live(requests[..i], cutoff)
    {
      assert requests[..i + 1] == requests[..i] + [requests[i]];
      LiveAppend(requests[..i], requests[i], cutoff);
      if requests[i] > cutoff {
        valid := valid + [requests[i]];
      }
    }
    assert requests[..|requests|] == requests;
  }
}
