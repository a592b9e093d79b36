/** The exponential backoff shared by the outbox. */
module Backoff {

  const MAX_BACKOFF := 60

  function Pow2(n: nat): nat {
    if n == 0 then 1 else 2 * Pow2(n - 1)
  }

  function AtLeastOne(n: int): nat { if n < 1 then 1 else n }

  /** min(60, 2^(max(n,1)-1)) */
  function Delay(retryCount: int): nat {
    var p := Pow2(AtLeastOne(retryCount) - 1);
    if p < MAX_BACKOFF then p else MAX_BACKOFF
  }

  lemma {:induction false} Pow2Monotone(a: nat, b: nat)
    requires a <= b
    ensures 1 <= Pow2(a) <= Pow2(b)
    decreases b
  {
    if a < b { Pow2Monotone(a, b - 1); }
    else if a > 0 { Pow2Monotone(a - 1, b - 1); }
  }

  /** The delay never shrinks as the count grows, and stays in [1, 60]. */
  lemma {:induction false} DelayMonotone(a: int, b: int)
    requires a <= b
    ensures 1 <= Delay(a) <= Delay(b) <= 60
  {
    Pow2Monotone(AtLeastOne(a) - 1, AtLeastOne(b) - 1);
  }

  /** The delays themselves. */
  lemma {:induction false} DelayTable(n: int)
    ensures Delay(n) == if n <= 1 then 1 else if n == 2 then 2 else if n == 3 then 4 else if n == 4 then 8
                        else if n == 5 then 16 else if n == 6 then 32 else 60
  {
    assert Pow2(0) == 1 && Pow2(1) == 2 && Pow2(2) == 4 && Pow2(3) == 8;
    assert Pow2(4) == 2 * Pow2(3) && Pow2(5) == 2 * Pow2(4) && Pow2(6) == 2 * Pow2(5);
    if n >= 7 { Pow2Monotone(6, n - 1); }
  }

  /** The doubling loop, which stops early once doubling would pass the maximum,
      computes the closed form for every count. */
  method CalculateOutboxBackoff(retryCount: int, maxRetries: int) returns (backoff: nat)
    ensures backoff == Delay(retryCount)
    ensures 1 <= backoff <= 60 && (retryCount <= 1 ==> backoff == 1) && (retryCount >= 7 ==> backoff == 60)
    ensures 2 <= retryCount <= 6 ==> backoff == [2, 4, 8, 16, 32][retryCount - 2]
  {
    DelayTable(retryCount);
    var count := if retryCount <= 0 then 1 else retryCount;
    backoff := 1;
    var attempt := 1;
    while attempt < count
      invariant 1 <= attempt <= count
      invariant backoff == Pow2(attempt - 1) <= MAX_BACKOFF
    {
      if backoff >= MAX_BACKOFF || backoff > MAX_BACKOFF / 2 {
        Pow2Monotone(attempt, count - 1);
        return MAX_BACKOFF;
      }
      backoff := backoff * 2;
      attempt := attempt + 1;
    }
  }
}

/** The outbox table, its runners and their whole runs.  `persists` says whether
    MarkFailed writes the incremented retry count back: the processor relies on
    it, the repository's UPDATE statement does not do it. */
module Outbox {
  import opened Common
  import opened Backoff

  datatype Status = Pending | Processing | Completed | Failed

  datatype Row = Row(status: Status, retryCount: int, maxRetries: int, nextRetryAt: Option<int>)

  datatype Stat = Success | Retry | DeadLetter | Failure

  /** What the environment does to one event: does the broker accept it, and does
      the following store call succeed. */
  datatype Outcome = Outcome(published: bool, stored: bool)

  datatype Attempt = Attempt(id: string, time: int, ok: bool)

  /** `claimed` are the events some runner holds; `lost` (a history variable) are
      those whose store call failed, leaving the row in processing; `created` and
      `attempts` are history variables too. */
  datatype State = State(
    now: int, rows: map<string, Row>, dead: set<string>, claimed: set<string>,
    lost: set<string>, created: map<string, Row>, attempts: seq<Attempt>)

  // ---------- the store's statements ----------

  predicate IsDue(row: Row, now: int) {
    (row.status.Pending? || row.status.Failed?) && (row.nextRetryAt.None? || row.nextRetryAt.value <= now)
  }

  function Claim(rows: map<string, Row>, ids: set<string>): map<string, Row> {
    map id | id in rows :: if id in ids then rows[id].(status := Processing) else rows[id]
  }

  /** The row after a failed publish whose store call succeeds; None: dead-lettered. */
  function AfterFailure(persists: bool, row: Row, now: int): Option<Row> {
    var count := row.retryCount + 1;
    if count >= row.maxRetries then None
    else Some(Row(Failed, if persists then count else row.retryCount, row.maxRetries, Some(now + Delay(count))))
  }

  /** The row after one event has been handled; None: moved to the dead letters. */
  function AfterAttempt(persists: bool, row: Row, o: Outcome, now: int): Option<Row> {
    if !o.stored then Some(row)
    else if o.published then Some(row.(status := Completed))
    else AfterFailure(persists, row, now)
  }

  function StatOf(row: Row, o: Outcome): Stat {
    if !o.stored then Failure
    else if o.published then Success
    else if row.retryCount + 1 >= row.maxRetries then DeadLetter
    else Retry
  }

  // ---------- runs: any number of runners, interleaved ----------

  datatype Op =
    | CreateOp(id: string, retryCount: int, maxRetries: int, now: int)
    | ClaimOp(ids: set<string>, now: int)
    | HandleOp(id: string, outcome: Outcome, now: int)

  predicate Enabled(s: State, op: Op) {
    && s.now <= op.now
    && match op
       case CreateOp(id, _, _, _) => id !in s.created
       case ClaimOp(ids, now) => ids <= s.rows.Keys && forall id :: id in ids ==> IsDue(s.rows[id], now)
       case HandleOp(id, _, _) => id in s.claimed && id in s.rows
  }

  function Handle(persists: bool, s: State, id: string, o: Outcome, now: int): State
    requires id in s.rows
  {
    var row := AfterAttempt(persists, s.rows[id], o, now);
    s.(now := now,
       rows := if row.Some? then s.rows[id := row.value] else s.rows - {id},
       dead := if row.Some? then s.dead else s.dead + {id},
       claimed := s.claimed - {id},
       lost := if o.stored then s.lost else s.lost + {id},
       attempts := s.attempts + [Attempt(id, now, o.published)])
  }

  function Step(persists: bool, s: State, op: Op): State
    requires Enabled(s, op)
  {
    match op
    case CreateOp(id, retryCount, maxRetries, now) =>
      var row := Row(Pending, retryCount, maxRetries, None);
      s.(now := now, rows := s.rows[id := row], created := s.created[id := row])
    case ClaimOp(ids, now) => s.(now := now, rows := Claim(s.rows, ids), claimed := s.claimed + ids)
    case HandleOp(id, o, now) => Handle(persists, s, id, o, now)
  }

  function Run(persists: bool, now: int, ops: seq<Op>): Option<State> {
    if ops == [] then Some(State(now, map[], {}, {}, {}, map[], []))
    else
      var s := Run(persists, now, ops[..|ops| - 1]);
      if s.Some? && Enabled(s.value, ops[|ops| - 1]) then Some(Step(persists, s.value, ops[|ops| - 1])) else None
  }

  // ---------- what the history says about one event ----------

  function Failures(attempts: seq<Attempt>, id: string): nat {
    if attempts == [] then 0
    else
      var a := attempts[|attempts| - 1];
      Failures(attempts[..|attempts| - 1], id) + if a.id == id && !a.ok then 1 else 0
  }

  function Successes(attempts: seq<Attempt>, id: string): nat {
    if attempts == [] then 0
    else
      var a := attempts[|attempts| - 1];
      Successes(attempts[..|attempts| - 1], id) + if a.id == id && a.ok then 1 else 0
  }

  /** Time of the first and of the last attempt. */
  function Span(attempts: seq<Attempt>, id: string): Option<(int, int)> {
    if attempts == [] then None
    else
      var a, rest := attempts[|attempts| - 1], Span(attempts[..|attempts| - 1], id);
      if a.id != id then rest
      else if rest.None? then Some((a.time, a.time))
      else Some((rest.value.0, a.time))
  }

  /** The least time n attempts must spread over, starting from count r0. */
  function Waited(persists: bool, r0: int, n: nat): nat {
    if n <= 1 then 0 else Waited(persists, r0, n - 1) + Delay(if persists then r0 + n - 1 else r0 + 1)
  }

  // ---------- the invariant, for one event ----------

  predicate IsOpen(s: State, id: string) {
    id in s.rows && (s.rows[id].status.Pending? || s.rows[id].status.Failed? || id in s.claimed)
  }

  predicate CountOk(persists: bool, row0: Row, row: Row, failures: nat) {
    && row.maxRetries == row0.maxRetries
    && row.retryCount == (if persists then row0.retryCount + failures else row0.retryCount)
    && (failures > 0 ==> row0.retryCount + (if persists then failures else 1) < row0.maxRetries)
  }

  predicate WaitOk(persists: bool, row0: Row, failures: nat, successes: nat, span: Option<(int, int)>, now: int) {
    if failures + successes == 0 then span.None?
    else span.Some? && span.value.1 <= now
         && span.value.1 - span.value.0 >= Waited(persists, row0.retryCount, failures + successes)
  }

  /** The row of an event that can still be attempted. */
  predicate OpenOk(persists: bool, row0: Row, row: Row, failures: nat, successes: nat, span: Option<(int, int)>,
                   claimed: bool, now: int)
  {
    && CountOk(persists, row0, row, failures)
    && successes == 0
    && (failures == 0 ==> row.nextRetryAt.None?)
    && (failures > 0 && span.Some? ==>
          && row.nextRetryAt ==
             Some(span.value.1 + Delay(if persists then row0.retryCount + failures else row0.retryCount + 1))
          && (claimed ==> row.nextRetryAt.value <= now))
  }

  predicate BudgetOk(persists: bool, row0: Row, failures: nat, successes: nat) {
    persists ==> failures + successes <= AtLeastOne(row0.maxRetries - row0.retryCount)
  }

  predicate EventOk(persists: bool, s: State, id: string) {
    var f, g, span := Failures(s.attempts, id), Successes(s.attempts, id), Span(s.attempts, id);
    if id !in s.created then
      id !in s.rows && id !in s.dead && id !in s.claimed && f == 0 && g == 0 && span.None?
    else
      var row0 := s.created[id];
      && (id in s.rows <==> id !in s.dead)
      && (id in s.claimed ==> id in s.rows && s.rows[id].status.Processing?)
      && g <= 1
      && WaitOk(persists, row0, f, g, span, s.now)
      && BudgetOk(persists, row0, f, g)
      && (id in s.dead ==> g == 0 && f >= AtLeastOne(row0.maxRetries - row0.retryCount))
      && (id in s.rows && s.rows[id].status.Completed? ==> g >= 1)
      && (id in s.rows && s.rows[id].status.Processing? ==> id in s.claimed || id in s.lost)
      && (IsOpen(s, id) ==> OpenOk(persists, row0, s.rows[id], f, g, span, id in s.claimed, s.now))
  }

  lemma {:induction false} HistoryAppend(attempts: seq<Attempt>, a: Attempt, id: string)
    ensures Failures(attempts + [a], id) == Failures(attempts, id) + if a.id == id && !a.ok then 1 else 0
    ensures Successes(attempts + [a], id) == Successes(attempts, id) + if a.id == id && a.ok then 1 else 0
    ensures Span(attempts + [a], id) ==
            if a.id != id then Span(attempts, id)
            else if Span(attempts, id).None? then Some((a.time, a.time))
            else Some((Span(attempts, id).value.0, a.time))
  {
    assert (attempts + [a])[..|attempts|] == attempts;
  }

  lemma {:induction false} WaitGrows(persists: bool, row0: Row, row: Row, f: nat, span: Option<(int, int)>,
                                     earlier: int, now: int)
    requires WaitOk(persists, row0, f, 0, span, earlier) && earlier <= now
    requires OpenOk(persists, row0, row, f, 0, span, true, earlier)
    ensures WaitOk(persists, row0, f + 1, 0, if span.None? then Some((now, now)) else Some((span.value.0, now)), now)
    ensures WaitOk(persists, row0, f, 1, if span.None? then Some((now, now)) else Some((span.value.0, now)), now)
  {
  }

  lemma {:induction false} HandleOk(persists: bool, s: State, id: string, o: Outcome, now: int)
    requires EventOk(persists, s, id) && id in s.claimed && id in s.rows && s.now <= now
    ensures EventOk(persists, Handle(persists, s, id, o, now), id)
  {
    HistoryAppend(s.attempts, Attempt(id, now, o.published), id);
    WaitGrows(persists, s.created[id], s.rows[id], Failures(s.attempts, id), Span(s.attempts, id), s.now, now);
  }

  lemma {:induction false} HandleOther(persists: bool, s: State, k: string, o: Outcome, now: int, id: string)
    requires EventOk(persists, s, id) && k in s.rows && s.now <= now && k != id
    ensures EventOk(persists, Handle(persists, s, k, o, now), id)
  {
    HistoryAppend(s.attempts, Attempt(k, now, o.published), id);
  }

  lemma {:induction false} StepOk(persists: bool, s: State, op: Op, id: string)
    requires EventOk(persists, s, id) && Enabled(s, op)
    ensures EventOk(persists, Step(persists, s, op), id)
  {
    match op
    case CreateOp(k, retryCount, maxRetries, now) =>
    case ClaimOp(ids, now) =>
    case HandleOp(k, o, now) =>
      if k == id {
        HandleOk(persists, s, id, o, now);
      } else {
        HandleOther(persists, s, k, o, now, id);
      }
  }

  lemma {:induction false} RunOk(persists: bool, now: int, ops: seq<Op>, id: string)
    requires Run(persists, now, ops).Some?
    ensures EventOk(persists, Run(persists, now, ops).value, id)
  {
    if ops != [] {
      var init := ops[..|ops| - 1];
      RunOk(persists, now, init, id);
      StepOk(persists, Run(persists, now, init).value, ops[|ops| - 1], id);
    }
  }

  // ---------- main results ----------

  /** No event is accepted twice.  A completed one was accepted exactly once; a
      dead-lettered one never was, and failed at least max(1, max_retries - initial
      retry_count) times. */
  lemma {:induction false} TerminalEventsEarnedIt(persists: bool, now: int, ops: seq<Op>, id: string)
    requires Run(persists, now, ops).Some?
    ensures var s := Run(persists, now, ops).value;
            && Successes(s.attempts, id) <= 1
            && (id in s.rows && s.rows[id].status.Completed? ==> Successes(s.attempts, id) == 1)
            && (id in s.dead ==>
                  && id in s.created && Successes(s.attempts, id) == 0
                  && Failures(s.attempts, id) >= AtLeastOne(s.created[id].maxRetries - s.created[id].retryCount))
  {
    RunOk(persists, now, ops, id);
  }

  /** With a persisted count, max_retries - retry_count is a retry budget: no event
      is attempted more than max(1, budget) times, and unless a store call failed
      it is completed or dead-lettered once that many attempts were made. */
  lemma {:induction false} RetriesTerminate(now: int, ops: seq<Op>, id: string)
    requires Run(true, now, ops).Some? && id in Run(true, now, ops).value.created
    ensures var s := Run(true, now, ops).value;
            var n, budget := Failures(s.attempts, id) + Successes(s.attempts, id),
                             AtLeastOne(s.created[id].maxRetries - s.created[id].retryCount);
            && n <= budget
            && (n == budget && id !in s.lost ==> id in s.dead || (id in s.rows && s.rows[id].status.Completed?))
            && (n < budget && id !in s.lost ==> IsOpen(s, id) || (id in s.rows && s.rows[id].status.Completed?))
  {
    RunOk(true, now, ops, id);
  }

  lemma {:induction false} NextAttemptWaits(persists: bool, s: State, id: string, now: int)
    requires EventOk(persists, s, id) && id in s.claimed && s.now <= now && Span(s.attempts, id).Some?
    ensures id in s.created
    ensures now - Span(s.attempts, id).value.1
            >= NextDelay(persists, s.created[id].retryCount, Failures(s.attempts, id))
  {
  }

  /** The delay owed after `failures` failed attempts of an event created with
      count r0. */
  function NextDelay(persists: bool, r0: int, failures: nat): nat {
    Delay(if persists then r0 + failures else r0 + 1)
  }

  /** Successive attempts are spaced: in every run, each attempt of an event comes
      at least the backoff delay after the previous attempt of the same event. */
  lemma {:induction false} AttemptsAreSpaced(persists: bool, now: int, ops: seq<Op>, j: nat)
    requires Run(persists, now, ops).Some? && j < |Run(persists, now, ops).value.attempts|
    requires var s := Run(persists, now, ops).value; Span(s.attempts[..j], s.attempts[j].id).Some?
    ensures var s := Run(persists, now, ops).value;
            var a, earlier := s.attempts[j], s.attempts[..j];
            && a.id in s.created
            && a.time - Span(earlier, a.id).value.1
               >= NextDelay(persists, s.created[a.id].retryCount, Failures(earlier, a.id))
  {
    var init, op := ops[..|ops| - 1], ops[|ops| - 1];
    var s, s' := Run(persists, now, init).value, Run(persists, now, ops).value;
    if j < |s.attempts| {
      assert s'.attempts[..j] == s.attempts[..j];
      AttemptsAreSpaced(persists, now, init, j);
    } else {
      assert s'.attempts[..j] == s.attempts;
      RunOk(persists, now, init, op.id);
      NextAttemptWaits(persists, s, op.id, op.now);
    }
  }

  /** And it waits no longer: in every run, an event that has failed and is waiting
      can be claimed exactly from that delay after its last attempt on. */
  lemma {:induction false} DueExactlyAfterDelay(persists: bool, now: int, ops: seq<Op>, id: string, t: int)
    requires Run(persists, now, ops).Some? && id in Run(persists, now, ops).value.rows
    requires var s := Run(persists, now, ops).value;
             (s.rows[id].status.Pending? || s.rows[id].status.Failed?) && s.now <= t
    ensures var s := Run(persists, now, ops).value;
            && id in s.created
            && (Failures(s.attempts, id) == 0 ==> Enabled(s, ClaimOp({id}, t)))
            && (Failures(s.attempts, id) > 0 ==>
                  && Span(s.attempts, id).Some?
                  && (Enabled(s, ClaimOp({id}, t)) <==>
                      t >= Span(s.attempts, id).value.1
                           + NextDelay(persists, s.created[id].retryCount, Failures(s.attempts, id))))
  {
    RunOk(persists, now, ops, id);
    var s := Run(persists, now, ops).value;
    assert Enabled(s, ClaimOp({id}, t)) <==> IsDue(s.rows[id], t);
  }

  /** Hence the first and the last of n attempts are at least the sum of the
      delays apart. */
  lemma {:induction false} AttemptsSpanTheSum(persists: bool, now: int, ops: seq<Op>, id: string)
    requires Run(persists, now, ops).Some? && id in Run(persists, now, ops).value.created
    ensures var s := Run(persists, now, ops).value;
            var n := Failures(s.attempts, id) + Successes(s.attempts, id);
            n >= 1 ==>
              && Span(s.attempts, id).Some?
              && Span(s.attempts, id).value.1 - Span(s.attempts, id).value.0
                 >= Waited(persists, s.created[id].retryCount, n)
  {
    RunOk(persists, now, ops, id);
  }

  /** ... and that sum is at most a minute per retry. */
  lemma {:induction false} WaitedAtMost(persists: bool, r0: int, n: nat)
    ensures n >= 1 ==> n - 1 <= Waited(persists, r0, n) <= 60 * (n - 1)
  {
    if n > 1 {
      WaitedAtMost(persists, r0, n - 1);
      var count := if persists then r0 + n - 1 else r0 + 1;
      DelayMonotone(count, count);
    }
  }

  /** The repository's MarkFailed leaves retry_count alone, so an event dead-letters
      on a failed publish exactly if it was created with at most one retry left. */
  lemma {:induction false} RepositoryDeadLettersIff(now: int, ops: seq<Op>, id: string, at: int)
    requires Run(false, now, ops).Some?
    requires var s := Run(false, now, ops).value; id in s.created && Enabled(s, HandleOp(id, Outcome(false, true), at))
    ensures var s := Run(false, now, ops).value;
            id in Step(false, s, HandleOp(id, Outcome(false, true), at)).dead
            <==> s.created[id].retryCount + 1 >= s.created[id].maxRetries
  {
    RunOk(false, now, ops, id);
  }

  lemma {:induction false} RunSnoc(persists: bool, now: int, ops: seq<Op>, op: Op)
    requires Run(persists, now, ops).Some? && Enabled(Run(persists, now, ops).value, op)
    ensures Run(persists, now, ops + [op]) == Some(Step(persists, Run(persists, now, ops).value, op))
  {
    assert (ops + [op])[..|ops|] == ops;
  }

  /** An event with more than one retry left that is never accepted is retried
      for ever: for every n there is a run in which it failed n times, every
      store call succeeded, and it is neither completed nor dead-lettered. */
  lemma {:induction false} RepositoryRetriesForever(id: string, r0: int, maxRetries: int, n: nat) returns (ops: seq<Op>)
    requires r0 + 1 < maxRetries
    ensures Run(false, 0, ops).Some?
    ensures var s := Run(false, 0, ops).value;
            && Failures(s.attempts, id) == n && id !in s.lost && id !in s.dead
            && id in s.rows && (s.rows[id].status.Pending? || s.rows[id].status.Failed?)
            && s.rows[id].retryCount == r0 && s.rows[id].maxRetries == maxRetries
  {
    if n == 0 {
      RunSnoc(false, 0, [], CreateOp(id, r0, maxRetries, 0));
      ops := [] + [CreateOp(id, r0, maxRetries, 0)];
    } else {
      ops := RepositoryRetriesForever(id, r0, maxRetries, n - 1);
      var s := Run(false, 0, ops).value;
      var next := s.rows[id].nextRetryAt;
      var at := if next.Some? && next.value > s.now then next.value else s.now;
      RunSnoc(false, 0, ops, ClaimOp({id}, at));
      ops := ops + [ClaimOp({id}, at)];
      RunSnoc(false, 0, ops, HandleOp(id, Outcome(false, true), at));
      HistoryAppend(s.attempts, Attempt(id, at, false), id);
      ops := ops + [HandleOp(id, Outcome(false, true), at)];
    }
  }

  // ---------- one process() call ----------

  function Batch(ids: seq<string>): set<string> { set id | id in ids }

  function HandleAll(persists: bool, s: State, ids: seq<string>, outcomes: seq<Outcome>, now: int): State
    requires |ids| == |outcomes|
  {
    if ids == [] then s
    else
      var s', k := HandleAll(persists, s, ids[..|ids| - 1], outcomes[..|ids| - 1], now), |ids| - 1;
      if ids[k] in s'.rows then Handle(persists, s', ids[k], outcomes[k], now) else s'
  }

  /** One statistic per fetched event, in order. */
  function StatsOf(rows: map<string, Row>, ids: seq<string>, outcomes: seq<Outcome>): (stats: seq<Stat>)
    requires |ids| == |outcomes| && forall i :: 0 <= i < |ids| ==> ids[i] in rows
    ensures |stats| == |ids|
  {
    seq(|ids|, i requires 0 <= i < |ids| => StatOf(rows[ids[i]], outcomes[i]))
  }

  lemma {:induction false} BatchSnoc(persists: bool, s: State, ids: seq<string>, outcomes: seq<Outcome>, now: int,
                                     i: nat)
    requires |ids| == |outcomes| && i < |ids| && forall j :: 0 <= j < |ids| ==> ids[j] in s.rows
    ensures var s' := HandleAll(persists, s, ids[..i], outcomes[..i], now);
            HandleAll(persists, s, ids[..i + 1], outcomes[..i + 1], now) ==
            if ids[i] in s'.rows then Handle(persists, s', ids[i], outcomes[i], now) else s'
    ensures StatsOf(s.rows, ids[..i + 1], outcomes[..i + 1]) ==
            StatsOf(s.rows, ids[..i], outcomes[..i]) + [StatOf(s.rows[ids[i]], outcomes[i])]
  {
    assert ids[..i + 1][..i] == ids[..i] && outcomes[..i + 1][..i] == outcomes[..i];
  }

  function HandleOps(ids: seq<string>, outcomes: seq<Outcome>, now: int): seq<Op>
    requires |ids| == |outcomes|
  {
    seq(|ids|, i requires 0 <= i < |ids| => HandleOp(ids[i], outcomes[i], now))
  }

  lemma {:induction false} BatchTouchesOnlyIts(persists: bool, s: State, ids: seq<string>, outcomes: seq<Outcome>,
                                               now: int, id: string)
    requires |ids| == |outcomes| && id !in ids && s.now <= now
    ensures var s' := HandleAll(persists, s, ids, outcomes, now);
            s'.now <= now && (id in s'.rows <==> id in s.rows) && (id in s'.claimed <==> id in s.claimed)
  {
    if ids != [] {
      var k := |ids| - 1;
      assert ids[k] != id;
      BatchTouchesOnlyIts(persists, s, ids[..k], outcomes[..k], now, id);
    }
  }

  /** A claimed batch handled in order is a run of single steps, so everything
      proved about runs holds of process() calls. */
  lemma {:induction false} BatchIsRun(persists: bool, t0: int, ops: seq<Op>, s: State, ids: seq<string>,
                                      outcomes: seq<Outcome>, now: int)
    requires Run(persists, t0, ops) == Some(s) && s.now <= now
    requires |ids| == |outcomes| && Distinct(ids)
    requires forall i :: 0 <= i < |ids| ==> ids[i] in s.claimed && ids[i] in s.rows
    ensures Run(persists, t0, ops + HandleOps(ids, outcomes, now)) == Some(HandleAll(persists, s, ids, outcomes, now))
  {
    if ids == [] {
      assert ops + HandleOps(ids, outcomes, now) == ops;
    } else {
      var k := |ids| - 1;
      var init, last := ops + HandleOps(ids[..k], outcomes[..k], now), HandleOp(ids[k], outcomes[k], now);
      BatchIsRun(persists, t0, ops, s, ids[..k], outcomes[..k], now);
      BatchTouchesOnlyIts(persists, s, ids[..k], outcomes[..k], now, ids[k]);
      RunSnoc(persists, t0, init, last);
      assert ops + HandleOps(ids, outcomes, now) == init + [last];
    }
  }

  /** What FetchAndLock does: its statement fails, or reading the claimed rows
      fails after the statement took effect, or neither. */
  datatype Fetch = Fetched | StatementFailed | ScanFailed

  class OutboxProcessorRunner {
    const persists: bool
    var rows: map<string, Row>
    var dead: set<string>
    var stats: seq<Stat>
    ghost var clock: int
    ghost var claimed: set<string>
    ghost var lost: set<string>
    ghost var created: map<string, Row>
    ghost var attempts: seq<Attempt>

    ghost function Value(): State
      reads this
    {
      State(clock, rows, dead, claimed, lost, created, attempts)
    }

    constructor (persists: bool, now: int)
      ensures this.persists == persists && stats == []
      ensures Run(persists, now, []) == Some(Value())
    {
      this.persists := persists;
      rows, dead, stats := map[], {}, [];
      clock, claimed, lost, created, attempts := now, {}, {}, map[], [];
    }

    /** handleFailure, then the bookkeeping of the attempt. */
    method HandleFailure(id: string, stored: bool, now: int)
      requires id in rows
      modifies this
      ensures Value() == Handle(persists, old(Value()), id, Outcome(false, stored), now)
      ensures stats == old(stats) + [StatOf(old(rows)[id], Outcome(false, stored))]
    {
      var event := rows[id];
      event := event.(retryCount := event.retryCount + 1);
      if event.retryCount >= event.maxRetries {
        if !stored {
          stats := stats + [Failure];
        } else {
          rows, dead := rows - {id}, dead + {id};
          stats := stats + [DeadLetter];
        }
      } else {
        var backoff := CalculateOutboxBackoff(event.retryCount, event.maxRetries);
        if !stored {
          stats := stats + [Failure];
        } else {
          var kept := if persists then event.retryCount else rows[id].retryCount;
          rows := rows[id := Row(Failed, kept, event.maxRetries, Some(now + backoff))];
          stats := stats + [Retry];
        }
      }
      clock, claimed, attempts := now, claimed - {id}, attempts + [Attempt(id, now, false)];
      lost := if stored then lost else lost + {id};
      assert !stored ==> rows == old(rows)[id := old(rows)[id]];
    }

    /** The body of the batch loop. */
    method HandleEvent(id: string, o: Outcome, now: int)
      requires id in rows
      modifies this
      ensures Value() == Handle(persists, old(Value()), id, o, now)
      ensures stats == old(stats) + [StatOf(old(rows)[id], o)]
      ensures !o.stored ==> stats == old(stats) + [Failure] && rows == old(rows) && dead == old(dead)
      ensures o.stored && o.published ==>
                stats == old(stats) + [Success] && rows == old(rows)[id := old(rows)[id].(status := Completed)]
      ensures o.stored && !o.published && old(rows)[id].retryCount + 1 >= old(rows)[id].maxRetries ==>
                stats == old(stats) + [DeadLetter] && rows == old(rows) - {id} && dead == old(dead) + {id}
      ensures o.stored && !o.published && old(rows)[id].retryCount + 1 < old(rows)[id].maxRetries ==>
                && stats == old(stats) + [Retry] && dead == old(dead)
                && id in rows && rows[id].status.Failed?
                && rows[id].nextRetryAt == Some(now + Delay(old(rows)[id].retryCount + 1))
    {
      if !o.published {
        HandleFailure(id, o.stored, now);
        return;
      }
      if !o.stored {
        stats := stats + [Failure];
      } else {
        rows := rows[id := rows[id].(status := Completed)];
        stats := stats + [Success];
      }
      clock, claimed, attempts := now, claimed - {id}, attempts + [Attempt(id, now, true)];
      lost := if o.stored then lost else lost + {id};
      assert !o.stored ==> rows == old(rows)[id := old(rows)[id]];
    }

    /** The loop over a claimed batch. */
    method HandleBatch(ids: seq<string>, outcomes: seq<Outcome>, now: int)
      requires |ids| == |outcomes| && Distinct(ids) && forall i :: 0 <= i < |ids| ==> ids[i] in rows
      modifies this
      ensures Value() == HandleAll(persists, old(Value()), ids, outcomes, now)
      ensures stats == old(stats) + StatsOf(old(rows), ids, outcomes)
    {
      ghost var start, before := Value(), stats;
      var i := 0;
      while i < |ids|
        invariant 0 <= i <= |ids|
        invariant Value() == HandleAll(persists, start, ids[..i], outcomes[..i], now)
        invariant forall j :: i <= j < |ids| ==> ids[j] in rows && rows[ids[j]] == start.rows[ids[j]]
        invariant stats == before + StatsOf(start.rows, ids[..i], outcomes[..i])
      {
        HandleEvent(ids[i], outcomes[i], now);
        BatchSnoc(persists, start, ids, outcomes, now, i);
        i := i + 1;
      }
      assert ids[..|ids|] == ids && outcomes[..|ids|] == outcomes;
    }

    /** One pass: claim the batch, publish each event, record one statistic for
        each.  Without a broker, or if the fetch statement fails, nothing happens;
        if reading its result fails, the batch stays claimed and unhandled. */
    method Process(brokerAvailable: bool, fetch: Fetch, ids: seq<string>, outcomes: seq<Outcome>, now: int)
      returns (ok: bool)
      requires |ids| == |outcomes| && Distinct(ids)
      requires Enabled(Value(), ClaimOp(Batch(ids), now))
      modifies this
      ensures ok == (brokerAvailable && fetch.Fetched?)
      ensures !brokerAvailable || fetch.StatementFailed? ==> unchanged(this)
      ensures brokerAvailable && fetch.ScanFailed? ==>
                Value() == Step(persists, old(Value()), ClaimOp(Batch(ids), now)) && stats == old(stats)
      ensures ok ==>
                var claimedState := Step(persists, old(Value()), ClaimOp(Batch(ids), now));
                Value() == HandleAll(persists, claimedState, ids, outcomes, now)
      ensures ok ==> stats == old(stats) + StatsOf(Claim(old(rows), Batch(ids)), ids, outcomes)
    {
      if !brokerAvailable || fetch.StatementFailed? {
        return false;
      }
      rows := Claim(rows, Batch(ids));
      clock, claimed := now, claimed + Batch(ids);
      if fetch.ScanFailed? {
        return false;
      }
      HandleBatch(ids, outcomes, now);
      return true;
    }
  }
}
