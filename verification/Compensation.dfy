/** Batch compensation: failed items are executed again by batch passes and by a
    background worker, and escalate to a human after too many retries.
    `persists` says whether the retry count is written back: the processor counts
    on it, no statement of the SQL store does it. */
module Compensation {
  import opened Common

  datatype Status = Pending | Retrying | Resolved | ManualRequired | Abandoned

  datatype Row = Row(batch: string, status: Status, retryCount: int, maxRetries: int)

  /** Does the executor succeed, and does the following store call. */
  datatype Outcome = Outcome(executed: bool, stored: bool)

  datatype Kind = Skipped | Succeeded | Retried | Escalated | StoreFailed

  predicate IsOpen(row: Row) { row.status.Pending? || row.status.Retrying? }

  function KindOf(row: Row, o: Outcome): Kind {
    if !IsOpen(row) then Skipped
    else if !o.stored then StoreFailed
    else Verdict(row, o.executed)
  }

  /** What a pass decides to write. */
  function Verdict(row: Row, executed: bool): Kind {
    if executed then Succeeded
    else if row.retryCount + 1 >= row.maxRetries then Escalated
    else Retried
  }

  function AfterItem(persists: bool, row: Row, o: Outcome): Row {
    match KindOf(row, o)
    case Skipped => row
    case StoreFailed => row
    case Succeeded => row.(status := Resolved)
    case Escalated => row.(status := ManualRequired)
    case Retried => row.(status := Retrying, retryCount := if persists then row.retryCount + 1 else row.retryCount)
  }

  // ---------- whole runs ----------

  /** One item of a pass, batch or worker; passes are sequences of these.
      `lost`, `created` and `attempts` are history: items whose store call failed,
      rows as inserted, and every Execute call. */
  datatype Op = InsertOp(id: int, row: Row) | ItemOp(id: int, outcome: Outcome)

  datatype State = State(rows: map<int, Row>, created: map<int, Row>, lost: set<int>, attempts: seq<int>)

  /** An insert names a fresh id and leaves the status pending. */
  predicate Enabled(s: State, op: Op) {
    match op
    case InsertOp(id, row) => id !in s.created && row.status.Pending?
    case ItemOp(id, _) => id in s.rows
  }

  function Item(persists: bool, s: State, id: int, o: Outcome): State
    requires id in s.rows
  {
    s.(rows := s.rows[id := AfterItem(persists, s.rows[id], o)],
       lost := if KindOf(s.rows[id], o).StoreFailed? then s.lost + {id} else s.lost,
       attempts := if IsOpen(s.rows[id]) then s.attempts + [id] else s.attempts)
  }

  function Step(persists: bool, s: State, op: Op): State
    requires Enabled(s, op)
  {
    match op
    case InsertOp(id, row) => s.(rows := s.rows[id := row], created := s.created[id := row])
    case ItemOp(id, o) => Item(persists, s, id, o)
  }

  function Run(persists: bool, ops: seq<Op>): Option<State> {
    if ops == [] then Some(State(map[], map[], {}, []))
    else
      var s := Run(persists, ops[..|ops| - 1]);
      if s.Some? && Enabled(s.value, ops[|ops| - 1]) then Some(Step(persists, s.value, ops[|ops| - 1])) else None
  }

  function Attempts(attempts: seq<int>, id: int): nat {
    if attempts == [] then 0
    else Attempts(attempts[..|attempts| - 1], id) + if attempts[|attempts| - 1] == id then 1 else 0
  }

  lemma {:induction false} AttemptsAppend(attempts: seq<int>, a: int, id: int)
    ensures Attempts(attempts + [a], id) == Attempts(attempts, id) + if a == id then 1 else 0
  {
    assert (attempts + [a])[..|attempts|] == attempts;
  }

  function Budget(row0: Row): nat {
    if row0.maxRetries - row0.retryCount < 1 then 1 else row0.maxRetries - row0.retryCount
  }

  /** What the history says about one row after n attempts; `lost` if a store call
      for it has failed. */
  predicate Tracked(persists: bool, row0: Row, row: Row, n: nat, lost: bool) {
    && row.maxRetries == row0.maxRetries && row.batch == row0.batch
    && (!persists ==> row.retryCount == row0.retryCount)
    && (row.status.ManualRequired? && !persists ==> row0.retryCount + 1 >= row0.maxRetries)
    && (persists && !lost ==>
          && n <= Budget(row0)
          && (row.status.ManualRequired? ==> n == Budget(row0))
          && (IsOpen(row) ==>
                row.retryCount == row0.retryCount + n && (n > 0 ==> row0.retryCount + n < row0.maxRetries)))
  }

  predicate RowOk(persists: bool, s: State, id: int) {
    var n := Attempts(s.attempts, id);
    if id !in s.created then id !in s.rows && n == 0
    else id in s.rows && Tracked(persists, s.created[id], s.rows[id], n, id in s.lost)
  }

  lemma {:induction false} ItemTracked(persists: bool, row0: Row, row: Row, n: nat, lost: bool, o: Outcome)
    requires Tracked(persists, row0, row, n, lost)
    ensures Tracked(persists, row0, AfterItem(persists, row, o), n + if IsOpen(row) then 1 else 0,
                    lost || KindOf(row, o).StoreFailed?)
  {
  }

  lemma {:induction false} StepOk(persists: bool, s: State, op: Op, id: int)
    requires RowOk(persists, s, id) && Enabled(s, op)
    ensures RowOk(persists, Step(persists, s, op), id)
  {
    if op.ItemOp? {
      AttemptsAppend(s.attempts, op.id, id);
      if op.id == id {
        ItemTracked(persists, s.created[id], s.rows[id], Attempts(s.attempts, id), id in s.lost, op.outcome);
      }
    }
  }

  lemma {:induction false} RunOk(persists: bool, ops: seq<Op>, id: int)
    requires Run(persists, ops).Some?
    ensures RowOk(persists, Run(persists, ops).value, id)
  {
    if ops != [] {
      RunOk(persists, ops[..|ops| - 1], id);
      StepOk(persists, Run(persists, ops[..|ops| - 1]).value, ops[|ops| - 1], id);
    }
  }

  // ---------- main results ----------

  /** Over the SQL store the count a failing item sees is always the inserted one:
      an executed failure escalates exactly if retry_count + 1 >= max_retries held
      when the row was inserted. */
  lemma {:induction false} SqlStoreEscalatesIff(ops: seq<Op>, id: int)
    requires Run(false, ops).Some? && id in Run(false, ops).value.rows && IsOpen(Run(false, ops).value.rows[id])
    ensures var s := Run(false, ops).value;
            && id in s.created
            && (Item(false, s, id, Outcome(false, true)).rows[id].status.ManualRequired?
                <==> s.created[id].retryCount + 1 >= s.created[id].maxRetries)
  {
    RunOk(false, ops, id);
  }

  /** So a row with more than one retry left never escalates, in any run. */
  lemma {:induction false} SqlStoreNeverEscalates(ops: seq<Op>, id: int)
    requires Run(false, ops).Some? && id in Run(false, ops).value.created
    requires Run(false, ops).value.created[id].retryCount + 1 < Run(false, ops).value.created[id].maxRetries
    ensures id in Run(false, ops).value.rows && !Run(false, ops).value.rows[id].status.ManualRequired?
  {
    RunOk(false, ops, id);
  }

  /** Over a store that persists the count, when its calls succeed and items are
      handled as they are listed (StalePasses has the case of overlap): a row is
      executed at most max(1, max_retries - initial count) times, is closed once
      that many were made, and escalates only then. */
  lemma {:induction false} PersistedCountTerminates(ops: seq<Op>, id: int)
    requires Run(true, ops).Some? && id in Run(true, ops).value.created && id !in Run(true, ops).value.lost
    ensures var s := Run(true, ops).value;
            var n, budget := Attempts(s.attempts, id), Budget(s.created[id]);
            && id in s.rows && n <= budget
            && (n == budget ==> !IsOpen(s.rows[id]))
            && (s.rows[id].status.ManualRequired? ==> n == budget)
  {
    RunOk(true, ops, id);
  }

  /** Resolved, escalated and abandoned rows are never changed again, as long as
      an item is handled as it is listed; see StalePasses for passes that overlap. */
  lemma {:induction false} ClosedRowsStay(persists: bool, before: seq<Op>, after: seq<Op>, id: int)
    requires Run(persists, before).Some? && Run(persists, before + after).Some?
    requires id in Run(persists, before).value.rows && !IsOpen(Run(persists, before).value.rows[id])
    ensures id in Run(persists, before + after).value.rows
    ensures Run(persists, before + after).value.rows[id] == Run(persists, before).value.rows[id]
  {
    if after == [] {
      assert before + after == before;
    } else {
      var init := after[..|after| - 1];
      assert (before + after)[..|before + after| - 1] == before + init;
      ClosedRowsStay(persists, before, init, id);
      RunOk(persists, before + init, id);
    }
  }

  // ---------- one batch pass ----------

  /** The rows after a pass over the listed items. */
  function PassRows(persists: bool, rows: map<int, Row>, ids: seq<int>, outcomes: seq<Outcome>): map<int, Row>
    requires |ids| == |outcomes|
  {
    if ids == [] then rows
    else
      var n := |ids| - 1;
      var rest := PassRows(persists, rows, ids[..n], outcomes[..n]);
      if ids[n] in rest then rest[ids[n] := AfterItem(persists, rest[ids[n]], outcomes[n])] else rest
  }

  function ItemOps(ids: seq<int>, outcomes: seq<Outcome>): seq<Op>
    requires |ids| == |outcomes|
  {
    seq(|ids|, i requires 0 <= i < |ids| => ItemOp(ids[i], outcomes[i]))
  }

  /** A pass is a run of single items, so everything proved about runs holds of
      batch passes and of the worker's. */
  lemma {:induction false} PassIsRun(persists: bool, ops: seq<Op>, ids: seq<int>, outcomes: seq<Outcome>)
    requires |ids| == |outcomes| && Run(persists, ops).Some?
    requires forall i :: 0 <= i < |ids| ==> ids[i] in Run(persists, ops).value.rows
    ensures Run(persists, ops + ItemOps(ids, outcomes)).Some?
    ensures Run(persists, ops + ItemOps(ids, outcomes)).value.rows ==
            PassRows(persists, Run(persists, ops).value.rows, ids, outcomes)
    ensures PassRows(persists, Run(persists, ops).value.rows, ids, outcomes).Keys == Run(persists, ops).value.rows.Keys
  {
    var all := ops + ItemOps(ids, outcomes);
    if ids == [] {
      assert all == ops;
    } else {
      var n := |ids| - 1;
      PassIsRun(persists, ops, ids[..n], outcomes[..n]);
      assert all[..|all| - 1] == ops + ItemOps(ids[..n], outcomes[..n]);
    }
  }

  /** Each item of a pass sees its own row as it was before the pass: every listed
      row is handled once, rows not listed and closed rows are untouched. */
  lemma {:induction false} PassHandlesEachOnce(persists: bool, rows: map<int, Row>, ids: seq<int>,
                                               outcomes: seq<Outcome>, id: int)
    requires |ids| == |outcomes| && Distinct(ids) && id in rows
    ensures var rows' := PassRows(persists, rows, ids, outcomes);
            && id in rows'
            && (id !in ids || !IsOpen(rows[id]) ==> rows'[id] == rows[id])
            && (forall i :: 0 <= i < |ids| && ids[i] == id ==> rows'[id] == AfterItem(persists, rows[id], outcomes[i]))
  {
    if ids != [] {
      var n := |ids| - 1;
      PassHandlesEachOnce(persists, rows, ids[..n], outcomes[..n], id);
      assert ids == ids[..n] + [ids[n]];
      assert ids[n] !in ids[..n];
    }
  }

  datatype CompensationResult = CompensationResult(total: nat, success: nat, retry: nat, manual: nat, failed: nat) {
    function Add(k: Kind): CompensationResult {
      match k
      case Skipped => this
      case Succeeded => this.(success := success + 1)
      case Retried => this.(retry := retry + 1)
      case Escalated => this.(manual := manual + 1)
      case StoreFailed => this.(failed := failed + 1)
    }
  }

  function Tally(total: nat, rows: map<int, Row>, ids: seq<int>, outcomes: seq<Outcome>): CompensationResult
    requires |ids| == |outcomes| && forall i :: 0 <= i < |ids| ==> ids[i] in rows
  {
    if ids == [] then CompensationResult(total, 0, 0, 0, 0)
    else
      var n := |ids| - 1;
      Tally(total, rows, ids[..n], outcomes[..n]).Add(KindOf(rows[ids[n]], outcomes[n]))
  }

  datatype Stats = Stats(resolved: nat, retried: nat, manual: nat) {
    function Record(k: Kind): Stats {
      match k
      case Succeeded => this.(resolved := resolved + 1)
      case Retried => this.(retried := retried + 1)
      case Escalated => this.(manual := manual + 1)
      case Skipped => this
      case StoreFailed => this
    }

    function Total(): nat { resolved + retried + manual }
  }

  /** A batch pass records what it stored; the worker records its verdict even if
      storing it failed. */
  function Recorded(worker: bool, row: Row, o: Outcome): Kind {
    if worker && IsOpen(row) then Verdict(row, o.executed) else KindOf(row, o)
  }

  function StatsAfter(worker: bool, stats: Stats, rows: map<int, Row>, ids: seq<int>, outcomes: seq<Outcome>): Stats
    requires |ids| == |outcomes| && forall i :: 0 <= i < |ids| ==> ids[i] in rows
  {
    if ids == [] then stats
    else
      var n := |ids| - 1;
      StatsAfter(worker, stats, rows, ids[..n], outcomes[..n]).Record(Recorded(worker, rows[ids[n]], outcomes[n]))
  }

  /** A batch's statistics match its counters; the worker's count every open item,
      those whose store call failed included. */
  lemma {:induction false} StatsAddUp(stats: Stats, total: nat, rows: map<int, Row>, ids: seq<int>,
                                      outcomes: seq<Outcome>)
    requires |ids| == |outcomes| && forall i :: 0 <= i < |ids| ==> ids[i] in rows
    ensures var r := Tally(total, rows, ids, outcomes);
            && StatsAfter(false, stats, rows, ids, outcomes) ==
               Stats(stats.resolved + r.success, stats.retried + r.retry, stats.manual + r.manual)
            && StatsAfter(true, stats, rows, ids, outcomes).Total() == stats.Total() + OpenCount(rows, ids)
            && StatsAfter(true, stats, rows, ids, outcomes).Total() ==
               StatsAfter(false, stats, rows, ids, outcomes).Total() + r.failed
  {
    if ids != [] { StatsAddUp(stats, total, rows, ids[..|ids| - 1], outcomes[..|ids| - 1]); }
  }

  function OpenCount(rows: map<int, Row>, ids: seq<int>): nat
    requires forall i :: 0 <= i < |ids| ==> ids[i] in rows
  {
    if ids == [] then 0
    else OpenCount(rows, ids[..|ids| - 1]) + if IsOpen(rows[ids[|ids| - 1]]) then 1 else 0
  }

  /** The four counters account for every open item of the batch, once each. */
  lemma {:induction false} CountersAddUp(total: nat, rows: map<int, Row>, ids: seq<int>, outcomes: seq<Outcome>)
    requires |ids| == |outcomes| && forall i :: 0 <= i < |ids| ==> ids[i] in rows
    ensures var r := Tally(total, rows, ids, outcomes);
            r.total == total && r.success + r.retry + r.manual + r.failed == OpenCount(rows, ids)
  {
    if ids != [] { CountersAddUp(total, rows, ids[..|ids| - 1], outcomes[..|ids| - 1]); }
  }

  lemma {:induction false} PassSnoc(persists: bool, rows: map<int, Row>, ids: seq<int>, outcomes: seq<Outcome>, i: nat)
    requires |ids| == |outcomes| && i < |ids| && Distinct(ids) && forall j :: 0 <= j < |ids| ==> ids[j] in rows
    ensures ids[..i + 1][..i] == ids[..i] && outcomes[..i + 1][..i] == outcomes[..i]
    ensures var rest := PassRows(persists, rows, ids[..i], outcomes[..i]);
            && ids[i] in rest && rest[ids[i]] == rows[ids[i]]
            && PassRows(persists, rows, ids[..i + 1], outcomes[..i + 1]) ==
               rest[ids[i] := AfterItem(persists, rows[ids[i]], outcomes[i])]
  {
    assert ids[..i + 1][..i] == ids[..i] && outcomes[..i + 1][..i] == outcomes[..i];
    assert ids[i] !in ids[..i];
    PassHandlesEachOnce(persists, rows, ids[..i], outcomes[..i], ids[i]);
  }

  class CompensationProcessor {
    const persists: bool
    var rows: map<int, Row>
    var stats: Stats

    constructor (persists: bool, rows: map<int, Row>)
      ensures this.persists == persists && this.rows == rows && stats == Stats(0, 0, 0)
    {
      this.persists := persists;
      this.rows := rows;
      stats := Stats(0, 0, 0);
    }

    /** The body of the loop over a batch, and of the worker's loop. */
    method ProcessItem(worker: bool, id: int, o: Outcome, before: CompensationResult) returns (r: CompensationResult)
      requires id in rows
      modifies this
      ensures rows == old(rows)[id := AfterItem(persists, old(rows)[id], o)]
      ensures r == before.Add(KindOf(old(rows)[id], o))
      ensures stats == old(stats).Record(Recorded(worker, old(rows)[id], o))
      ensures var row := old(rows)[id];
              var open := row.status.Pending? || row.status.Retrying?;
              var left := row.retryCount + 1 < row.maxRetries;
              && (!open ==> rows == old(rows) && r == before && stats == old(stats))
              && (open && !o.stored ==> rows == old(rows) && r == before.(failed := before.failed + 1))
              && (open && o.stored && o.executed ==>
                    rows[id].status.Resolved? && r == before.(success := before.success + 1))
              && (open && o.stored && !o.executed && !left ==>
                    rows[id].status.ManualRequired? && r == before.(manual := before.manual + 1))
              && (open && o.stored && !o.executed && left ==>
                    rows[id].status.Retrying? && r == before.(retry := before.retry + 1))
              && (open && (o.stored || worker) && o.executed ==>
                    stats == old(stats).(resolved := old(stats).resolved + 1))
              && (open && (o.stored || worker) && !o.executed && !left ==>
                    stats == old(stats).(manual := old(stats).manual + 1))
              && (open && (o.stored || worker) && !o.executed && left ==>
                    stats == old(stats).(retried := old(stats).retried + 1))
              && (!o.stored && !worker ==> stats == old(stats))
    {
      r := before;
      var comp := rows[id];
      if !comp.status.Pending? && !comp.status.Retrying? {
        return;
      }
      if !o.stored {
        r := r.(failed := r.failed + 1);
      }
      if !o.executed {
        comp := comp.(retryCount := comp.retryCount + 1);
        if comp.retryCount >= comp.maxRetries {
          if o.stored {
            rows := rows[id := rows[id].(status := ManualRequired)];
            r := r.(manual := r.manual + 1);
          }
          if o.stored || worker {
            stats := stats.(manual := stats.manual + 1);
          }
        } else {
          if o.stored {
            var kept := if persists then comp.retryCount else rows[id].retryCount;
            rows := rows[id := rows[id].(status := Retrying, retryCount := kept)];
            r := r.(retry := r.retry + 1);
          }
          if o.stored || worker {
            stats := stats.(retried := stats.retried + 1);
          }
        }
      } else {
        if o.stored {
          rows := rows[id := rows[id].(status := Resolved)];
          r := r.(success := r.success + 1);
        }
        if o.stored || worker {
          stats := stats.(resolved := stats.resolved + 1);
        }
      }
    }

    /** ProcessBatchCompensations; `listed` is the query's result in item order, or
        its failure. */
    method ProcessBatchCompensations(batch: string, listed: Option<seq<int>>, outcomes: seq<Outcome>)
      returns (r: Option<CompensationResult>)
      requires listed.Some? ==>
                 && |listed.value| == |outcomes| && Distinct(listed.value)
                 && (forall i :: 0 <= i < |outcomes| ==>
                       listed.value[i] in rows && rows[listed.value[i]].batch == batch)
                 && (forall id :: id in rows && rows[id].batch == batch ==> id in listed.value)
      modifies this
      ensures listed.None? ==> r.None? && rows == old(rows) && stats == old(stats)
      ensures listed.Some? ==>
                && rows == PassRows(persists, old(rows), listed.value, outcomes)
                && r == Some(Tally(|listed.value|, old(rows), listed.value, outcomes))
                && r.value.total == |listed.value|
                && r.value.success + r.value.retry + r.value.manual + r.value.failed ==
                   OpenCount(old(rows), listed.value)
                && stats == Stats(old(stats).resolved + r.value.success, old(stats).retried + r.value.retry,
                                  old(stats).manual + r.value.manual)
    {
      if listed.None? {
        return None;
      }
      var ids := listed.value;
      var counts := Pass(false, ids, outcomes);
      CountersAddUp(|ids|, old(rows), ids, outcomes);
      StatsAddUp(old(stats), |ids|, old(rows), ids, outcomes);
      return Some(counts);
    }

    /** processPendingCompensations: the worker's pass over every open item. */
    method ProcessPendingCompensations(listed: Option<seq<int>>, outcomes: seq<Outcome>)
      requires listed.Some? ==>
                 && |listed.value| == |outcomes| && Distinct(listed.value)
                 && (forall i :: 0 <= i < |outcomes| ==> listed.value[i] in rows && IsOpen(rows[listed.value[i]]))
                 && (forall id :: id in rows && IsOpen(rows[id]) ==> id in listed.value)
      modifies this
      ensures listed.None? ==> rows == old(rows) && stats == old(stats)
      ensures listed.Some? ==>
                && rows == PassRows(persists, old(rows), listed.value, outcomes)
                && stats == StatsAfter(true, old(stats), old(rows), listed.value, outcomes)
    {
      if listed.Some? && listed.value != [] {
        var _ := Pass(true, listed.value, outcomes);
      }
    }

    method Pass(worker: bool, ids: seq<int>, outcomes: seq<Outcome>) returns (r: CompensationResult)
      requires |ids| == |outcomes| && Distinct(ids) && forall i :: 0 <= i < |ids| ==> ids[i] in rows
      modifies this
      ensures rows == PassRows(persists, old(rows), ids, outcomes)
      ensures r == Tally(|ids|, old(rows), ids, outcomes)
      ensures stats == StatsAfter(worker, old(stats), old(rows), ids, outcomes)
    {
      r := CompensationResult(|ids|, 0, 0, 0, 0);
      ghost var start := rows;
      var i := 0;
      while i < |ids|
        invariant 0 <= i <= |ids|
        invariant rows == PassRows(persists, start, ids[..i], outcomes[..i])
        invariant r == Tally(|ids|, start, ids[..i], outcomes[..i])
        invariant stats == StatsAfter(worker, old(stats), start, ids[..i], outcomes[..i])
      {
        PassSnoc(persists, start, ids, outcomes, i);
        r := ProcessItem(worker, ids[i], outcomes[i], r);
        i := i + 1;
      }
      assert ids[..|ids|] == ids && outcomes[..|ids|] == outcomes;
    }
  }
}

/** Passes that overlap.  A pass lists its rows first and writes later, by id alone,
    what it decided from the rows as listed: batch passes, the worker, and workers of
    other instances interleave in any order. */
module StalePasses {
  import opened Common
  import opened Compensation

  /** The rows a pass still has to handle, as listed, and how many writes preceded
      the listing. */
  datatype Listing = Listing(rows: map<int, Row>, seen: nat)

  datatype Written = Written(id: int, pass: int, status: Status)

  /** `writes` is history. */
  datatype Store = Store(rows: map<int, Row>, passes: map<int, Listing>, writes: seq<Written>)

  datatype Action =
    | Insert(id: int, row: Row)
    | List(pass: int, ids: set<int>)
    | Write(pass: int, id: int, outcome: Outcome)

  predicate CanAct(s: Store, a: Action) {
    match a
    case Insert(id, row) => id !in s.rows && row.status.Pending?
    case List(p, _) => p !in s.passes
    case Write(p, id, _) => p in s.passes && id in s.passes[p].rows && id in s.rows
  }

  /** What a pass writes for a row as listed: Resolve, MarkManualRequired or
      UpdateStatus, none of which looks at the row's present status. */
  function Decision(listed: Row, executed: bool): Status {
    match Verdict(listed, executed)
    case Succeeded => Resolved
    case Escalated => ManualRequired
    case _ => Retrying
  }

  function Overwrite(persists: bool, row: Row, listed: Row, executed: bool): Row {
    var status := Decision(listed, executed);
    row.(status := status, retryCount := if persists && status.Retrying? then listed.retryCount + 1 else row.retryCount)
  }

  function Act(persists: bool, s: Store, a: Action): Store
    requires CanAct(s, a)
  {
    match a
    case Insert(id, row) => s.(rows := s.rows[id := row])
    case List(p, ids) =>
      var listed := map id | id in ids && id in s.rows && IsOpen(s.rows[id]) :: s.rows[id];
      s.(passes := s.passes[p := Listing(listed, |s.writes|)])
    case Write(p, id, o) =>
      var listing := s.passes[p];
      var left := s.(passes := s.passes[p := listing.(rows := listing.rows - {id})]);
      if !o.stored then left
      else left.(rows := s.rows[id := Overwrite(persists, s.rows[id], listing.rows[id], o.executed)],
                 writes := s.writes + [Written(id, p, Decision(listing.rows[id], o.executed))])
  }

  function RunAll(persists: bool, actions: seq<Action>): Option<Store> {
    if actions == [] then Some(Store(map[], map[], []))
    else
      var s := RunAll(persists, actions[..|actions| - 1]);
      var a := actions[|actions| - 1];
      if s.Some? && CanAct(s.value, a) then Some(Act(persists, s.value, a)) else None
  }

  predicate IsClosing(status: Status) { !status.Pending? && !status.Retrying? }

  /** The last write of a row's status, at or after position `from`. */
  function LastWrite(writes: seq<Written>, from: nat, id: int): Option<Written> {
    if |writes| <= from then None
    else if writes[|writes| - 1].id == id then Some(writes[|writes| - 1])
    else LastWrite(writes[..|writes| - 1], from, id)
  }

  lemma {:induction false} LastWriteAppend(writes: seq<Written>, w: Written, from: nat, id: int)
    requires from <= |writes|
    ensures LastWrite(writes + [w], from, id) == if w.id == id then Some(w) else LastWrite(writes, from, id)
  {
    assert (writes + [w])[..|writes|] == writes;
  }

  /** The row is as its last writer since the listing left it, and no pass writes a
      row that it has still to handle. */
  predicate ListedOk(s: Store, p: int, id: int) {
    p in s.passes ==>
      && s.passes[p].seen <= |s.writes|
      && (id in s.passes[p].rows ==>
            && id in s.rows && IsOpen(s.passes[p].rows[id])
            && match LastWrite(s.writes, s.passes[p].seen, id)
               case None => s.rows[id] == s.passes[p].rows[id]
               case Some(w) => w.pass != p && s.rows[id].status == w.status)
  }

  lemma {:induction false} ActOk(persists: bool, s: Store, a: Action, p: int, id: int)
    requires CanAct(s, a) && ListedOk(s, p, id)
    ensures ListedOk(Act(persists, s, a), p, id)
  {
    if a.Write? && p in s.passes && a.outcome.stored {
      var w := Written(a.id, a.pass, Decision(s.passes[a.pass].rows[a.id], a.outcome.executed));
      LastWriteAppend(s.writes, w, s.passes[p].seen, id);
    }
  }

  lemma {:induction false} RunAllOk(persists: bool, actions: seq<Action>, p: int, id: int)
    requires RunAll(persists, actions).Some?
    ensures ListedOk(RunAll(persists, actions).value, p, id)
  {
    if actions != [] {
      RunAllOk(persists, actions[..|actions| - 1], p, id);
      ActOk(persists, RunAll(persists, actions[..|actions| - 1]).value, actions[|actions| - 1], p, id);
    }
  }

  /** Since pass p listed the row, the last write to it closed it, and was another's. */
  predicate ClosedByAnother(s: Store, p: int, id: int)
    requires p in s.passes
  {
    var w := LastWrite(s.writes, s.passes[p].seen, id);
    w.Some? && w.value.pass != p && IsClosing(w.value.status)
  }

  /** In every run, a pass is about to write a closed row exactly if another pass
      closed it after this one listed it; and the write then reopens it exactly if
      it stores a failure with retries left, counted from the row as listed. */
  lemma {:induction false} ReopensIff(persists: bool, actions: seq<Action>, p: int, id: int, o: Outcome)
    requires RunAll(persists, actions).Some? && CanAct(RunAll(persists, actions).value, Write(p, id, o))
    ensures var s := RunAll(persists, actions).value;
            var s' := Act(persists, s, Write(p, id, o));
            var listed := s.passes[p].rows[id];
            && (!IsOpen(s.rows[id]) <==> ClosedByAnother(s, p, id))
            && (!IsOpen(s.rows[id]) && IsOpen(s'.rows[id])
                <==> && ClosedByAnother(s, p, id)
                     && o.stored && !o.executed && listed.retryCount + 1 < listed.maxRetries)
  {
    RunAllOk(persists, actions, p, id);
  }

  /** Without a write in between, writing later is handling the item at once. */
  lemma {:induction false} UndisturbedWriteIsItem(persists: bool, actions: seq<Action>, p: int, id: int, o: Outcome)
    requires RunAll(persists, actions).Some? && CanAct(RunAll(persists, actions).value, Write(p, id, o))
    requires var s := RunAll(persists, actions).value; LastWrite(s.writes, s.passes[p].seen, id).None?
    ensures var s := RunAll(persists, actions).value;
            Act(persists, s, Write(p, id, o)).rows == s.rows[id := AfterItem(persists, s.rows[id], o)]
  {
    RunAllOk(persists, actions, p, id);
  }

  lemma {:induction false} RunAllSnoc(persists: bool, actions: seq<Action>, a: Action)
    requires RunAll(persists, actions).Some? && CanAct(RunAll(persists, actions).value, a)
    ensures RunAll(persists, actions + [a]) == Some(Act(persists, RunAll(persists, actions).value, a))
  {
    assert (actions + [a])[..|actions|] == actions;
  }

  /** And it happens: two passes list a row with retries left, the first resolves it,
      the second fails and sets it back to retrying. */
  lemma {:induction false} ResolvedRowReopened(persists: bool, row: Row) returns (before: seq<Action>, last: Action)
    requires row.status.Pending? && row.retryCount + 1 < row.maxRetries
    ensures RunAll(persists, before).Some? && RunAll(persists, before + [last]).Some?
    ensures var s, s' := RunAll(persists, before).value, RunAll(persists, before + [last]).value;
            && 0 in s.rows && s.rows[0].status.Resolved?
            && 0 in s'.rows && s'.rows[0].status.Retrying?
  {
    var listed := Listing(map[0 := row], 0);
    before := [];
    RunAllSnoc(persists, before, Insert(0, row)); before := before + [Insert(0, row)];
    assert RunAll(persists, before).value == Store(map[0 := row], map[], []);
    RunAllSnoc(persists, before, List(1, {0})); before := before + [List(1, {0})];
    assert RunAll(persists, before).value.passes[1].rows == map[0 := row];
    assert RunAll(persists, before).value == Store(map[0 := row], map[1 := listed], []);
    RunAllSnoc(persists, before, List(2, {0})); before := before + [List(2, {0})];
    assert RunAll(persists, before).value == Store(map[0 := row], map[1 := listed, 2 := listed], []);
    var ok := Write(1, 0, Outcome(true, true));
    RunAllSnoc(persists, before, ok); before := before + [ok];
    last := Write(2, 0, Outcome(false, true));
    assert RunAll(persists, before).value.passes[2] == listed;
    RunAllSnoc(persists, before, last);
  }

  // ---------- the retry budget ----------

  /** How often the executor was called for the row. */
  function Executions(actions: seq<Action>, id: int): nat {
    if actions == [] then 0
    else
      var a := actions[|actions| - 1];
      Executions(actions[..|actions| - 1], id) + if a.Write? && a.id == id then 1 else 0
  }

  /** Some store call for the row failed. */
  predicate LosesWrite(actions: seq<Action>, id: int) {
    actions != [] &&
    var a := actions[|actions| - 1];
    LosesWrite(actions[..|actions| - 1], id) || (a.Write? && a.id == id && !a.outcome.stored)
  }

  function Inserted(actions: seq<Action>, id: int): Option<Row> {
    if actions == [] then None
    else
      var a := actions[|actions| - 1];
      if a.Insert? && a.id == id then Some(a.row) else Inserted(actions[..|actions| - 1], id)
  }

  lemma {:induction false} HistorySnoc(actions: seq<Action>, a: Action, id: int)
    ensures Executions(actions + [a], id) == Executions(actions, id) + if a.Write? && a.id == id then 1 else 0
    ensures LosesWrite(actions + [a], id) <==>
            LosesWrite(actions, id) || (a.Write? && a.id == id && !a.outcome.stored)
    ensures Inserted(actions + [a], id) == if a.Insert? && a.id == id then Some(a.row) else Inserted(actions, id)
  {
    assert (actions + [a])[..|actions|] == actions;
  }

  /** The pass has listed the row and has still to write it. */
  predicate Holds(s: Store, p: int, id: int) {
    p in s.passes && id in s.passes[p].rows
  }

  /** A pass lists the row while another has still to write it. */
  ghost predicate Overlaps(s: Store, a: Action, id: int) {
    a.List? && id in a.ids && exists p :: Holds(s, p, id)
  }

  ghost predicate Serial(persists: bool, actions: seq<Action>, id: int)
    requires RunAll(persists, actions).Some?
  {
    actions == [] ||
    var init := actions[..|actions| - 1];
    Serial(persists, init, id) && !Overlaps(RunAll(persists, init).value, actions[|actions| - 1], id)
  }

  /** At most one pass holds the row, and it holds it as it is, open. */
  ghost predicate HeldOnce(s: Store, id: int) {
    && (forall p, q :: Holds(s, p, id) && Holds(s, q, id) ==> p == q)
    && (forall p :: Holds(s, p, id) ==> id in s.rows && IsOpen(s.rows[id]) && s.passes[p].rows[id] == s.rows[id])
  }

  ghost predicate SerialOk(persists: bool, s: Store, actions: seq<Action>, id: int) {
    && HeldOnce(s, id)
    && match Inserted(actions, id)
       case None => id !in s.rows && Executions(actions, id) == 0
       case Some(row0) =>
         && id in s.rows
         && Tracked(persists, row0, s.rows[id], Executions(actions, id), LosesWrite(actions, id))
  }

  lemma {:induction false} ActHeldOnce(persists: bool, s: Store, a: Action, id: int)
    requires CanAct(s, a) && HeldOnce(s, id) && !Overlaps(s, a, id)
    ensures HeldOnce(Act(persists, s, a), id)
  {
    var s' := Act(persists, s, a);
    forall p | Holds(s', p, id)
      ensures Holds(s, p, id) || (a.List? && a.pass == p && id in a.ids && id in s.rows && IsOpen(s.rows[id]))
    {
    }
  }

  lemma {:induction false} HeldWriteIsItem(persists: bool, s: Store, p: int, id: int, o: Outcome)
    requires CanAct(s, Write(p, id, o)) && HeldOnce(s, id)
    ensures IsOpen(s.rows[id])
    ensures Act(persists, s, Write(p, id, o)).rows == s.rows[id := AfterItem(persists, s.rows[id], o)]
  {
    assert Holds(s, p, id);
  }

  lemma {:induction false} RunSerial(persists: bool, actions: seq<Action>, id: int)
    requires RunAll(persists, actions).Some? && Serial(persists, actions, id)
    ensures SerialOk(persists, RunAll(persists, actions).value, actions, id)
  {
    if actions != [] {
      var init, a := actions[..|actions| - 1], actions[|actions| - 1];
      RunSerial(persists, init, id);
      var s := RunAll(persists, init).value;
      ActHeldOnce(persists, s, a, id);
      if a.Write? && a.id == id {
        HeldWriteIsItem(persists, s, a.pass, id, a.outcome);
        if Inserted(init, id).Some? {
          ItemTracked(persists, Inserted(init, id).value, s.rows[id], Executions(init, id), LosesWrite(init, id),
                      a.outcome);
        }
      }
    }
  }

  /** The retry budget survives passes that do not overlap on the row: over a store
      that keeps the count, if no pass lists the row while another has still to write
      it and no store call for it fails, it is executed at most max(1, max_retries -
      initial count) times, is closed once that many were made, and escalates only
      then. */
  lemma {:induction false} SerialPassesTerminate(actions: seq<Action>, id: int)
    requires RunAll(true, actions).Some? && Serial(true, actions, id)
    requires Inserted(actions, id).Some? && !LosesWrite(actions, id)
    ensures var s := RunAll(true, actions).value;
            var n, budget := Executions(actions, id), Budget(Inserted(actions, id).value);
            && id in s.rows && n <= budget
            && (n == budget ==> !IsOpen(s.rows[id]))
            && (s.rows[id].status.ManualRequired? ==> n == budget)
  {
    RunSerial(true, actions, id);
  }

  const FAILS := Outcome(false, true)

  lemma {:induction false} FreshPass(passes: set<int>) returns (next: int)
    ensures forall p :: p in passes ==> p < next
  {
    next := 0;
    if p :| p in passes {
      var rest := FreshPass(passes - {p});
      next := if rest <= p then p + 1 else rest;
      assert forall q :: q in passes ==> q == p || q in passes - {p};
    }
  }

  /** What one more failure of a pass that holds the row as `listed` does. */
  lemma {:induction false} FailSnoc(actions: seq<Action>, p: int, id: int, listed: Row)
    requires RunAll(true, actions).Some? && Holds(RunAll(true, actions).value, p, id)
    requires id in RunAll(true, actions).value.rows && RunAll(true, actions).value.passes[p].rows[id] == listed
    ensures var all, s := actions + [Write(p, id, FAILS)], RunAll(true, actions).value;
            && RunAll(true, all).Some?
            && RunAll(true, all).value.rows == s.rows[id := Overwrite(true, s.rows[id], listed, false)]
            && RunAll(true, all).value.passes == s.passes[p := s.passes[p].(rows := s.passes[p].rows - {id})]
            && Executions(all, id) == Executions(actions, id) + 1
            && (LosesWrite(all, id) <==> LosesWrite(actions, id))
            && Inserted(all, id) == Inserted(actions, id)
  {
    RunAllSnoc(true, actions, Write(p, id, FAILS));
    HistorySnoc(actions, Write(p, id, FAILS), id);
  }

  /** From an open row, one pass after another fails until the count is used up. */
  lemma {:induction false} Exhaust(actions: seq<Action>, id: int, next: int) returns (all: seq<Action>)
    requires RunAll(true, actions).Some? && !LosesWrite(actions, id)
    requires var s := RunAll(true, actions).value;
             && id in s.rows && IsOpen(s.rows[id]) && s.rows[id].retryCount < s.rows[id].maxRetries
             && forall p :: p in s.passes ==> p < next
    ensures actions <= all && RunAll(true, all).Some? && !LosesWrite(all, id)
    ensures var row := RunAll(true, actions).value.rows[id];
            Executions(all, id) == Executions(actions, id) + row.maxRetries - row.retryCount
    ensures Inserted(all, id) == Inserted(actions, id)
    decreases var row := RunAll(true, actions).value.rows[id]; row.maxRetries - row.retryCount
  {
    var row, list := RunAll(true, actions).value.rows[id], List(next, {id});
    RunAllSnoc(true, actions, list);
    HistorySnoc(actions, list, id);
    var listed := actions + [list];
    assert RunAll(true, listed).value.passes[next].rows[id] == row;
    FailSnoc(listed, next, id, row);
    all := listed + [Write(next, id, FAILS)];
    if row.retryCount + 1 < row.maxRetries {
      all := Exhaust(all, id, next + 1);
    }
  }

  /** And only those: after any serial run without failed store calls, a listing that
      overlaps can be continued by failures alone to more executions than the
      budget. */
  lemma {:induction false} OverlapExceedsBudget(actions: seq<Action>, a: Action, id: int) returns (all: seq<Action>)
    requires RunAll(true, actions).Some? && Serial(true, actions, id) && !LosesWrite(actions, id)
    requires CanAct(RunAll(true, actions).value, a) && Overlaps(RunAll(true, actions).value, a, id)
    ensures actions + [a] <= all && RunAll(true, all).Some? && !LosesWrite(all, id)
    ensures Inserted(all, id).Some? && Executions(all, id) > Budget(Inserted(all, id).value)
  {
    var s := RunAll(true, actions).value;
    RunSerial(true, actions, id);
    var p :| Holds(s, p, id);
    var row := s.rows[id];
    RunAllSnoc(true, actions, a);
    HistorySnoc(actions, a, id);
    var listed := actions + [a];
    FailSnoc(listed, p, id, row);
    all := listed + [Write(p, id, FAILS)];
    FailSnoc(all, a.pass, id, row);
    all := all + [Write(a.pass, id, FAILS)];
    if row.retryCount + 1 < row.maxRetries {
      var next := FreshPass(RunAll(true, all).value.passes.Keys);
      all := Exhaust(all, id, next);
    }
  }

  /** n passes have listed the row as inserted, and none has written it. */
  lemma {:induction false} ManyListings(row: Row, n: nat) returns (all: seq<Action>)
    requires row.status.Pending?
    ensures RunAll(true, all).Some? && Inserted(all, 0) == Some(row)
    ensures Executions(all, 0) == 0 && !LosesWrite(all, 0)
    ensures var s := RunAll(true, all).value;
            && s.rows == map[0 := row]
            && forall p :: if 0 <= p < n then Holds(s, p, 0) && s.passes[p].rows[0] == row else p !in s.passes
  {
    var last := if n == 0 then Insert(0, row) else List(n - 1, {0});
    if n == 0 {
      all := [];
    } else {
      all := ManyListings(row, n - 1);
    }
    RunAllSnoc(true, all, last);
    HistorySnoc(all, last, 0);
    all := all + [last];
  }

  /** k of them have failed. */
  lemma {:induction false} ManyFailures(row: Row, n: nat, k: nat) returns (all: seq<Action>)
    requires row.status.Pending? && row.retryCount + 1 < row.maxRetries && k <= n
    ensures RunAll(true, all).Some? && Inserted(all, 0) == Some(row)
    ensures Executions(all, 0) == k && !LosesWrite(all, 0)
    ensures var s := RunAll(true, all).value;
            && 0 in s.rows
            && s.rows[0] == (if k == 0 then row else row.(status := Retrying, retryCount := row.retryCount + 1))
            && forall p :: k <= p < n ==> Holds(s, p, 0) && s.passes[p].rows[0] == row
  {
    if k == 0 {
      all := ManyListings(row, n);
    } else {
      all := ManyFailures(row, n, k - 1);
      FailSnoc(all, k - 1, 0, row);
      all := all + [Write(k - 1, 0, FAILS)];
    }
  }

  /** With overlap there is no bound at all: for every n, n passes that listed the
      same row store n failures, and the row is still open, one retry used. */
  lemma {:induction false} OverlapUnbounded(row: Row, n: nat) returns (all: seq<Action>)
    requires row.status.Pending? && row.retryCount + 1 < row.maxRetries
    ensures RunAll(true, all).Some? && Inserted(all, 0) == Some(row)
    ensures Executions(all, 0) == n && !LosesWrite(all, 0)
    ensures var s := RunAll(true, all).value;
            0 in s.rows && IsOpen(s.rows[0]) && s.rows[0].retryCount <= row.retryCount + 1
  {
    all := ManyFailures(row, n, n);
  }
}
