/** The rule of one open (pending or processing) withdrawal per supplier.  A
    Withdraw call is split into its plain check, the query of its transaction and
    the commit; the query skips exactly the rows that other live transactions hold
    locked, and sees no row that is not committed yet. */
module Withdrawals {
  import opened Common

  datatype Row = Row(owner: int, open: bool)

  /** A live transaction, named by its call:
      - Checked: the plain check found no open row;
      - Passed: the locking query found none either, the insert is not committed;
      - Found: the query found open rows and holds their locks until the rollback;
      - Updating: another writer (Update, GetForUpdate) holds one row's lock. */
  datatype Tx = Checked(owner: int) | Passed(owner: int) | Found(ids: set<int>) | Updating(id: int)

  datatype State = State(rows: map<int, Row>, txs: map<int, Tx>)

  const START := State(map[], map[])

  datatype Op =
    | Check(tx: int, owner: int)
    | Query(tx: int)
    | Commit(tx: int, id: int)
    | Rollback(tx: int)
    | Lock(tx: int, id: int)
    | Release(tx: int, keepOpen: bool)

  predicate IsOpen(s: State, id: int, owner: int) {
    id in s.rows && s.rows[id].owner == owner && s.rows[id].open
  }

  predicate Holds(t: Tx, id: int) {
    (t.Found? && id in t.ids) || (t.Updating? && t.id == id)
  }

  /** Some live transaction holds the row's lock. */
  predicate IsLocked(s: State, id: int) {
    exists tx :: tx in s.txs && Holds(s.txs[tx], id)
  }

  /** What the locking query returns, and locks. */
  function Visible(s: State, owner: int): set<int> {
    set id | id in s.rows && IsOpen(s, id, owner) && !IsLocked(s, id)
  }

  predicate HasOpen(s: State, owner: int) {
    exists id :: id in s.rows && IsOpen(s, id, owner)
  }

  predicate Enabled(s: State, op: Op) {
    match op
    case Check(tx, _) => tx !in s.txs
    case Query(tx) => tx in s.txs && s.txs[tx].Checked?
    case Commit(tx, id) => tx in s.txs && s.txs[tx].Passed? && id !in s.rows
    case Rollback(tx) => tx in s.txs && !s.txs[tx].Updating?
    case Lock(tx, id) => tx !in s.txs && id in s.rows && !IsLocked(s, id)
    case Release(tx, _) => tx in s.txs && s.txs[tx].Updating? && s.txs[tx].id in s.rows
  }

  predicate Passes(s: State, tx: int) {
    tx in s.txs && s.txs[tx].Checked? && Visible(s, s.txs[tx].owner) == {}
  }

  function Step(s: State, op: Op): State
    requires Enabled(s, op)
  {
    match op
    case Check(tx, owner) => if HasOpen(s, owner) then s else s.(txs := s.txs[tx := Checked(owner)])
    case Query(tx) =>
      var owner := s.txs[tx].owner;
      s.(txs := s.txs[tx := if Passes(s, tx) then Passed(owner) else Found(Visible(s, owner))])
    case Commit(tx, id) => State(s.rows[id := Row(s.txs[tx].owner, true)], s.txs - {tx})
    case Rollback(tx) => s.(txs := s.txs - {tx})
    case Lock(tx, id) => s.(txs := s.txs[tx := Updating(id)])
    case Release(tx, keepOpen) =>
      var id := s.txs[tx].id;
      State(s.rows[id := s.rows[id].(open := s.rows[id].open && keepOpen)], s.txs - {tx})
  }

  function Run(ops: seq<Op>): Option<State> {
    if ops == [] then Some(START)
    else
      var s := Run(ops[..|ops| - 1]);
      if s.Some? && Enabled(s.value, ops[|ops| - 1]) then Some(Step(s.value, ops[|ops| - 1])) else None
  }

  /** The rule itself. */
  ghost predicate AtMostOneOpen(s: State, owner: int) {
    forall i, j :: IsOpen(s, i, owner) && IsOpen(s, j, owner) ==> i == j
  }

  // ---------- the exact condition, query by query ----------

  /** A passing query is alone if its supplier has no other transaction between
      query and commit, and no open row: not even one that it skipped as locked. */
  ghost predicate Alone(s: State, op: Op) {
    op.Query? && Passes(s, op.tx) ==>
      var owner := s.txs[op.tx].owner;
      && (forall tx :: tx in s.txs && s.txs[tx].Passed? ==> s.txs[tx].owner != owner)
      && (forall id :: !IsOpen(s, id, owner))
  }

  ghost predicate AllAlone(ops: seq<Op>)
    requires Run(ops).Some?
  {
    ops == [] || (AllAlone(ops[..|ops| - 1]) && Alone(Run(ops[..|ops| - 1]).value, ops[|ops| - 1]))
  }

  /** At most one of: an open row, a transaction about to insert one. */
  ghost predicate Guarded(s: State, owner: int) {
    && AtMostOneOpen(s, owner)
    && (forall t, u :: IsPassed(s, t, owner) && IsPassed(s, u, owner) ==> t == u)
    && (forall t, id :: IsPassed(s, t, owner) ==> !IsOpen(s, id, owner))
  }

  predicate IsPassed(s: State, tx: int, owner: int) {
    tx in s.txs && s.txs[tx] == Passed(owner)
  }

  lemma {:induction false} OpenRowsComeFromCommits(s: State, op: Op, owner: int)
    requires Enabled(s, op)
    ensures forall id :: IsOpen(Step(s, op), id, owner) ==>
                           IsOpen(s, id, owner) || (op.Commit? && id == op.id && IsPassed(s, op.tx, owner))
    ensures forall tx :: IsPassed(Step(s, op), tx, owner) ==>
                           IsPassed(s, tx, owner) || (op == Query(tx) && Passes(s, tx) && s.txs[tx].owner == owner)
  {
  }

  lemma {:induction false} StepGuarded(s: State, op: Op, owner: int)
    requires Enabled(s, op) && Guarded(s, owner) && Alone(s, op)
    ensures Guarded(Step(s, op), owner)
  {
    OpenRowsComeFromCommits(s, op, owner);
    var s' := Step(s, op);
    forall t, u | IsPassed(s', t, owner) && IsPassed(s', u, owner) ensures t == u {
      assert (IsPassed(s, t, owner) || op == Query(t)) && (IsPassed(s, u, owner) || op == Query(u));
    }
    forall t, id | IsPassed(s', t, owner) ensures !IsOpen(s', id, owner) {
      assert IsPassed(s, t, owner) || op == Query(t);
    }
  }

  /** If every passing query is alone, no supplier ever has two open withdrawals. */
  lemma {:induction false} RuleKept(ops: seq<Op>, owner: int)
    requires Run(ops).Some? && AllAlone(ops)
    ensures Guarded(Run(ops).value, owner)
  {
    if ops != [] {
      RuleKept(ops[..|ops| - 1], owner);
      StepGuarded(Run(ops[..|ops| - 1]).value, ops[|ops| - 1], owner);
    }
  }

  lemma {:induction false} RunSnoc(ops: seq<Op>, op: Op)
    requires Run(ops).Some? && Enabled(Run(ops).value, op)
    ensures Run(ops + [op]) == Some(Step(Run(ops).value, op))
  {
    assert (ops + [op])[..|ops|] == ops;
  }

  /** And only then: in every reachable state, a query that passes without being
      alone can be continued by commits alone to two open withdrawals. */
  lemma {:induction false} RuleBroken(ops: seq<Op>, tx: int, i: int, j: int) returns (commits: seq<Op>)
    requires Run(ops).Some? && Passes(Run(ops).value, tx) && !Alone(Run(ops).value, Query(tx))
    requires i != j && i !in Run(ops).value.rows && j !in Run(ops).value.rows
    ensures forall k :: 0 <= k < |commits| ==> commits[k].Commit?
    ensures Run(ops + [Query(tx)] + commits).Some?
    ensures !AtMostOneOpen(Run(ops + [Query(tx)] + commits).value, Run(ops).value.txs[tx].owner)
  {
    var s := Run(ops).value;
    var owner := s.txs[tx].owner;
    RunSnoc(ops, Query(tx));
    var queried := ops + [Query(tx)];
    RunSnoc(queried, Commit(tx, i));
    if other :| IsPassed(s, other, owner) {
      commits := [Commit(tx, i), Commit(other, j)];
      RunSnoc(queried + [Commit(tx, i)], Commit(other, j));
      assert queried + commits == queried + [Commit(tx, i)] + [Commit(other, j)];
      var end := Run(queried + commits).value;
      assert IsOpen(end, i, owner) && IsOpen(end, j, owner);
    } else {
      assert forall t :: t in s.txs && s.txs[t].Passed? ==> s.txs[t].owner != owner by {
        assert forall t :: t in s.txs && s.txs[t].Passed? && s.txs[t].owner == owner ==> IsPassed(s, t, owner);
      }
      var id :| IsOpen(s, id, owner);
      commits := [Commit(tx, i)];
      var end := Run(queried + commits).value;
      assert IsOpen(end, i, owner) && IsOpen(end, id, owner);
    }
  }

  // ---------- whole calls ----------

  /** The transaction belongs to a Withdraw call of the supplier that may still insert. */
  predicate IsWithdrawing(s: State, tx: int, owner: int) {
    tx in s.txs && (s.txs[tx] == Checked(owner) || s.txs[tx] == Passed(owner))
  }

  /** No Withdraw call starts while another one of its supplier is under way. */
  ghost predicate Serial(ops: seq<Op>)
    requires Run(ops).Some?
  {
    ops == [] ||
    var init, op := ops[..|ops| - 1], ops[|ops| - 1];
    Serial(init) && (op.Check? ==> forall tx :: !IsWithdrawing(Run(init).value, tx, op.owner))
  }

  ghost predicate SerialOk(s: State, owner: int) {
    && AtMostOneOpen(s, owner)
    && (forall t, u :: IsWithdrawing(s, t, owner) && IsWithdrawing(s, u, owner) ==> t == u)
    && (forall t, id :: IsWithdrawing(s, t, owner) ==> !IsOpen(s, id, owner))
  }

  lemma {:induction false} StepSerial(s: State, op: Op, owner: int)
    requires Enabled(s, op) && SerialOk(s, owner)
    requires op.Check? && op.owner == owner ==> forall tx :: !IsWithdrawing(s, tx, owner)
    ensures SerialOk(Step(s, op), owner)
  {
    OpenRowsComeFromCommits(s, op, owner);
    var s' := Step(s, op);
    assert forall tx :: IsPassed(s, tx, owner) ==> IsWithdrawing(s, tx, owner);
    assert forall tx :: IsWithdrawing(s', tx, owner) ==>
                          IsWithdrawing(s, tx, owner) || (op == Check(tx, owner) && !HasOpen(s, owner));
    assert !HasOpen(s, owner) ==> forall id :: !IsOpen(s, id, owner);
  }

  /** Withdraw calls of a supplier that do not overlap keep the rule, whatever
      other writers lock and release. */
  lemma {:induction false} SerialCallsKeepRule(ops: seq<Op>, owner: int)
    requires Run(ops).Some? && Serial(ops)
    ensures SerialOk(Run(ops).value, owner)
  {
    if ops != [] {
      SerialCallsKeepRule(ops[..|ops| - 1], owner);
      StepSerial(Run(ops[..|ops| - 1]).value, ops[|ops| - 1], owner);
    }
  }

  // ---------- both ways to break it, from the empty table ----------

  lemma {:induction false} TwoChecks(owner: int) returns (ops: seq<Op>)
    ensures Run(ops) == Some(State(map[], map[1 := Checked(owner), 2 := Checked(owner)]))
  {
    ops := [];
    RunSnoc(ops, Check(1, owner)); ops := ops + [Check(1, owner)];
    assert Run(ops).value == State(map[], map[1 := Checked(owner)]);
    RunSnoc(ops, Check(2, owner)); ops := ops + [Check(2, owner)];
  }

  /** Two overlapping transactions both pass and both commit. */
  lemma {:induction false} OverlapBreaksRule(owner: int) returns (ops: seq<Op>)
    ensures Run(ops).Some? && !AtMostOneOpen(Run(ops).value, owner)
  {
    ops := TwoChecks(owner);
    assert Passes(Run(ops).value, 1);
    RunSnoc(ops, Query(1)); ops := ops + [Query(1)];
    assert Run(ops).value == State(map[], map[1 := Passed(owner), 2 := Checked(owner)]);
    assert Passes(Run(ops).value, 2);
    var s := Run(ops).value;
    assert IsPassed(s, 1, owner) && !Alone(s, Query(2));
    var commits := RuleBroken(ops, 2, 0, 1);
    ops := ops + [Query(2)] + commits;
  }

  /** The first call commits while another writer holds its row's lock: the second
      call, already checked, skips the locked row and passes. */
  lemma {:induction false} SkippedLockBreaksRule(owner: int) returns (ops: seq<Op>)
    ensures Run(ops).Some? && !AtMostOneOpen(Run(ops).value, owner)
  {
    ops := TwoChecks(owner);
    assert Passes(Run(ops).value, 1);
    RunSnoc(ops, Query(1)); ops := ops + [Query(1)];
    assert Run(ops).value == State(map[], map[1 := Passed(owner), 2 := Checked(owner)]);
    RunSnoc(ops, Commit(1, 0)); ops := ops + [Commit(1, 0)];
    assert Run(ops).value == State(map[0 := Row(owner, true)], map[2 := Checked(owner)]);
    RunSnoc(ops, Lock(3, 0)); ops := ops + [Lock(3, 0)];
    var s := Run(ops).value;
    assert s == State(map[0 := Row(owner, true)], map[2 := Checked(owner), 3 := Updating(0)]);
    assert Holds(s.txs[3], 0) && IsLocked(s, 0);
    assert Passes(s, 2) && IsOpen(s, 0, owner) && !Alone(s, Query(2));
    var commits := RuleBroken(ops, 2, 1, 2);
    ops := ops + [Query(2)] + commits;
  }
}
