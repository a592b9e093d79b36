/** Rows guarded by a version column: reads and version-checked writes of any
    number of callers, interleaved.  F is the part of a row that the UPDATE
    statement never sets, T the part that it does. */
module OptimisticLock {

  datatype Row<F, T> = Row(owner: int, fixed: F, contents: T, version: int)

  /** UPDATE ... SET ..., version = expected + 1 WHERE id, owner and version match. */
  function Update<F, T>(rows: map<int, Row<F, T>>, id: int, owner: int, contents: T, expected: int)
    : (map<int, Row<F, T>>, bool)
  {
    if id in rows && rows[id].owner == owner && rows[id].version == expected then
      (rows[id := rows[id].(contents := contents, version := expected + 1)], true)
    else (rows, false)
  }

  /** A caller between its read and its write.  It will pass the version it read
      plus `bump`; `seen` (a history variable) is how many writes of the row had
      committed when it read. */
  datatype Reader<F, T> = Reader(id: int, row: Row<F, T>, bump: int, seen: nat)

  /** `base` and `commits` are history: each row's first version, and how many
      writes of it have committed. */
  datatype State<F, T> = State(
    rows: map<int, Row<F, T>>, readers: map<int, Reader<F, T>>, base: map<int, int>, commits: map<int, nat>)

  datatype Op<F, T> =
    | Insert(id: int, row: Row<F, T>)
    | Read(caller: int, id: int, owner: int, bump: int)
    | Write(caller: int, contents: T)

  predicate Enabled<F, T>(s: State<F, T>, op: Op<F, T>) {
    match op
    case Insert(id, _) => id !in s.rows && id !in s.base && id !in s.commits
    case Read(p, id, owner, _) => p !in s.readers && id in s.rows && s.rows[id].owner == owner && id in s.commits
    case Write(p, _) => p in s.readers && s.readers[p].id in s.commits
  }

  function Expected<F, T>(r: Reader<F, T>): int { r.row.version + r.bump }

  predicate Commits<F, T>(s: State<F, T>, p: int) {
    p in s.readers && s.readers[p].id in s.rows
    && s.rows[s.readers[p].id].owner == s.readers[p].row.owner
    && s.rows[s.readers[p].id].version == Expected(s.readers[p])
  }

  function Step<F, T>(s: State<F, T>, op: Op<F, T>): State<F, T>
    requires Enabled(s, op)
  {
    match op
    case Insert(id, row) =>
      s.(rows := s.rows[id := row], base := s.base[id := row.version], commits := s.commits[id := 0])
    case Read(p, id, _, bump) =>
      s.(readers := s.readers[p := Reader(id, s.rows[id], bump, s.commits[id])])
    case Write(p, contents) =>
      var r := s.readers[p];
      var (rows, ok) := Update(s.rows, r.id, r.row.owner, contents, Expected(r));
      s.(rows := rows, readers := s.readers - {p},
         commits := if ok then s.commits[r.id := s.commits[r.id] + 1] else s.commits)
  }

  predicate RowOk<F, T>(s: State<F, T>, id: int) {
    id in s.rows ==> id in s.base && id in s.commits && s.rows[id].version == s.base[id] + s.commits[id]
  }

  ghost predicate ReaderOk<F, T>(s: State<F, T>, p: int) {
    p in s.readers ==>
      var r := s.readers[p];
      && r.id in s.rows && r.id in s.base && r.id in s.commits
      && s.rows[r.id].owner == r.row.owner && s.rows[r.id].fixed == r.row.fixed
      && r.row.version == s.base[r.id] + r.seen
      && r.seen <= s.commits[r.id]
      && (r.seen == s.commits[r.id] ==> s.rows[r.id] == r.row)
  }

  ghost predicate Inv<F, T>(s: State<F, T>) {
    && (forall id :: RowOk(s, id))
    && (forall p :: ReaderOk(s, p))
  }

  lemma {:induction false} StepInv<F, T>(s: State<F, T>, op: Op<F, T>)
    requires Inv(s) && Enabled(s, op)
    ensures Inv(Step(s, op))
  {
    var s' := Step(s, op);
    forall id ensures RowOk(s', id) {
      assert RowOk(s, id);
      if op.Write? { assert ReaderOk(s, op.caller); assert RowOk(s, s.readers[op.caller].id); }
    }
    forall p ensures ReaderOk(s', p) {
      assert ReaderOk(s, p);
      if op.Read? { assert RowOk(s, op.id); }
      if op.Write? { assert ReaderOk(s, op.caller); assert RowOk(s, s.readers[op.caller].id); }
    }
  }

  /** The version check decides exactly by how many commits happened in between:
      a write commits if and only if `bump` other writes of its row committed
      since it read. */
  lemma {:induction false} CommitsIff<F, T>(s: State<F, T>, p: int)
    requires Inv(s) && p in s.readers
    ensures s.readers[p].id in s.commits
    ensures Commits(s, p) <==> s.commits[s.readers[p].id] == s.readers[p].seen + s.readers[p].bump
  {
    assert ReaderOk(s, p);
    assert RowOk(s, s.readers[p].id);
  }

  /** A stale write leaves every row as it was; a committed one raises its row's
      version by exactly one and touches nothing else. */
  lemma {:induction false} WriteEffect<F, T>(s: State<F, T>, p: int, contents: T)
    requires Inv(s) && Enabled(s, Write(p, contents))
    ensures var s' := Step(s, Write(p, contents));
            var id := s.readers[p].id;
            && id in s.rows
            && (!Commits(s, p) ==> s'.rows == s.rows && s'.commits == s.commits)
            && (Commits(s, p) ==>
                  && s'.rows == s.rows[id := s.rows[id].(contents := contents, version := s.rows[id].version + 1)]
                  && s'.commits == s.commits[id := s.commits[id] + 1])
  {
    assert ReaderOk(s, p);
  }
}

/** Account activation and suspension over the account repository.  Both services
    add one to Version before the store passes account.Version as the expected one. */
module Accounts {
  import opened Common
  import opened OptimisticLock

  datatype Status = Pending | Active | Suspended | Disabled

  type AccountState = State<(), Status>

  /** Account writers, and any other writer that passes the version it read. */
  datatype Op =
    | Create(id: int, owner: int, status: Status, version: int)
    | ActivateRead(caller: int, id: int, owner: int)
    | SuspendRead(caller: int, id: int, owner: int)
    | ServiceWrite(caller: int)
    | OtherRead(caller: int, id: int, owner: int)
    | OtherWrite(caller: int, status: Status)

  predicate CanActivate(s: Status) { s.Pending? || s.Suspended? }

  predicate CanSuspend(s: Status) { s.Active? }

  /** What a service call writes: the other status of the pair. */
  function Target(s: Status): Status { if s.Active? then Suspended else Active }

  function Lower(s: AccountState, op: Op): OptimisticLock.Op<(), Status> {
    match op
    case Create(id, owner, status, version) => Insert(id, Row(owner, (), status, version))
    case ActivateRead(p, id, owner) => Read(p, id, owner, 1)
    case SuspendRead(p, id, owner) => Read(p, id, owner, 1)
    case ServiceWrite(p) => Write(p, if p in s.readers then Target(s.readers[p].row.contents) else Disabled)
    case OtherRead(p, id, owner) => Read(p, id, owner, 0)
    case OtherWrite(p, status) => Write(p, status)
  }

  predicate Allowed(s: AccountState, op: Op) {
    && Enabled(s, Lower(s, op))
    && (op.ActivateRead? ==> CanActivate(s.rows[op.id].contents))
    && (op.SuspendRead? ==> CanSuspend(s.rows[op.id].contents))
    && (op.ServiceWrite? ==> s.readers[op.caller].bump == 1)
    && (op.OtherWrite? ==> s.readers[op.caller].bump == 0)
  }

  function Run(s: AccountState, ops: seq<Op>): Option<AccountState> {
    if ops == [] then Some(s)
    else
      var prev := Run(s, ops[..|ops| - 1]);
      if prev.Some? && Allowed(prev.value, ops[|ops| - 1])
      then Some(Step(prev.value, Lower(prev.value, ops[|ops| - 1])))
      else None
  }

  const EMPTY: AccountState := State(map[], map[], map[], map[])

  lemma {:induction false} RunInv(ops: seq<Op>)
    requires Run(EMPTY, ops).Some?
    ensures Inv(Run(EMPTY, ops).value)
  {
    if ops != [] {
      var init := ops[..|ops| - 1];
      RunInv(init);
      StepInv(Run(EMPTY, init).value, Lower(Run(EMPTY, init).value, ops[|ops| - 1]));
    }
  }

  /** In every run, an Activate or Suspend commits exactly if one other update of
      the account committed between its read and its write; that update is then
      overwritten. */
  lemma {:induction false} ServiceCommitsIffOvertakenOnce(ops: seq<Op>, p: int)
    requires Run(EMPTY, ops).Some? && p in Run(EMPTY, ops).value.readers && Run(EMPTY, ops).value.readers[p].bump == 1
    ensures var s := Run(EMPTY, ops).value;
            && s.readers[p].id in s.commits
            && (Commits(s, p) <==> s.commits[s.readers[p].id] == s.readers[p].seen + 1)
            && (Commits(s, p) && Allowed(s, ServiceWrite(p)) ==>
                  Step(s, Lower(s, ServiceWrite(p))).rows[s.readers[p].id].contents ==
                    if s.readers[p].row.contents.Active? then Suspended else Active)
  {
    RunInv(ops);
    CommitsIff(Run(EMPTY, ops).value, p);
  }

  predicate OnlyServices(ops: seq<Op>) {
    forall i :: 0 <= i < |ops| ==> !ops[i].OtherRead? && !ops[i].OtherWrite?
  }

  /** The rows as they were inserted. */
  function Inserted(ops: seq<Op>): map<int, Row<(), Status>> {
    if ops == [] then map[]
    else
      var rest, op := Inserted(ops[..|ops| - 1]), ops[|ops| - 1];
      if op.Create? then rest[op.id := Row(op.owner, (), op.status, op.version)] else rest
  }

  /** So when these services are the only writers, none of their calls ever
      commits: every account stays exactly as it was inserted. */
  lemma {:induction false} ServicesNeverCommit(ops: seq<Op>)
    requires Run(EMPTY, ops).Some? && OnlyServices(ops)
    ensures var s := Run(EMPTY, ops).value;
            && s.rows == Inserted(ops)
            && (forall id :: id in s.rows ==> id in s.commits && s.commits[id] == 0)
            && (forall p :: p in s.readers ==> s.readers[p].bump == 1 && !Commits(s, p))
  {
    if ops != [] {
      var init, op := ops[..|ops| - 1], ops[|ops| - 1];
      ServicesNeverCommit(init);
      RunInv(init);
      RunInv(ops);
      assert op == ops[|ops| - 1] && !op.OtherRead? && !op.OtherWrite?;
      var s, s' := Run(EMPTY, init).value, Run(EMPTY, ops).value;
      if op.ServiceWrite? {
        WriteEffect(s, op.caller, Target(s.readers[op.caller].row.contents));
      }
      forall p | p in s'.readers ensures s'.readers[p].bump == 1 && !Commits(s', p) {
        CommitsIff(s', p);
        assert ReaderOk(s', p);
      }
    }
  }

  // ---------- the three layers ----------

  datatype Result = Ok(status: Status, version: int) | NotFound | WrongStatus | Conflict

  /** The repository, the adapter over it and the service over that. */
  class AccountService {
    var rows: map<int, Row<(), Status>>

    constructor ()
      ensures rows == map[]
    {
      rows := map[];
    }

    method Update(owner: int, id: int, status: Status, expectedVersion: int) returns (ok: bool)
      modifies this
      ensures (rows, ok) == OptimisticLock.Update(old(rows), id, owner, status, expectedVersion)
      ensures ok <==> id in old(rows) && old(rows)[id].owner == owner && old(rows)[id].version == expectedVersion
      ensures ok ==> rows == old(rows)[id := old(rows)[id].(contents := status, version := expectedVersion + 1)]
      ensures !ok ==> rows == old(rows)
    {
      var newVersion := expectedVersion + 1;
      if id !in rows || rows[id].owner != owner || rows[id].version != expectedVersion {
        return false;
      }
      rows := rows[id := rows[id].(contents := status, version := newVersion)];
      return true;
    }

    /** DBAccountStore.Update: the account's own version is the expected one. */
    method StoreUpdate(owner: int, id: int, status: Status, accountVersion: int) returns (ok: bool)
      modifies this
      ensures (rows, ok) == OptimisticLock.Update(old(rows), id, owner, status, accountVersion)
    {
      ok := Update(owner, id, status, accountVersion);
    }

    /** Uninterrupted, Activate never succeeds: it reports a conflict for every
        account that it should have activated, and changes nothing. */
    method Activate(owner: int, id: int) returns (r: Result)
      modifies this
      ensures rows == old(rows)
      ensures r == if id !in rows || rows[id].owner != owner then NotFound
                   else if rows[id].contents.Pending? || rows[id].contents.Suspended? then Conflict else WrongStatus
    {
      if id !in rows || rows[id].owner != owner {
        return NotFound;
      }
      var account := rows[id];
      if !account.contents.Pending? && !account.contents.Suspended? {
        return WrongStatus;
      }
      account := account.(contents := Active, version := account.version + 1);
      var ok := StoreUpdate(owner, id, account.contents, account.version);
      return if ok then Ok(account.contents, account.version) else Conflict;
    }

    method Suspend(owner: int, id: int) returns (r: Result)
      modifies this
      ensures rows == old(rows)
      ensures r == if id !in rows || rows[id].owner != owner then NotFound
                   else if rows[id].contents.Active? then Conflict else WrongStatus
    {
      if id !in rows || rows[id].owner != owner {
        return NotFound;
      }
      var account := rows[id];
      if !account.contents.Active? {
        return WrongStatus;
      }
      account := account.(contents := Suspended, version := account.version + 1);
      var ok := StoreUpdate(owner, id, account.contents, account.version);
      return if ok then Ok(account.contents, account.version) else Conflict;
    }
  }
}

/** Settlements: Withdraw creates them, Cancel fails them under the version check. */
module Settlements {
  import opened Common
  import opened OptimisticLock

  datatype Status = Pending | Processing | Completed | Failed

  datatype Amounts = Amounts(total: real, fee: real, net: real)

  type SettlementState = State<Amounts, Status>

  function Charge(amount: real): Amounts { Amounts(amount, amount * 0.01, amount * 0.99) }

  predicate CanCancel(s: Status) { !s.Processing? && !s.Completed? }

  /** `cancels` are the callers inside Cancel; all others are version-checked
      writers that may write any status. */
  datatype World = World(lock: SettlementState, cancels: set<int>)

  datatype Op =
    | Withdraw(id: int, owner: int, amount: real)
    | CancelRead(caller: int, id: int, owner: int)
    | CancelWrite(caller: int)
    | OtherRead(caller: int, id: int, owner: int)
    | OtherWrite(caller: int, status: Status)

  /** The inserted row starts at version 0. */
  function Lower(op: Op): OptimisticLock.Op<Amounts, Status> {
    match op
    case Withdraw(id, owner, amount) => Insert(id, Row(owner, Charge(amount), Pending, 0))
    case CancelRead(p, id, owner) => Read(p, id, owner, 0)
    case CancelWrite(p) => Write(p, Failed)
    case OtherRead(p, id, owner) => Read(p, id, owner, 0)
    case OtherWrite(p, status) => Write(p, status)
  }

  predicate Allowed(w: World, op: Op) {
    && Enabled(w.lock, Lower(op))
    && (op.Withdraw? ==> op.amount > 0.0)
    && (op.CancelRead? ==> CanCancel(w.lock.rows[op.id].contents))
    && (op.CancelWrite? ==> op.caller in w.cancels)
    && (op.OtherWrite? ==> op.caller !in w.cancels)
  }

  function Apply(w: World, op: Op): World
    requires Allowed(w, op)
  {
    World(Step(w.lock, Lower(op)),
          if op.CancelRead? then w.cancels + {op.caller}
          else if op.CancelWrite? then w.cancels - {op.caller} else w.cancels)
  }

  function Run(ops: seq<Op>): Option<World> {
    if ops == [] then Some(World(State(map[], map[], map[], map[]), {}))
    else
      var prev := Run(ops[..|ops| - 1]);
      if prev.Some? && Allowed(prev.value, ops[|ops| - 1]) then Some(Apply(prev.value, ops[|ops| - 1])) else None
  }

  predicate CancelOk(w: World, p: int) {
    p in w.cancels ==> p in w.lock.readers && CanCancel(w.lock.readers[p].row.contents) && w.lock.readers[p].bump == 0
  }

  ghost predicate WorldOk(w: World) {
    && Inv(w.lock)
    && (forall p :: CancelOk(w, p))
    && (forall id :: id in w.lock.rows ==> Split(w.lock.rows[id].fixed))
  }

  /** One percent of a positive total is the fee, and the rest is paid out. */
  predicate Split(a: Amounts) {
    && a.fee + a.net == a.total && 100.0 * a.fee == a.total
    && 0.0 < a.fee < a.net < a.total
  }

  lemma {:induction false} ApplyOk(w: World, op: Op)
    requires WorldOk(w) && Allowed(w, op)
    ensures WorldOk(Apply(w, op))
  {
    StepInv(w.lock, Lower(op));
    forall p ensures CancelOk(Apply(w, op), p) { assert CancelOk(w, p); }
    if op.CancelWrite? || op.OtherWrite? {
      WriteEffect(w.lock, op.caller, Lower(op).contents);
    }
  }

  /** In every run all settlements balance: fee + net = total, and the fee is one
      percent of the total. */
  lemma {:induction false} RunOk(ops: seq<Op>)
    requires Run(ops).Some?
    ensures WorldOk(Run(ops).value)
  {
    if ops != [] {
      RunOk(ops[..|ops| - 1]);
      ApplyOk(Run(ops[..|ops| - 1]).value, ops[|ops| - 1]);
    }
  }

  /** What the supplier withdrew, and what those settlements pay out in the end. */
  function Withdrawn(ops: seq<Op>, owner: int): real {
    if ops == [] then 0.0
    else
      var op := ops[|ops| - 1];
      Withdrawn(ops[..|ops| - 1], owner) + if op.Withdraw? && op.owner == owner then op.amount else 0.0
  }

  function PaidOut(ops: seq<Op>, rows: map<int, Row<Amounts, Status>>, owner: int): real {
    if ops == [] then 0.0
    else
      var op := ops[|ops| - 1];
      PaidOut(ops[..|ops| - 1], rows, owner) +
      if op.Withdraw? && op.id in rows && rows[op.id].owner == owner then rows[op.id].fixed.net else 0.0
  }

  /** No step drops a settlement or changes its owner and amounts. */
  predicate Keeps(rows: map<int, Row<Amounts, Status>>, rows': map<int, Row<Amounts, Status>>) {
    forall id :: id in rows ==> id in rows' && rows'[id].owner == rows[id].owner && rows'[id].fixed == rows[id].fixed
  }

  lemma {:induction false} ApplyKeeps(w: World, op: Op)
    requires WorldOk(w) && Allowed(w, op)
    ensures Keeps(w.lock.rows, Apply(w, op).lock.rows)
    ensures op.Withdraw? ==>
              var rows := Apply(w, op).lock.rows;
              op.id in rows && rows[op.id].owner == op.owner && rows[op.id].fixed.total == op.amount
  {
    if op.CancelWrite? || op.OtherWrite? {
      WriteEffect(w.lock, op.caller, Lower(op).contents);
    }
  }

  /** Every settlement that was ever withdrawn is in the rows. */
  predicate AllThere(ops: seq<Op>, rows: map<int, Row<Amounts, Status>>) {
    forall i :: 0 <= i < |ops| && ops[i].Withdraw? ==>
                  && ops[i].id in rows
                  && rows[ops[i].id].owner == ops[i].owner && rows[ops[i].id].fixed.total == ops[i].amount
  }

  lemma {:induction false} RunKeepsAll(ops: seq<Op>)
    requires Run(ops).Some?
    ensures AllThere(ops, Run(ops).value.lock.rows)
  {
    if ops != [] {
      var init := ops[..|ops| - 1];
      RunKeepsAll(init);
      RunOk(init);
      ApplyKeeps(Run(init).value, ops[|ops| - 1]);
      assert forall i :: 0 <= i < |init| ==> init[i] == ops[i];
    }
  }

  lemma {:induction false} PaidOutIsNinetyNinePercent(ops: seq<Op>, rows: map<int, Row<Amounts, Status>>, owner: int)
    requires AllThere(ops, rows) && forall id :: id in rows ==> Split(rows[id].fixed)
    ensures 100.0 * PaidOut(ops, rows, owner) == 99.0 * Withdrawn(ops, owner)
  {
    if ops != [] {
      var init, op := ops[..|ops| - 1], ops[|ops| - 1];
      assert AllThere(init, rows) by { assert forall i :: 0 <= i < |init| ==> init[i] == ops[i]; }
      PaidOutIsNinetyNinePercent(init, rows, owner);
      assert op == ops[|ops| - 1];
      if op.Withdraw? { assert Split(rows[op.id].fixed); }
    }
  }

  /** Conservation over runs: whatever else was written in between, a supplier's
      settlements pay out 99 percent of all that the supplier withdrew. */
  lemma {:induction false} SuppliersGetNinetyNinePercent(ops: seq<Op>, owner: int)
    requires Run(ops).Some?
    ensures 100.0 * PaidOut(ops, Run(ops).value.lock.rows, owner) == 99.0 * Withdrawn(ops, owner)
  {
    RunOk(ops);
    RunKeepsAll(ops);
    PaidOutIsNinetyNinePercent(ops, Run(ops).value.lock.rows, owner);
  }

  /** Whatever was interleaved, a processing or completed settlement is changed by
      no step but another version-checked writer: no Cancel, however stale its
      read, turns it to failed. */
  lemma {:induction false} CancelNeverOverridesPayment(ops: seq<Op>, op: Op, id: int)
    requires Run(ops).Some? && Allowed(Run(ops).value, op) && !op.OtherWrite?
    requires id in Run(ops).value.lock.rows
    requires var status := Run(ops).value.lock.rows[id].contents; status.Processing? || status.Completed?
    ensures id in Apply(Run(ops).value, op).lock.rows
    ensures Apply(Run(ops).value, op).lock.rows[id] == Run(ops).value.lock.rows[id]
  {
    RunOk(ops);
    var w := Run(ops).value;
    if op.CancelWrite? {
      WriteEffect(w.lock, op.caller, Failed);
      CommitsIff(w.lock, op.caller);
      assert CancelOk(w, op.caller) && ReaderOk(w.lock, op.caller);
    }
  }

  /** A Cancel commits exactly if no other write of the settlement committed since
      its read, and then does what it says: failed, one version up, same amounts. */
  lemma {:induction false} CancelCommitsIffUndisturbed(ops: seq<Op>, p: int)
    requires Run(ops).Some? && p in Run(ops).value.cancels && Allowed(Run(ops).value, CancelWrite(p))
    ensures var w := Run(ops).value;
            var r := w.lock.readers[p];
            && (Commits(w.lock, p) <==> w.lock.commits[r.id] == r.seen)
            && (Commits(w.lock, p) ==>
                  Apply(w, CancelWrite(p)).lock.rows ==
                  w.lock.rows[r.id := r.row.(contents := Failed, version := r.row.version + 1)])
            && (!Commits(w.lock, p) ==> Apply(w, CancelWrite(p)).lock.rows == w.lock.rows)
  {
    RunOk(ops);
    var w := Run(ops).value;
    assert CancelOk(w, p) && ReaderOk(w.lock, p);
    CommitsIff(w.lock, p);
    WriteEffect(w.lock, p, Failed);
  }

  // ---------- the service, uninterrupted ----------

  datatype Result = Ok(id: int) | Rejected(reason: string)

  class SettlementService {
    var rows: map<int, Row<Amounts, Status>>

    constructor ()
      ensures rows == map[]
    {
      rows := map[];
    }

    predicate HasPendingOrProcessing(owner: int)
      reads this
    {
      exists id :: && id in rows && rows[id].owner == owner
                   && (rows[id].contents.Pending? || rows[id].contents.Processing?)
    }

    /** `id` is the key the database assigns; the SMS check and the balance are inputs. */
    method Withdraw(owner: int, amount: real, smsOk: bool, balance: real, id: int) returns (r: Result)
      requires id !in rows
      modifies this
      ensures r.Ok? <==> smsOk && !old(HasPendingOrProcessing(owner)) && 0.0 < amount <= balance
      ensures r.Rejected? ==> rows == old(rows)
      ensures r.Ok? ==> r.id == id && rows == old(rows)[id := Row(owner, Charge(amount), Pending, 0)]
      ensures r.Ok? ==> Split(rows[id].fixed) && rows[id].fixed.total == amount
      ensures r.Ok? ==> 100.0 * rows[id].fixed.fee == amount && 100.0 * rows[id].fixed.net == 99.0 * amount
    {
      if !smsOk {
        return Rejected("invalid sms code");
      }
      if HasPendingOrProcessing(owner) {
        return Rejected("withdraw already processing");
      }
      if amount <= 0.0 {
        return Rejected("withdraw amount must be positive");
      }
      if amount > balance {
        return Rejected("withdraw amount exceeds available balance");
      }
      rows := rows[id := Row(owner, Amounts(amount, amount * 0.01, amount * 0.99), Pending, 0)];
      return Ok(id);
    }

    method Cancel(owner: int, id: int) returns (r: Result)
      modifies this
      ensures r.Ok? <==>
              && id in old(rows) && old(rows)[id].owner == owner
              && !old(rows)[id].contents.Processing? && !old(rows)[id].contents.Completed?
      ensures r.Ok? ==>
                rows == old(rows)[id := old(rows)[id].(contents := Failed, version := old(rows)[id].version + 1)]
      ensures r.Rejected? ==> rows == old(rows)
    {
      if id !in rows || rows[id].owner != owner {
        return Rejected("not found");
      }
      var settlement := rows[id];
      if settlement.contents.Processing? || settlement.contents.Completed? {
        return Rejected("cannot cancel processing or completed settlements");
      }
      var expectedVersion := settlement.version;
      var (updated, ok) := OptimisticLock.Update(rows, id, owner, Failed, expectedVersion);
      if !ok {
        return Rejected("concurrency conflict");
      }
      rows := updated;
      return Ok(id);
    }
  }
}
