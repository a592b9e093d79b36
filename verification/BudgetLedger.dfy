/** Per-user budgets: a running total and a per-model breakdown that must agree. */
module BudgetLedger {
  import opened Common

  /** One entry of user_dict; absent keys are None. */
  datatype Account = Account(
    totalBudget: real, durationDays: Option<int>, lastUpdatedAt: Option<real>,
    currentCost: Option<real>, modelCost: Option<map<string, real>>)

  type Ledger = map<string, Account>

  datatype Duration = Unlimited | Daily | Weekly | Monthly | Yearly | Unsupported

  const SECONDS_IN_A_DAY := 86400.0

  function Days(d: Duration): int {
    match d case Weekly => 7 case Monthly => 28 case Yearly => 365 case _ => 1
  }

  // ---------- operations ----------

  /** An unsupported duration raises an error after the entry has been replaced. */
  function Create(l: Ledger, user: string, budget: real, d: Duration, at: real): Ledger {
    l[user := if d.Unlimited? || d.Unsupported? then Account(budget, None, None, None, None)
              else Account(budget, Some(Days(d)), Some(at), None, None)]
  }

  function Cost(a: Account): real { if a.currentCost.Some? then a.currentCost.value else 0.0 }

  function Models(a: Account): map<string, real> { if a.modelCost.Some? then a.modelCost.value else map[] }

  function Spent(a: Account, model: string): real { if model in Models(a) then Models(a)[model] else 0.0 }

  function Charge(l: Ledger, user: string, model: string, cost: real): Ledger {
    if user !in l then l
    else
      var a := l[user];
      l[user := a.(currentCost := Some(cost + Cost(a)), modelCost := Some(Models(a)[model := cost + Spent(a, model)]))]
  }

  function Cleared(a: Account): Account { a.(currentCost := Some(0.0), modelCost := Some(map[])) }

  function Reset(l: Ledger, user: string): Ledger {
    if user !in l then l else l[user := Cleared(l[user])]
  }

  predicate IsDue(a: Account, now: real) {
    a.durationDays.Some? && a.lastUpdatedAt.Some?
    && now - a.lastUpdatedAt.value >= a.durationDays.value as real * SECONDS_IN_A_DAY
  }

  function ResetOnDuration(l: Ledger, user: string, now: real): Ledger {
    if user in l && IsDue(l[user], now) then l[user := Cleared(l[user]).(lastUpdatedAt := Some(now))] else l
  }

  // ---------- totals of a breakdown ----------

  ghost function Total(m: map<string, real>): real {
    if m == map[] then 0.0
    else
      var k :| k in m;
      m[k] + Total(m - {k})
  }

  /** The total does not depend on the order of summation. */
  lemma {:induction false} TotalPick(m: map<string, real>, k: string)
    requires k in m
    ensures Total(m) == m[k] + Total(m - {k})
    decreases |m|
  {
    var j :| j in m && Total(m) == m[j] + Total(m - {j});
    if j != k {
      TotalPick(m - {j}, k);
      TotalPick(m - {k}, j);
      assert m - {j} - {k} == m - {k} - {j};
    }
  }

  lemma {:induction false} TotalUpdate(m: map<string, real>, k: string, v: real)
    ensures Total(m[k := v]) == Total(m) - (if k in m then m[k] else 0.0) + v
  {
    TotalPick(m[k := v], k);
    if k in m {
      TotalPick(m, k);
      assert m[k := v] - {k} == m - {k};
    } else {
      assert m[k := v] - {k} == m;
    }
  }

  // ---------- runs ----------

  /** A create is called at `now` with the argument created_at = `at`: its default
      is the time the module was imported, so `at` may lie far behind `now`. */
  datatype Op =
    | CreateOp(user: string, budget: real, duration: Duration, at: real, now: real)
    | ChargeOp(user: string, model: string, cost: real)
    | ResetOp(user: string)
    | PeriodicOp(user: string, now: real)

  /** What actually happened to users, in order. */
  datatype Entry =
    | Charged(user: string, model: string, cost: real)
    | Created(user: string)
    | WasReset(user: string)
    | Periodic(user: string, time: real, days: int)

  datatype State = State(ledger: Ledger, log: seq<Entry>)

  function Step(s: State, op: Op): State {
    match op
    case CreateOp(user, budget, d, at, _) => State(Create(s.ledger, user, budget, d, at), s.log + [Created(user)])
    case ChargeOp(user, model, cost) =>
      if user !in s.ledger then s else State(Charge(s.ledger, user, model, cost), s.log + [Charged(user, model, cost)])
    case ResetOp(user) =>
      if user !in s.ledger then s else State(Reset(s.ledger, user), s.log + [WasReset(user)])
    case PeriodicOp(user, now) =>
      if user in s.ledger && IsDue(s.ledger[user], now) then
        State(ResetOnDuration(s.ledger, user, now), s.log + [Periodic(user, now, s.ledger[user].durationDays.value)])
      else s
  }

  function Run(start: Ledger, ops: seq<Op>): State {
    if ops == [] then State(start, []) else Step(Run(start, ops[..|ops| - 1]), ops[|ops| - 1])
  }

  /** The charges since the user's last create or reset, on top of `initial` if
      there was none. */
  function ChargedSince(log: seq<Entry>, user: string, initial: real): real {
    if log == [] then initial
    else
      var e, rest := log[|log| - 1], ChargedSince(log[..|log| - 1], user, initial);
      if e.user != user then rest else if e.Charged? then rest + e.cost else 0.0
  }

  /** The user's last periodic reset. */
  function LastPeriodic(log: seq<Entry>, user: string): Option<real> {
    if log == [] then None
    else
      var e, rest := log[|log| - 1], LastPeriodic(log[..|log| - 1], user);
      if e.user == user && e.Periodic? then Some(e.time) else rest
  }

  /** Each periodic reset comes at least a full duration after the previous one. */
  predicate Spaced(log: seq<Entry>) {
    log == [] ||
    var init, e := log[..|log| - 1], log[|log| - 1];
    && Spaced(init)
    && (e.Periodic? && LastPeriodic(init, e.user).Some? ==>
          e.time - LastPeriodic(init, e.user).value >= e.days as real * 86400.0)
  }

  ghost predicate Balanced(a: Account) { Cost(a) == Total(Models(a)) }

  function InitialCost(start: Ledger, user: string): real { if user in start then Cost(start[user]) else 0.0 }

  ghost predicate UserOk(start: Ledger, s: State, user: string) {
    && (user in s.ledger ==>
          && Balanced(s.ledger[user])
          && Cost(s.ledger[user]) == ChargedSince(s.log, user, InitialCost(start, user)))
    && (user !in s.ledger ==> ChargedSince(s.log, user, 0.0) == 0.0 && user !in start)
  }

  function Seconds(days: int): real { days as real * SECONDS_IN_A_DAY }

  predicate OrderedUpTo(ops: seq<Op>, now: real) {
    ops == [] ||
    var init, op := ops[..|ops| - 1], ops[|ops| - 1];
    if op.CreateOp? || op.PeriodicOp? then op.now <= now && OrderedUpTo(init, op.now) else OrderedUpTo(init, now)
  }

  /** A create does not bring the next periodic reset forward: it starts no new
      duration, or one that does not begin before the last periodic reset, or it
      comes a full duration after that reset anyway. */
  predicate OnTime(s: State, op: Op) {
    op.CreateOp? && !op.duration.Unlimited? && !op.duration.Unsupported? && LastPeriodic(s.log, op.user).Some? ==>
      var last := LastPeriodic(s.log, op.user).value;
      op.at >= last || op.now >= last + Seconds(Days(op.duration))
  }

  predicate CreatesOnTime(start: Ledger, ops: seq<Op>) {
    ops == [] || (CreatesOnTime(start, ops[..|ops| - 1]) && OnTime(Run(start, ops[..|ops| - 1]), ops[|ops| - 1]))
  }

  /** The entry's stamp is no older than the last periodic reset, unless a full
      duration has passed since that reset. */
  predicate StampOk(s: State, user: string, now: real) {
    LastPeriodic(s.log, user).Some? && user in s.ledger
    && s.ledger[user].lastUpdatedAt.Some? && s.ledger[user].durationDays.Some? ==>
      var last := LastPeriodic(s.log, user).value;
      s.ledger[user].lastUpdatedAt.value >= last || now >= last + Seconds(s.ledger[user].durationDays.value)
  }

  lemma {:induction false} LogAppend(log: seq<Entry>, e: Entry, user: string, initial: real)
    ensures ChargedSince(log + [e], user, initial) ==
            if e.user != user then ChargedSince(log, user, initial)
            else if e.Charged? then ChargedSince(log, user, initial) + e.cost else 0.0
    ensures LastPeriodic(log + [e], user) ==
            if e.user == user && e.Periodic? then Some(e.time) else LastPeriodic(log, user)
  {
    assert (log + [e])[..|log|] == log;
  }

  lemma {:induction false} ChargeOk(start: Ledger, s: State, user: string, model: string, cost: real)
    requires UserOk(start, s, user) && user in s.ledger
    ensures UserOk(start, Step(s, ChargeOp(user, model, cost)), user)
  {
    LogAppend(s.log, Charged(user, model, cost), user, InitialCost(start, user));
    TotalUpdate(Models(s.ledger[user]), model, cost + Spent(s.ledger[user], model));
  }

  lemma {:induction false} StepOk(start: Ledger, s: State, op: Op, user: string)
    requires UserOk(start, s, user)
    ensures UserOk(start, Step(s, op), user)
  {
    if op.ChargeOp? && op.user == user {
      if user in s.ledger { ChargeOk(start, s, user, op.model, op.cost); }
    } else if op.user == user {
      ClearOk(start, s, op, user);
    } else if Step(s, op).log != s.log {
      LogAppend(s.log, Step(s, op).log[|s.log|], user, InitialCost(start, user));
      LogAppend(s.log, Step(s, op).log[|s.log|], user, 0.0);
    }
  }

  lemma {:induction false} EmptyIsBalanced(start: Ledger, ledger: Ledger, log: seq<Entry>, e: Entry)
    requires e.user in ledger && Cost(ledger[e.user]) == 0.0 && Models(ledger[e.user]) == map[] && !e.Charged?
    ensures UserOk(start, State(ledger, log + [e]), e.user)
  {
    LogAppend(log, e, e.user, InitialCost(start, e.user));
    assert Total(map[]) == 0.0;
  }

  lemma {:induction false} ClearOk(start: Ledger, s: State, op: Op, user: string)
    requires UserOk(start, s, user) && op.user == user && !op.ChargeOp?
    ensures UserOk(start, Step(s, op), user)
  {
    match op
    case CreateOp(_, budget, d, at, _) =>
      EmptyIsBalanced(start, Create(s.ledger, user, budget, d, at), s.log, Created(user));
    case ResetOp(_) =>
      if user in s.ledger { EmptyIsBalanced(start, Reset(s.ledger, user), s.log, WasReset(user)); }
    case PeriodicOp(_, now) =>
      if user in s.ledger && IsDue(s.ledger[user], now) {
        var entry := Periodic(user, now, s.ledger[user].durationDays.value);
        EmptyIsBalanced(start, ResetOnDuration(s.ledger, user, now), s.log, entry);
      }
  }

  /** The ledger balances: from any balanced start, after any operations, each
      user's current cost is the sum of the per-model costs and the sum of the
      charges since that user's last create or reset. */
  lemma {:induction false} LedgerBalances(start: Ledger, ops: seq<Op>, user: string)
    requires user in start ==> Balanced(start[user])
    ensures UserOk(start, Run(start, ops), user)
  {
    if ops != [] {
      LedgerBalances(start, ops[..|ops| - 1], user);
      StepOk(start, Run(start, ops[..|ops| - 1]), ops[|ops| - 1], user);
    }
  }

  /** The charges for one model since the user's last create or reset. */
  function ModelCharged(log: seq<Entry>, user: string, model: string, initial: real): real {
    if log == [] then initial
    else
      var e, rest := log[|log| - 1], ModelCharged(log[..|log| - 1], user, model, initial);
      if e.user != user then rest
      else if e.Charged? then rest + (if e.model == model then e.cost else 0.0)
      else 0.0
  }

  function InitialSpent(start: Ledger, user: string, model: string): real {
    if user in start then Spent(start[user], model) else 0.0
  }

  /** Model by model: what a user is said to have spent on a model is the sum of the
      charges for that model since the last create or reset. */
  lemma {:induction false} ModelsBalance(start: Ledger, ops: seq<Op>, user: string, model: string)
    ensures var s := Run(start, ops);
            user in s.ledger ==>
              Spent(s.ledger[user], model) == ModelCharged(s.log, user, model, InitialSpent(start, user, model))
  {
    ModelsTracked(start, ops, user, model);
  }

  predicate ModelOk(s: State, user: string, model: string, initial: real) {
    if user in s.ledger then Spent(s.ledger[user], model) == ModelCharged(s.log, user, model, initial)
    else ModelCharged(s.log, user, model, initial) == 0.0 == initial
  }

  lemma {:induction false} ModelsTracked(start: Ledger, ops: seq<Op>, user: string, model: string)
    ensures ModelOk(Run(start, ops), user, model, InitialSpent(start, user, model))
  {
    if ops != [] {
      var init := ops[..|ops| - 1];
      ModelsTracked(start, init, user, model);
      StepModels(Run(start, init), ops[|ops| - 1], user, model, InitialSpent(start, user, model));
    }
  }

  lemma {:induction false} StepModels(s: State, op: Op, user: string, model: string, initial: real)
    requires ModelOk(s, user, model, initial)
    ensures ModelOk(Step(s, op), user, model, initial)
  {
    var log := Step(s, op).log;
    if log != s.log { assert log[..|s.log|] == s.log; }
  }

  lemma {:induction false} StampsKept(start: Ledger, ops: seq<Op>, user: string, now: real)
    requires OrderedUpTo(ops, now) && CreatesOnTime(start, ops)
    ensures StampOk(Run(start, ops), user, now)
  {
    if ops != [] {
      var init, op := ops[..|ops| - 1], ops[|ops| - 1];
      var at := if op.CreateOp? || op.PeriodicOp? then op.now else now;
      StampsKept(start, init, user, at);
      StepKeepsStamp(Run(start, init), op, user, at);
    }
  }

  lemma {:induction false} StepKeepsStamp(s: State, op: Op, user: string, now: real)
    requires StampOk(s, user, now) && OnTime(s, op) && (op.CreateOp? || op.PeriodicOp? ==> op.now == now)
    ensures StampOk(Step(s, op), user, now)
  {
    if Step(s, op).log != s.log {
      LogAppend(s.log, Step(s, op).log[|s.log|], user, 0.0);
    }
  }

  /** If no create brings a reset forward, any two successive periodic resets of a
      user are at least one full duration apart, across creates and all. */
  lemma {:induction false} PeriodicResetsAreSpaced(start: Ledger, ops: seq<Op>, now: real)
    requires OrderedUpTo(ops, now) && CreatesOnTime(start, ops)
    ensures Spaced(Run(start, ops).log)
  {
    if ops != [] {
      var init, op := ops[..|ops| - 1], ops[|ops| - 1];
      var at := if op.CreateOp? || op.PeriodicOp? then op.now else now;
      PeriodicResetsAreSpaced(start, init, at);
      StampsKept(start, init, op.user, at);
      StepSpaced(Run(start, init), op);
    }
  }

  lemma {:induction false} StepSpaced(s: State, op: Op)
    requires Spaced(s.log) && (op.PeriodicOp? ==> StampOk(s, op.user, op.now))
    ensures Spaced(Step(s, op).log)
  {
    var log := Step(s, op).log;
    if log != s.log {
      assert log[..|s.log|] == s.log;
    }
  }

  lemma {:induction false} RunSnoc(start: Ledger, ops: seq<Op>, op: Op)
    ensures Run(start, ops + [op]) == Step(Run(start, ops), op)
  {
    assert (ops + [op])[..|ops|] == ops;
  }

  /** And only then: after a create that does bring it forward, some later walk
      resets the user again less than a full duration after the last reset. */
  lemma {:induction false} BackdatedCreateResetsEarly(start: Ledger, ops: seq<Op>, op: Op) returns (later: real)
    requires op.CreateOp? && OrderedUpTo(ops, op.now) && !OnTime(Run(start, ops), op)
    ensures OrderedUpTo(ops + [op] + [PeriodicOp(op.user, later)], later)
    ensures !Spaced(Run(start, ops + [op] + [PeriodicOp(op.user, later)]).log)
  {
    var s, due := Run(start, ops), op.at + Seconds(Days(op.duration));
    later := if due < op.now then op.now else due;
    var walk := PeriodicOp(op.user, later);
    RunSnoc(start, ops, op);
    RunSnoc(start, ops + [op], walk);
    var s1, s2 := Step(s, op), Step(Step(s, op), walk);
    LogAppend(s.log, Created(op.user), op.user, 0.0);
    assert s2.log == s1.log + [Periodic(op.user, later, Days(op.duration))];
    assert s2.log[..|s1.log|] == s1.log;
    assert (ops + [op])[..|ops|] == ops && (ops + [op] + [walk])[..|ops| + 1] == ops + [op];
  }

  /** The plain case: created_at left to its default, the import time 0.  Two daily
      resets two seconds apart. */
  lemma {:induction false} DefaultCreatedAtResetsEarly(user: string)
    ensures var day := CreateOp(user, 1.0, Daily, 0.0, 0.0);
            var again := CreateOp(user, 1.0, Daily, 0.0, 86401.0);
            var ops := [day] + [PeriodicOp(user, 86400.0)] + [again] + [PeriodicOp(user, 86402.0)];
            && OrderedUpTo(ops, 86402.0)
            && Run(map[], ops).log ==
               [Created(user), Periodic(user, 86400.0, 1), Created(user), Periodic(user, 86402.0, 1)]
  {
    var day, first := CreateOp(user, 1.0, Daily, 0.0, 0.0), PeriodicOp(user, 86400.0);
    var again, second := CreateOp(user, 1.0, Daily, 0.0, 86401.0), PeriodicOp(user, 86402.0);
    RunSnoc(map[], [], day);
    RunSnoc(map[], [day], first);
    RunSnoc(map[], [day] + [first], again);
    RunSnoc(map[], [day] + [first] + [again], second);
    assert [] + [day] == [day];
    var ops := [day, first, again, second];
    assert ops == [day] + [first] + [again] + [second];
    assert ops[..3] == [day, first, again] && ops[..3][..2] == [day, first] && ops[..3][..2][..1] == [day];
    assert OrderedUpTo([day], 86400.0) && OrderedUpTo([day, first], 86401.0);
  }

  // ---------- the manager itself ----------

  datatype Result = Done | KeyError | ValueError

  class BudgetManager {
    var users: Ledger

    constructor (loaded: Ledger)
      ensures users == loaded
    {
      users := loaded;
    }

    method CreateBudget(user: string, budget: real, d: Duration, createdAt: real) returns (r: Result)
      modifies this
      ensures users == Create(old(users), user, budget, d, createdAt)
      ensures d.Unlimited? || d.Unsupported? ==>
                users == old(users)[user := Account(budget, None, None, None, None)]
      ensures !d.Unlimited? && !d.Unsupported? ==>
                var days := if d.Daily? then 1 else if d.Weekly? then 7 else if d.Monthly? then 28 else 365;
                users == old(users)[user := Account(budget, Some(days), Some(createdAt), None, None)]
      ensures r == if d.Unsupported? then ValueError else Done
    {
      users := users[user := Account(budget, None, None, None, None)];
      if d.Unlimited? {
        return Done;
      }
      if d.Unsupported? {
        return ValueError;
      }
      users := users[user := Account(budget, Some(Days(d)), Some(createdAt), None, None)];
      assert users == Create(old(users), user, budget, d, createdAt);
      return Done;
    }

    /** `priced` is the model and its computed cost, or None when neither texts nor
        a completion were given. */
    method UpdateCost(user: string, priced: Option<(string, real)>) returns (r: Result)
      modifies this
      ensures r == if priced.None? then ValueError else if user !in old(users) then KeyError else Done
      ensures users == if priced.Some? then Charge(old(users), user, priced.value.0, priced.value.1) else old(users)
      ensures r.Done? ==>
                var (model, cost) := priced.value;
                && user in users && Cost(users[user]) == Cost(old(users)[user]) + cost
                && forall m :: Spent(users[user], m) == Spent(old(users)[user], m) + if m == model then cost else 0.0
    {
      if priced.None? {
        return ValueError;
      }
      var (model, cost) := priced.value;
      if user !in users {
        return KeyError;
      }
      var a := users[user];
      a := a.(currentCost := Some(cost + (if a.currentCost.Some? then a.currentCost.value else 0.0)));
      if a.modelCost.Some? {
        var before := if model in a.modelCost.value then a.modelCost.value[model] else 0.0;
        a := a.(modelCost := Some(a.modelCost.value[model := cost + before]));
      } else {
        a := a.(modelCost := Some(map[model := cost]));
      }
      users := users[user := a];
      return Done;
    }

    method ResetCost(user: string) returns (r: Result)
      modifies this
      ensures users == Reset(old(users), user) && r == if user in old(users) then Done else KeyError
      ensures r.Done? ==> user in users && Cost(users[user]) == 0.0 && Models(users[user]) == map[]
    {
      if user !in users {
        return KeyError;
      }
      users := users[user := users[user].(currentCost := Some(0.0), modelCost := Some(map[]))];
      return Done;
    }

    method ResetUserOnDuration(user: string, now: real) returns (r: Result)
      modifies this
      ensures users == ResetOnDuration(old(users), user, now)
      ensures r == if user in old(users) && old(users)[user].lastUpdatedAt.Some? && old(users)[user].durationDays.Some?
                   then Done else KeyError
      ensures r.Done? ==>
                var a := old(users)[user];
                if now - a.lastUpdatedAt.value >= 86400.0 * a.durationDays.value as real
                then users == old(users)[user := a.(currentCost := Some(0.0), modelCost := Some(map[]),
                                                    lastUpdatedAt := Some(now))]
                else users == old(users)
    {
      if user !in users || users[user].lastUpdatedAt.None? || users[user].durationDays.None? {
        return KeyError;
      }
      var seconds := users[user].durationDays.value as real * SECONDS_IN_A_DAY;
      if now - users[user].lastUpdatedAt.value >= seconds {
        var _ := ResetCost(user);
        users := users[user := users[user].(lastUpdatedAt := Some(now))];
      }
      return Done;
    }

    /** Every user with a duration is reset if due; no other entry changes.  An
        entry with a duration but no last_updated_at stops the walk with an error. */
    method UpdateBudgetAllUsers(now: real) returns (r: Result)
      modifies this
      ensures users.Keys == old(users).Keys
      ensures r == if forall u :: u in old(users) && old(users)[u].durationDays.Some? ==>
                                    old(users)[u].lastUpdatedAt.Some?
                   then Done else KeyError
      ensures forall u :: u in users ==>
                            || users[u] == ResetOnDuration(old(users), u, now)[u]
                            || (r.KeyError? && users[u] == old(users)[u])
    {
      var todo := users.Keys;
      while todo != {}
        invariant todo <= users.Keys == old(users).Keys
        invariant forall u :: u in todo ==> users[u] == old(users)[u]
        invariant forall u :: u in users.Keys - todo ==> users[u] == ResetOnDuration(old(users), u, now)[u]
        invariant forall u :: u in users.Keys - todo && old(users)[u].durationDays.Some? ==>
                                old(users)[u].lastUpdatedAt.Some?
      {
        var user :| user in todo;
        todo := todo - {user};
        if users[user].durationDays.Some? {
          r := ResetUserOnDuration(user, now);
          if r.KeyError? {
            return;
          }
        }
      }
      return Done;
    }
  }
}
