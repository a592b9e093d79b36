/** Token status: the registry table, as its SQL statements change it. */
module TokenRegistry {

  datatype Status = Active | Revoked | Expired

  datatype Row = Row(subject: int, status: Status, expiresAt: int)

  type Registry = map<string, Row>

  /** A token without a row counts as active; an active row past its expiry as expired. */
  function GetStatus(db: Registry, token: string, now: int): Status {
    if token !in db then Active
    else if db[token].status.Active? && db[token].expiresAt < now then Expired
    else db[token].status
  }

  function Revoke(db: Registry, token: string): (Registry, bool) {
    if token in db && db[token].status.Active? then (db[token := db[token].(status := Revoked)], true)
    else (db, false)
  }

  function RevokeBySubject(db: Registry, subject: int): Registry {
    map t | t in db :: if db[t].subject == subject && db[t].status.Active? then db[t].(status := Revoked) else db[t]
  }

  function ListActiveBySubject(db: Registry, subject: int, now: int): set<string> {
    set t | t in db && db[t].subject == subject && db[t].status.Active? && db[t].expiresAt > now
  }

  /** token_id is unique: inserting an existing token fails. */
  function Create(db: Registry, token: string, row: Row): Registry {
    if token in db then db else db[token := row]
  }

  function DeleteExpired(db: Registry, before: int): Registry {
    map t | t in db && !(db[t].status.Expired? && db[t].expiresAt < before) :: db[t]
  }

  function DeleteBySubject(db: Registry, subject: int): Registry {
    map t | t in db && db[t].subject != subject :: db[t]
  }
}

/** CheckTokenStatus, RevokeToken, RevokeAndPublish and the subscriber, with
    every cache and database access a separate step that anything may
    interleave with. */
module RevocationProtocol {
  import opened Common
  import opened TokenRegistry

  /** `gap` bounds how long a check may take from its database read to its answer. */
  datatype Config = Config(ttl: int, gap: int)

  /** A cached status; `readAt` is history: when its writer read the database. */
  datatype Entry = Entry(status: Status, readAt: int, writtenAt: int)

  /** A check between its database read and its cache write. */
  datatype Check = Check(token: string, status: Status, readAt: int)

  /** A revocation between its statements. */
  datatype Phase = RowRevoked | Invalidated | Unpublished

  datatype Revocation = Revocation(token: string, phase: Phase)

  datatype Answer = Answer(token: string, status: Status, time: int)

  datatype Snapshot = Snapshot(time: int, db: Registry)

  /** `history` and `answers` are history variables: every past database and reply. */
  datatype State = State(
    now: int, db: Registry, cache: map<string, Entry>, channel: multiset<string>,
    checks: map<int, Check>, revocations: map<int, Revocation>,
    history: seq<Snapshot>, answers: seq<Answer>)

  datatype Op =
    | Tick(elapsed: nat)
    | CacheHit(token: string)
    | ReadDatabase(check: int, token: string)
    | WriteCache(check: int, ok: bool)
    | RevokeRow(revocation: int, token: string)
    | InvalidateAfterRevoke(revocation: int, ok: bool)
    | Publish(revocation: int, ok: bool)
    | FallbackInvalidate(revocation: int, ok: bool)
    | Deliver(token: string, ok: bool)
    | Lose(token: string)
    | RevokeLocalOnly(token: string, ok: bool)
    | OtherWriter(db: Registry)

  predicate IsLive(c: Config, s: State, token: string) {
    token in s.cache && s.now < s.cache[token].writtenAt + c.ttl
  }

  predicate Enabled(c: Config, s: State, op: Op) {
    match op
    case Tick(_) => true
    case CacheHit(token) => IsLive(c, s, token)
    case ReadDatabase(p, _) => p !in s.checks
    case WriteCache(p, _) => p in s.checks && s.now - s.checks[p].readAt <= c.gap
    case RevokeRow(p, token) => p !in s.revocations
    case InvalidateAfterRevoke(p, _) => p in s.revocations && s.revocations[p].phase.RowRevoked?
    case Publish(p, _) => p in s.revocations && s.revocations[p].phase.Invalidated?
    case FallbackInvalidate(p, _) => p in s.revocations && s.revocations[p].phase.Unpublished?
    case Deliver(token, _) => token in s.channel
    case Lose(token) => token in s.channel
    case RevokeLocalOnly(_, _) => true
    case OtherWriter(_) => true
  }

  /** The step's effect on everything but the history. */
  function Effect(c: Config, s: State, op: Op): State
    requires Enabled(c, s, op)
  {
    match op
    case Tick(elapsed) => s.(now := s.now + elapsed)
    case CacheHit(token) => s.(answers := s.answers + [Answer(token, s.cache[token].status, s.now)])
    case ReadDatabase(p, token) => s.(checks := s.checks[p := Check(token, GetStatus(s.db, token, s.now), s.now)])
    case WriteCache(p, ok) =>
      var check := s.checks[p];
      s.(cache := if ok then s.cache[check.token := Entry(check.status, check.readAt, s.now)] else s.cache,
         checks := s.checks - {p},
         answers := s.answers + [Answer(check.token, check.status, s.now)])
    case RevokeRow(p, token) =>
      var (db, ok) := Revoke(s.db, token);
      if ok then s.(db := db, revocations := s.revocations[p := Revocation(token, RowRevoked)]) else s
    case InvalidateAfterRevoke(p, ok) =>
      var r := s.revocations[p];
      s.(cache := if ok then s.cache - {r.token} else s.cache,
         revocations := s.revocations[p := r.(phase := Invalidated)])
    case Publish(p, ok) =>
      var r := s.revocations[p];
      if ok then s.(channel := s.channel + multiset{r.token}, revocations := s.revocations - {p})
      else s.(revocations := s.revocations[p := r.(phase := Unpublished)])
    case FallbackInvalidate(p, ok) =>
      s.(cache := if ok then s.cache - {s.revocations[p].token} else s.cache, revocations := s.revocations - {p})
    case Deliver(token, ok) =>
      s.(channel := s.channel - multiset{token}, cache := if ok then s.cache - {token} else s.cache)
    case Lose(token) => s.(channel := s.channel - multiset{token})
    case RevokeLocalOnly(token, ok) => s.(cache := if ok then s.cache - {token} else s.cache)
    case OtherWriter(db) => s.(db := db)
  }

  function Apply(c: Config, s: State, op: Op): State
    requires Enabled(c, s, op)
  {
    var s' := Effect(c, s, op);
    s'.(history := s.history + [Snapshot(s'.now, s'.db)])
  }

  function Start(now: int, db: Registry): State {
    State(now, db, map[], multiset{}, map[], map[], [Snapshot(now, db)], [])
  }

  /** The state a run ends in; `None` once a step is not enabled. */
  function Run(c: Config, s: State, ops: seq<Op>): Option<State> {
    if ops == [] then Some(s)
    else
      var prev := Run(c, s, ops[..|ops| - 1]);
      if prev.Some? && Enabled(c, prev.value, ops[|ops| - 1]) then Some(Apply(c, prev.value, ops[|ops| - 1])) else None
  }

  // ---------- bounded staleness ----------

  predicate SaidAt(snap: Snapshot, token: string, status: Status, time: int) {
    snap.time == time && GetStatus(snap.db, token, time) == status
  }

  /** At `time` the database gave `status` for `token`. */
  predicate DatabaseSaid(history: seq<Snapshot>, token: string, status: Status, time: int) {
    exists i :: 0 <= i < |history| && SaidAt(history[i], token, status, time)
  }

  /** The answer was the database's own at some moment less than ttl + gap ago. */
  predicate IsFresh(c: Config, history: seq<Snapshot>, a: Answer) {
    exists time :: a.time - c.ttl - c.gap < time <= a.time && DatabaseSaid(history, a.token, a.status, time)
  }

  predicate EntryOk(c: Config, s: State, token: string) {
    token in s.cache ==>
      var e := s.cache[token];
      && e.readAt <= e.writtenAt <= s.now && e.writtenAt - e.readAt <= c.gap
      && DatabaseSaid(s.history, token, e.status, e.readAt)
  }

  predicate CheckOk(s: State, p: int) {
    p in s.checks ==>
      s.checks[p].readAt <= s.now && DatabaseSaid(s.history, s.checks[p].token, s.checks[p].status, s.checks[p].readAt)
  }

  ghost predicate Inv(c: Config, s: State) {
    && |s.history| > 0 && s.history[|s.history| - 1] == Snapshot(s.now, s.db)
    && (forall i :: 0 <= i < |s.history| ==> s.history[i].time <= s.now)
    && (forall token :: EntryOk(c, s, token))
    && (forall p :: CheckOk(s, p))
    && (forall i :: 0 <= i < |s.answers| ==> IsFresh(c, s.history, s.answers[i]))
  }

  lemma {:induction false} SaidForever(history: seq<Snapshot>, snap: Snapshot, token: string, status: Status, time: int)
    requires DatabaseSaid(history, token, status, time)
    ensures DatabaseSaid(history + [snap], token, status, time)
  {
    var i :| 0 <= i < |history| && SaidAt(history[i], token, status, time);
    assert (history + [snap])[i] == history[i];
  }

  lemma {:induction false} FreshForever(c: Config, history: seq<Snapshot>, snap: Snapshot, a: Answer)
    requires IsFresh(c, history, a)
    ensures IsFresh(c, history + [snap], a)
  {
    var time :| a.time - c.ttl - c.gap < time <= a.time && DatabaseSaid(history, a.token, a.status, time);
    SaidForever(history, snap, a.token, a.status, time);
  }

  lemma {:induction false} AnswersFresh(c: Config, s: State, op: Op)
    requires c.ttl > 0 && c.gap >= 0 && Inv(c, s) && Enabled(c, s, op)
    ensures forall i :: 0 <= i < |Apply(c, s, op).answers| ==>
                          IsFresh(c, Apply(c, s, op).history, Apply(c, s, op).answers[i])
  {
    var s' := Apply(c, s, op);
    forall i | 0 <= i < |s'.answers| ensures IsFresh(c, s'.history, s'.answers[i]) {
      if i < |s.answers| {
        assert s'.answers[i] == s.answers[i];
      } else {
        var a := s'.answers[i];
        var readAt;
        if op.CacheHit? {
          assert EntryOk(c, s, op.token);
          readAt := s.cache[op.token].readAt;
        } else {
          assert CheckOk(s, op.check);
          readAt := s.checks[op.check].readAt;
        }
        assert DatabaseSaid(s.history, a.token, a.status, readAt);
        assert a.time - c.ttl - c.gap < readAt <= a.time;
      }
      FreshForever(c, s.history, Snapshot(s'.now, s'.db), s'.answers[i]);
    }
  }

  lemma {:induction false} EntriesOk(c: Config, s: State, op: Op, token: string)
    requires c.ttl > 0 && Inv(c, s) && Enabled(c, s, op)
    ensures EntryOk(c, Apply(c, s, op), token)
  {
    var s' := Apply(c, s, op);
    if token in s'.cache {
      var e := s'.cache[token];
      if token in s.cache && e == s.cache[token] {
        assert EntryOk(c, s, token);
      } else {
        assert CheckOk(s, op.check);
      }
      SaidForever(s.history, Snapshot(s'.now, s'.db), token, e.status, e.readAt);
    }
  }

  lemma {:induction false} ChecksOk(c: Config, s: State, op: Op, p: int)
    requires Inv(c, s) && Enabled(c, s, op)
    ensures CheckOk(Apply(c, s, op), p)
  {
    var s' := Apply(c, s, op);
    if p in s'.checks {
      var check := s'.checks[p];
      if p in s.checks && check == s.checks[p] {
        assert CheckOk(s, p);
      } else {
        assert SaidAt(s.history[|s.history| - 1], check.token, check.status, check.readAt);
      }
      SaidForever(s.history, Snapshot(s'.now, s'.db), check.token, check.status, check.readAt);
    }
  }

  lemma {:induction false} StepInv(c: Config, s: State, op: Op)
    requires c.ttl > 0 && c.gap >= 0 && Inv(c, s) && Enabled(c, s, op)
    ensures Inv(c, Apply(c, s, op))
  {
    AnswersFresh(c, s, op);
    forall token ensures EntryOk(c, Apply(c, s, op), token) { EntriesOk(c, s, op, token); }
    forall p ensures CheckOk(Apply(c, s, op), p) { ChecksOk(c, s, op, p); }
  }

  /** Staleness is bounded: in every interleaving, with any other database
      writers, each answer was the database's own less than ttl + gap earlier. */
  lemma {:induction false} StalenessBounded(c: Config, s: State, ops: seq<Op>)
    requires c.ttl > 0 && c.gap >= 0 && Inv(c, s) && Run(c, s, ops).Some?
    ensures Inv(c, Run(c, s, ops).value)
    ensures forall i :: 0 <= i < |Run(c, s, ops).value.answers| ==>
                          IsFresh(c, Run(c, s, ops).value.history, Run(c, s, ops).value.answers[i])
  {
    if ops != [] {
      var init := ops[..|ops| - 1];
      StalenessBounded(c, s, init);
      StepInv(c, Run(c, s, init).value, ops[|ops| - 1]);
    }
  }

  lemma {:induction false} StartInv(c: Config, now: int, db: Registry)
    ensures Inv(c, Start(now, db))
  {
  }

  // ---------- revocation ----------

  predicate IsRevoked(db: Registry, token: string) {
    token in db && db[token].status.Revoked?
  }

  /** Nothing un-revokes the token: other writers leave its row revoked. */
  predicate KeepsRevoked(op: Op, token: string) {
    op.OtherWriter? ==> IsRevoked(op.db, token)
  }

  lemma {:induction false} StepKeepsRevoked(c: Config, s: State, op: Op, token: string)
    requires Enabled(c, s, op) && IsRevoked(s.db, token) && KeepsRevoked(op, token)
    ensures IsRevoked(Apply(c, s, op).db, token)
    ensures Apply(c, s, op).history == s.history + [Snapshot(Apply(c, s, op).now, Apply(c, s, op).db)]
  {
  }

  lemma {:induction false} RevokedStays(c: Config, s: State, ops: seq<Op>, token: string)
    requires Run(c, s, ops).Some? && |s.history| > 0 && s.history[|s.history| - 1] == Snapshot(s.now, s.db)
    requires IsRevoked(s.db, token) && forall i :: 0 <= i < |ops| ==> KeepsRevoked(ops[i], token)
    ensures var s' := Run(c, s, ops).value;
            && IsRevoked(s'.db, token)
            && s.history <= s'.history
            && (forall i :: |s.history| - 1 <= i < |s'.history| ==> IsRevoked(s'.history[i].db, token))
  {
    if ops != [] {
      var init, op := ops[..|ops| - 1], ops[|ops| - 1];
      RevokedStays(c, s, init, token);
      assert KeepsRevoked(op, token);
      StepKeepsRevoked(c, Run(c, s, init).value, op, token);
    }
  }

  /** Once the row is revoked, and stays so, no check of any kind answers
      "active" at or after ttl + gap later, whether or not the invalidation,
      the event and its delivery succeed. */
  lemma {:induction false} RevocationPropagates(c: Config, s: State, ops: seq<Op>, token: string, j: nat)
    requires c.ttl > 0 && c.gap >= 0 && Inv(c, s) && Run(c, s, ops).Some?
    requires IsRevoked(s.db, token) && forall i :: 0 <= i < |ops| ==> KeepsRevoked(ops[i], token)
    requires j < |Run(c, s, ops).value.answers|
    requires var a := Run(c, s, ops).value.answers[j]; a.token == token && a.status.Active?
    ensures Run(c, s, ops).value.answers[j].time < s.now + c.ttl + c.gap
  {
    StalenessBounded(c, s, ops);
    RevokedStays(c, s, ops, token);
    var s' := Run(c, s, ops).value;
    var a := s'.answers[j];
    var time :| a.time - c.ttl - c.gap < time <= a.time && DatabaseSaid(s'.history, token, Active, time);
    var i :| 0 <= i < |s'.history| && SaidAt(s'.history[i], token, Active, time);
    assert i < |s.history| && s'.history[i] == s.history[i];
  }

  // ---------- expiry ----------

  /** The token has a row that expires at `e`. */
  predicate HasExpiry(db: Registry, token: string, e: int) {
    token in db && db[token].expiresAt == e
  }

  predicate KeepsExpiry(op: Op, token: string, e: int) {
    op.OtherWriter? ==> HasExpiry(op.db, token, e)
  }

  lemma {:induction false} ExpiryStays(c: Config, s: State, ops: seq<Op>, token: string, e: int)
    requires Run(c, s, ops).Some? && |s.history| > 0 && s.history[|s.history| - 1] == Snapshot(s.now, s.db)
    requires HasExpiry(s.db, token, e) && forall i :: 0 <= i < |ops| ==> KeepsExpiry(ops[i], token, e)
    ensures var s' := Run(c, s, ops).value;
            && HasExpiry(s'.db, token, e)
            && s.history <= s'.history
            && (forall i :: |s.history| - 1 <= i < |s'.history| ==> HasExpiry(s'.history[i].db, token, e))
  {
    if ops != [] {
      var init, op := ops[..|ops| - 1], ops[|ops| - 1];
      ExpiryStays(c, s, init, token, e);
      assert KeepsExpiry(op, token, e);
      StepKeepsExpiry(c, Run(c, s, init).value, op, token, e);
    }
  }

  lemma {:induction false} StepKeepsExpiry(c: Config, s: State, op: Op, token: string, e: int)
    requires Enabled(c, s, op) && HasExpiry(s.db, token, e) && KeepsExpiry(op, token, e)
    ensures HasExpiry(Apply(c, s, op).db, token, e)
    ensures Apply(c, s, op).history == s.history + [Snapshot(Apply(c, s, op).now, Apply(c, s, op).db)]
  {
  }

  /** While a row that expires at `e` stays in the table, no check answers "active"
      ttl + gap or more after both the expiry and the moment the row was there. */
  lemma {:induction false} ExpiryPropagates(c: Config, s: State, ops: seq<Op>, token: string, e: int, j: nat)
    requires c.ttl > 0 && c.gap >= 0 && Inv(c, s) && Run(c, s, ops).Some?
    requires HasExpiry(s.db, token, e) && forall i :: 0 <= i < |ops| ==> KeepsExpiry(ops[i], token, e)
    requires j < |Run(c, s, ops).value.answers|
    requires var a := Run(c, s, ops).value.answers[j]; a.token == token && a.status.Active?
    ensures var at := Run(c, s, ops).value.answers[j].time; at < e + c.ttl + c.gap || at < s.now + c.ttl + c.gap
  {
    StalenessBounded(c, s, ops);
    ExpiryStays(c, s, ops, token, e);
    var s' := Run(c, s, ops).value;
    var a := s'.answers[j];
    var time :| a.time - c.ttl - c.gap < time <= a.time && DatabaseSaid(s'.history, token, Active, time);
    var i :| 0 <= i < |s'.history| && SaidAt(s'.history[i], token, Active, time);
    if i < |s.history| {
      assert s'.history[i] == s.history[i];
    } else {
      assert HasExpiry(s'.history[i].db, token, e);
    }
  }

  lemma {:induction false} RunSnoc(c: Config, s: State, ops: seq<Op>, op: Op)
    requires Run(c, s, ops).Some? && Enabled(c, Run(c, s, ops).value, op)
    ensures Run(c, s, ops + [op]) == Some(Apply(c, Run(c, s, ops).value, op))
  {
    assert (ops + [op])[..|ops|] == ops;
  }

  /** The fields of a state that later steps look at. */
  predicate Looks(s: State, now: int, cache: map<string, Entry>, checks: map<int, Check>,
                  revocations: map<int, Revocation>, channel: multiset<string>)
  {
    s.now == now && s.cache == cache && s.checks == checks && s.revocations == revocations && s.channel == channel
  }

  lemma {:induction false} ReadThenRevoke(c: Config, s0: State, token: string) returns (ops: seq<Op>)
    requires s0 == Start(0, map[token := Row(1, Active, 0)])
    ensures var s := Run(c, s0, ops);
            && s.Some? && IsRevoked(s.value.db, token)
            && Looks(s.value, 0, map[], map[0 := Check(token, Active, 0)], map[0 := Revocation(token, RowRevoked)],
                     multiset{})
  {
    ops := [];
    RunSnoc(c, s0, ops, ReadDatabase(0, token)); ops := ops + [ReadDatabase(0, token)];
    assert Looks(Run(c, s0, ops).value, 0, map[], map[0 := Check(token, Active, 0)], map[], multiset{});
    RunSnoc(c, s0, ops, RevokeRow(0, token)); ops := ops + [RevokeRow(0, token)];
  }

  lemma {:induction false} RevokeToTheEnd(c: Config, s0: State, token: string) returns (ops: seq<Op>)
    requires s0 == Start(0, map[token := Row(1, Active, 0)])
    ensures var s := Run(c, s0, ops);
            && s.Some? && IsRevoked(s.value.db, token)
            && Looks(s.value, 0, map[], map[0 := Check(token, Active, 0)], map[], multiset{})
  {
    ops := ReadThenRevoke(c, s0, token);
    var checks := map[0 := Check(token, Active, 0)];
    RunSnoc(c, s0, ops, InvalidateAfterRevoke(0, true)); ops := ops + [InvalidateAfterRevoke(0, true)];
    assert Looks(Run(c, s0, ops).value, 0, map[], checks, map[0 := Revocation(token, Invalidated)], multiset{});
    RunSnoc(c, s0, ops, Publish(0, true)); ops := ops + [Publish(0, true)];
    assert Looks(Run(c, s0, ops).value, 0, map[], checks, map[], multiset{token});
    RunSnoc(c, s0, ops, Deliver(token, true)); ops := ops + [Deliver(token, true)];
  }

  /** A check that read the row, was overtaken by a complete, successful
      revocation at the same moment, and then wrote its stale status. */
  lemma {:induction false} LateWrite(c: Config, s0: State, token: string) returns (ops: seq<Op>)
    requires c.gap >= 0 && s0 == Start(0, map[token := Row(1, Active, 0)])
    ensures var s := Run(c, s0, ops);
            && s.Some? && IsRevoked(s.value.db, token)
            && Looks(s.value, c.gap, map[token := Entry(Active, 0, c.gap)], map[], map[], multiset{})
  {
    ops := RevokeToTheEnd(c, s0, token);
    RunSnoc(c, s0, ops, Tick(c.gap)); ops := ops + [Tick(c.gap)];
    assert Looks(Run(c, s0, ops).value, c.gap, map[], map[0 := Check(token, Active, 0)], map[], multiset{});
    RunSnoc(c, s0, ops, WriteCache(0, true)); ops := ops + [WriteCache(0, true)];
  }

  /** The bound is tight for every ttl and gap: "active" is still answered one
      tick before it, although the revocation succeeded at time 0. */
  lemma {:induction false} PropagationBoundIsTight(c: Config, token: string) returns (ops: seq<Op>)
    requires c.ttl > 0 && c.gap >= 0
    ensures var s := Run(c, Start(0, map[token := Row(1, Active, 0)]), ops);
            s.Some? && IsRevoked(s.value.db, token) && Answer(token, Active, c.ttl + c.gap - 1) in s.value.answers
  {
    var s0 := Start(0, map[token := Row(1, Active, 0)]);
    ops := LateWrite(c, s0, token);
    RunSnoc(c, s0, ops, Tick(c.ttl - 1)); ops := ops + [Tick(c.ttl - 1)];
    RunSnoc(c, s0, ops, CacheHit(token)); ops := ops + [CacheHit(token)];
    var s := Run(c, s0, ops).value;
    assert s.answers[|s.answers| - 1] == Answer(token, Active, c.ttl + c.gap - 1);
  }
}

/** The same backend when each call runs without interruption. */
module TokenStatusBackend {
  import opened Common
  import opened TokenRegistry

  /** A cached status; without `until` it never expires. */
  datatype Cached = Cached(status: Status, until: Option<int>)

  datatype State = State(db: Registry, cache: map<string, Cached>)

  /** What a configured TTL of zero becomes. */
  const DEFAULT_TTL := 10

  /** When an entry written now expires; a TTL that is not positive sets no expiry. */
  function Expiry(ttl: int, now: int): Option<int> { if ttl > 0 then Some(now + ttl) else None }

  predicate ExpiresBy(entry: Cached, now: int) { entry.until.Some? && entry.until.value <= now }

  /** Which of a check's calls succeed: reading the cache, reading the table,
      writing the cache.  A backend without a cache fails the first and the last. */
  datatype Calls = Calls(cacheRead: bool, dbRead: bool, cacheWrite: bool)

  predicate IsLive(s: State, token: string, now: int) {
    token in s.cache && !ExpiresBy(s.cache[token], now)
  }

  /** `None` is the error that a failing table read gives. */
  function CheckStep(ttl: int, s: State, token: string, now: int, calls: Calls): (State, Option<Status>) {
    if calls.cacheRead && IsLive(s, token, now) then (s, Some(s.cache[token].status))
    else if !calls.dbRead then (s, None)
    else
      var status := GetStatus(s.db, token, now);
      (if calls.cacheWrite then s.(cache := s.cache[token := Cached(status, Expiry(ttl, now))]) else s, Some(status))
  }

  /** A failing invalidation is swallowed. */
  function RevokeStep(s: State, token: string, dbOk: bool, invalidated: bool): (State, bool) {
    var (db, ok) := Revoke(s.db, token);
    if dbOk && ok then (State(db, if invalidated then s.cache - {token} else s.cache), true) else (s, false)
  }

  /** The calls of RevokeBySubjectID: `kept` are the tokens whose invalidation fails. */
  datatype SubjectCalls = SubjectCalls(list: bool, update: bool, kept: set<string>)

  function RevokeSubjectStep(s: State, subject: int, now: int, calls: SubjectCalls): (State, bool) {
    if !calls.update then (s, false)
    else
      var listed := if calls.list then ListActiveBySubject(s.db, subject, now) else {};
      (State(RevokeBySubject(s.db, subject), s.cache - (listed - calls.kept)), true)
  }

  datatype Op =
    | CheckOp(token: string, now: int, calls: Calls)
    | RevokeOp(token: string, now: int, dbOk: bool, invalidated: bool)
    | RevokeSubjectOp(subject: int, now: int, subjectCalls: SubjectCalls)
    | CreateOp(token: string, row: Row, now: int)
    | DeleteExpiredOp(now: int)
    | DeleteSubjectOp(subject: int, now: int)

  function Step(ttl: int, s: State, op: Op): State {
    match op
    case CheckOp(token, now, calls) => CheckStep(ttl, s, token, now, calls).0
    case RevokeOp(token, _, dbOk, invalidated) => RevokeStep(s, token, dbOk, invalidated).0
    case RevokeSubjectOp(subject, now, calls) => RevokeSubjectStep(s, subject, now, calls).0
    case CreateOp(token, row, _) => s.(db := Create(s.db, token, row))
    case DeleteExpiredOp(now) => s.(db := DeleteExpired(s.db, now))
    case DeleteSubjectOp(subject, _) => s.(db := DeleteBySubject(s.db, subject))
  }

  function Run(ttl: int, s: State, ops: seq<Op>): State {
    if ops == [] then s else Step(ttl, Run(ttl, s, ops[..|ops| - 1]), ops[|ops| - 1])
  }

  predicate Deletes(ops: seq<Op>, subject: int) {
    exists i :: 0 <= i < |ops| && ops[i].DeleteSubjectOp? && ops[i].subject == subject
  }

  lemma {:induction false} DeletesPrefix(ops: seq<Op>, subject: int)
    requires ops != []
    ensures Deletes(ops, subject) <==>
            Deletes(ops[..|ops| - 1], subject) || (ops[|ops| - 1].DeleteSubjectOp? && ops[|ops| - 1].subject == subject)
  {
    var init := ops[..|ops| - 1];
    if Deletes(init, subject) {
      var i :| 0 <= i < |init| && init[i].DeleteSubjectOp? && init[i].subject == subject;
      assert ops[i] == init[i];
    }
    if Deletes(ops, subject) {
      var i :| 0 <= i < |ops| && ops[i].DeleteSubjectOp? && ops[i].subject == subject;
      assert i == |ops| - 1 || ops[i] == init[i];
    }
  }

  /** The token is settled as revoked: in its row, and cached as active only by
      the entry that the revocation found. */
  predicate Settled(s: State, token: string, subject: int, found: map<string, Cached>) {
    && token in s.db && s.db[token].status.Revoked? && s.db[token].subject == subject
    && (token in s.cache && s.cache[token].status.Active? ==> token in found && s.cache[token] == found[token])
  }

  lemma {:induction false} StaysSettled(ttl: int, s: State, ops: seq<Op>, token: string, subject: int,
                                        found: map<string, Cached>)
    requires Settled(s, token, subject, found) && !Deletes(ops, subject)
    ensures Settled(Run(ttl, s, ops), token, subject, found)
  {
    if ops != [] {
      DeletesPrefix(ops, subject);
      StaysSettled(ttl, s, ops[..|ops| - 1], token, subject, found);
    }
  }

  /** With atomic calls, in any run that does not delete the subject's rows and
      whatever calls fail in it: after a successful RevokeToken a check answers
      "active" only if the invalidation failed and the entry it left behind is
      live; and right after it, exactly then. */
  lemma {:induction false} NoActiveAfterRevoke(ttl: int, s: State, token: string, invalidated: bool, ops: seq<Op>,
                                               now: int, calls: Calls)
    requires RevokeStep(s, token, true, invalidated).1 && !Deletes(ops, s.db[token].subject)
    ensures var after := Run(ttl, RevokeStep(s, token, true, invalidated).0, ops);
            var active := CheckStep(ttl, after, token, now, calls).1 == Some(Active);
            var left := !invalidated && IsLive(s, token, now) && s.cache[token].status.Active?;
            && (active ==> left)
            && (ops == [] && calls.cacheRead && left ==> active)
  {
    var revoked := RevokeStep(s, token, true, invalidated).0;
    StaysSettled(ttl, revoked, ops, token, s.db[token].subject, revoked.cache);
  }

  // ---------- what a check answers ----------

  /** A check that misses the cache answers "active" exactly for an absent row or an
      active one not past its expiry, and "expired" for an active one past it. */
  lemma {:induction false} MissIsExact(ttl: int, s: State, token: string, now: int, calls: Calls)
    requires calls.dbRead && !(calls.cacheRead && IsLive(s, token, now))
    ensures var r := CheckStep(ttl, s, token, now, calls).1;
            && (r == Some(Active) <==> token in s.db ==> s.db[token].status.Active? && now <= s.db[token].expiresAt)
            && (r == Some(Expired) <==>
                && token in s.db
                && (s.db[token].status.Expired? || (s.db[token].status.Active? && s.db[token].expiresAt < now)))
            && (r == Some(Revoked) <==> token in s.db && s.db[token].status.Revoked?)
  {
  }

  /** And what it cached is the answer for exactly ttl seconds, whatever happens to
      the table meanwhile. */
  lemma {:induction false} AnswerIsCached(ttl: int, s: State, token: string, t: int, db: Registry, now: int)
    requires ttl > 0 && !IsLive(s, token, t) && t <= now
    ensures var calls := Calls(true, true, true);
            var (s', answer) := CheckStep(ttl, s, token, t, calls);
            CheckStep(ttl, s'.(db := db), token, now, calls).1 ==
            if now < t + ttl then answer else Some(GetStatus(db, token, now))
  {
  }

  /** Any cached "active" was read by `e`. */
  predicate ActiveUntil(ttl: int, s: State, token: string, e: int) {
    token in s.cache && s.cache[token].status.Active? ==> ExpiresBy(s.cache[token], e + ttl)
  }

  lemma {:induction false} RunActiveUntil(ttl: int, s: State, ops: seq<Op>, token: string, subject: int, e: int)
    requires ttl > 0 && token in s.db && s.db[token].expiresAt == e && s.db[token].subject == subject
    requires !s.db[token].status.Expired? && ActiveUntil(ttl, s, token, e) && !Deletes(ops, subject)
    ensures var s' := Run(ttl, s, ops);
            && token in s'.db && s'.db[token].expiresAt == e && s'.db[token].subject == subject
            && !s'.db[token].status.Expired? && ActiveUntil(ttl, s', token, e)
  {
    if ops != [] {
      DeletesPrefix(ops, subject);
      RunActiveUntil(ttl, s, ops[..|ops| - 1], token, subject, e);
    }
  }

  /** For a positive TTL, from a cache without a later "active": while the subject's
      rows are not deleted, no check answers "active" ttl seconds after the row's
      expiry or later, whatever calls fail. */
  lemma {:induction false} NoActiveAfterExpiry(ttl: int, s: State, token: string, ops: seq<Op>, now: int, calls: Calls)
    requires ttl > 0 && token in s.db && !s.db[token].status.Expired?
    requires ActiveUntil(ttl, s, token, s.db[token].expiresAt) && !Deletes(ops, s.db[token].subject)
    requires s.db[token].expiresAt + ttl <= now
    ensures CheckStep(ttl, Run(ttl, s, ops), token, now, calls).1 != Some(Active)
  {
    RunActiveUntil(ttl, s, ops, token, s.db[token].subject, s.db[token].expiresAt);
  }

  /** A row stored as expired is another matter: once DeleteExpired has removed it,
      the token reads "active". */
  lemma {:induction false} ExpiredRowForgotten(ttl: int, s: State, token: string, at: int, now: int, calls: Calls)
    requires token in s.db && calls.dbRead && !IsLive(s, token, now)
    ensures CheckStep(ttl, Run(ttl, s, [DeleteExpiredOp(at)]), token, now, calls).1 == Some(Active)
            <==> || (s.db[token].status.Expired? && s.db[token].expiresAt < at)
                 || (s.db[token].status.Active? && now <= s.db[token].expiresAt)
  {
    var op := DeleteExpiredOp(at);
    assert [op][..0] == [];
    assert Run(ttl, s, [op]) == Step(ttl, Run(ttl, s, []), op);
  }

  // ---------- when the promise fails ----------

  predicate NeverCreates(ops: seq<Op>, token: string) {
    forall i :: 0 <= i < |ops| && ops[i].CreateOp? ==> ops[i].token != token
  }

  predicate EndsBy(ops: seq<Op>, now: int) {
    forall i :: 0 <= i < |ops| ==> ops[i].now <= now
  }

  /** The row is revoked, or gone for good if its subject's rows were deleted, and
      what the cache holds expires by `until`. */
  predicate Fades(s: State, token: string, subject: int, deleted: bool, until: int) {
    && (if deleted then token !in s.db
        else token in s.db && s.db[token].status.Revoked? && s.db[token].subject == subject)
    && (token in s.cache ==> ExpiresBy(s.cache[token], until))
  }

  lemma {:induction false} RunFades(ttl: int, s: State, ops: seq<Op>, token: string, subject: int, until: int)
    requires ttl > 0 && Fades(s, token, subject, false, until) && NeverCreates(ops, token) && EndsBy(ops, until - ttl)
    ensures Fades(Run(ttl, s, ops), token, subject, Deletes(ops, subject), until)
  {
    if ops != [] {
      DeletesPrefix(ops, subject);
      RunFades(ttl, s, ops[..|ops| - 1], token, subject, until);
    }
  }

  /** Exactly when revocation is forgotten: once the cache has had time to
      expire, which takes a positive TTL, a revoked token is answered "active" again
      if and only if the subject's rows were deleted (an absent row reads as active). */
  lemma {:induction false} ActiveAgainIffRowDeleted(ttl: int, s: State, token: string, invalidated: bool, ops: seq<Op>,
                                                    now: int, calls: Calls)
    requires ttl > 0 && RevokeStep(s, token, true, invalidated).1 && calls.dbRead
    requires NeverCreates(ops, token) && EndsBy(ops, now - ttl) && (invalidated || !IsLive(s, token, now))
    ensures var after := Run(ttl, RevokeStep(s, token, true, invalidated).0, ops);
            CheckStep(ttl, after, token, now, calls).1 == Some(Active)
            <==> Deletes(ops, s.db[token].subject)
  {
    RunFades(ttl, RevokeStep(s, token, true, invalidated).0, ops, token, s.db[token].subject, now);
  }

  /** With any other TTL entries never expire, and one check after the revocation
      fixes the answer for good, deleted rows or not. */
  lemma {:induction false} RevokedForGoodWithoutExpiry(ttl: int, s: State, token: string, seen: int, later: int,
                                                       now: int)
    requires ttl <= 0 && RevokeStep(s, token, true, true).1
    ensures var calls := Calls(true, true, true);
            var ops := [CheckOp(token, seen, calls), DeleteSubjectOp(s.db[token].subject, later)];
            var after := Run(ttl, RevokeStep(s, token, true, true).0, ops);
            token !in after.db && CheckStep(ttl, after, token, now, calls).1 == Some(Revoked)
  {
    var revoked := RevokeStep(s, token, true, true).0;
    var check := CheckOp(token, seen, Calls(true, true, true));
    var delete := DeleteSubjectOp(s.db[token].subject, later);
    assert [check][..0] == [] && [check, delete][..1] == [check];
    assert Run(ttl, revoked, [check]) == Step(ttl, Run(ttl, revoked, []), check);
  }

  /** RevokeBySubjectID invalidates only the tokens that it listed as unexpired:
      a check right after it still answers "active" exactly for a token whose
      cached "active" is still live and whose row had reached its expiry, or whose
      listing or invalidation failed. */
  lemma {:induction false} RevokeBySubjectMisses(ttl: int, s: State, token: string, subject: int, now: int,
                                                 made: SubjectCalls, calls: Calls)
    requires token in s.db && s.db[token].subject == subject && s.db[token].status.Active?
    requires made.update && calls.cacheRead
    ensures CheckStep(ttl, RevokeSubjectStep(s, subject, now, made).0, token, now, calls).1 == Some(Active)
            <==> && IsLive(s, token, now) && s.cache[token].status.Active?
                 && (s.db[token].expiresAt <= now || !made.list || token in made.kept)
  {
    var s' := RevokeSubjectStep(s, subject, now, made).0;
    assert s'.db[token].status.Revoked?;
    assert token in s'.cache <==>
           token in s.cache && (s.db[token].expiresAt <= now || !made.list || token in made.kept);
  }

  // ---------- the backend itself ----------

  class DBTokenStatusBackend {
    var db: Registry
    var cache: map<string, Cached>
    const ttl: int

    function Value(): State
      reads this
    {
      State(db, cache)
    }

    constructor (db: Registry, cacheTtl: int)
      ensures Value() == State(db, map[]) && ttl == if cacheTtl == 0 then 10 else cacheTtl
    {
      this.db := db;
      cache := map[];
      ttl := if cacheTtl == 0 then DEFAULT_TTL else cacheTtl;
    }

    method CheckTokenStatus(token: string, now: int, calls: Calls) returns (r: Option<Status>)
      modifies this`cache
      ensures (Value(), r) == CheckStep(ttl, old(Value()), token, now, calls)
    {
      if calls.cacheRead && token in cache && (cache[token].until.None? || now < cache[token].until.value) {
        return Some(cache[token].status);
      }
      if !calls.dbRead {
        return None;
      }
      var status := GetStatus(db, token, now);
      if calls.cacheWrite {
        cache := cache[token := Cached(status, if ttl > 0 then Some(now + ttl) else None)];
      }
      return Some(status);
    }

    method RevokeToken(token: string, dbOk: bool, invalidated: bool) returns (ok: bool)
      modifies this
      ensures (Value(), ok) == RevokeStep(old(Value()), token, dbOk, invalidated)
    {
      if !dbOk || token !in db || !db[token].status.Active? {
        return false;
      }
      db := db[token := db[token].(status := Revoked)];
      if invalidated {
        cache := cache - {token};
      }
      return true;
    }

    method RevokeBySubjectID(subject: int, now: int, calls: SubjectCalls) returns (ok: bool)
      modifies this
      ensures (Value(), ok) == RevokeSubjectStep(old(Value()), subject, now, calls)
      ensures db.Keys == old(db).Keys
      ensures forall t :: t in db ==>
                            var row := old(db)[t];
                            if ok && row.subject == subject && row.status.Active? then db[t] == row.(status := Revoked)
                            else db[t] == row
    {
      var listed := if calls.list then ListActiveBySubject(db, subject, now) else {};
      if !calls.update {
        return false;
      }
      var revoked := set t | t in db && db[t].subject == subject && db[t].status.Active?;
      db := RevokeBySubject(db, subject);
      if revoked == {} {
        assert forall t :: t in listed ==> t in revoked;
        assert cache == cache - (listed - calls.kept);
        return true;
      }
      var tokenIds := listed;
      while tokenIds != {}
        invariant db == RevokeBySubject(old(db), subject)
        invariant tokenIds <= listed
        invariant cache == old(cache) - (listed - tokenIds - calls.kept)
      {
        var id :| id in tokenIds;
        tokenIds := tokenIds - {id};
        if id !in calls.kept {
          cache := cache - {id};
        }
      }
      assert listed - tokenIds - calls.kept == listed - calls.kept;
      return true;
    }
  }
}
