/** The gateway's in-memory token runtime. */
module TokenRuntime {
  import opened Common

  datatype Status = Active | Expired | Revoked

  datatype Record = Record(
    tokenId: string, accessToken: string, subject: string, role: string, scope: seq<string>,
    issuedAt: nat, expiresAt: nat, status: Status)

  datatype Runtime = Runtime(records: map<string, Record>, tokenToId: map<string, string>)

  datatype Claims = Claims(tokenId: string, subject: string, role: string, scope: seq<string>)

  predicate IsSpace(c: char) {
    c == ' ' || '\t' <= c <= '\r' || c == '\U{85}' || c == '\U{A0}' || c == '\U{1680}' || '\U{2000}' <= c <= '\U{200A}'
    || c == '\U{2028}' || c == '\U{2029}' || c == '\U{202F}' || c == '\U{205F}' || c == '\U{3000}'
  }

  function TrimLeft(s: string): string {
    if s != "" && IsSpace(s[0]) then TrimLeft(s[1..]) else s
  }

  function TrimRight(s: string): string {
    if s != "" && IsSpace(s[|s| - 1]) then TrimRight(s[..|s| - 1]) else s
  }

  function Trim(s: string): string { TrimRight(TrimLeft(s)) }

  // ---------- operations ----------

  predicate IssueAccepted(subject: string, role: string, scope: seq<string>, ttl: int) {
    Trim(subject) != "" && Trim(role) != "" && scope != [] && ttl > 0
  }

  /** `id` and `token` are the random values drawn for this token. */
  function Issue(rt: Runtime, subject: string, role: string, scope: seq<string>, ttl: int, now: nat,
                 id: string, token: string): Runtime
  {
    if !IssueAccepted(subject, role, scope, ttl) then rt
    else
      Runtime(rt.records[id := Record(id, token, subject, role, scope, now, now + ttl, Active)],
              rt.tokenToId[token := id])
  }

  function Verify(rt: Runtime, token: string): Option<Claims> {
    if token !in rt.tokenToId || rt.tokenToId[token] !in rt.records then None
    else
      var r := rt.records[rt.tokenToId[token]];
      Some(Claims(r.tokenId, r.subject, r.role, r.scope))
  }

  /** The zero time means "never expires". */
  function ApplyExpiry(r: Record, now: nat): Record {
    if r.status.Active? && r.expiresAt != 0 && now >= r.expiresAt then r.(status := Expired) else r
  }

  function Resolve(rt: Runtime, id: string, now: nat): (Runtime, Option<Status>) {
    if id !in rt.records then (rt, None)
    else
      var r := ApplyExpiry(rt.records[id], now);
      (rt.(records := rt.records[id := r]), Some(r.status))
  }

  function Revoke(rt: Runtime, id: string): Runtime {
    if id !in rt.records then rt else rt.(records := rt.records[id := rt.records[id].(status := Revoked)])
  }

  // ---------- runs ----------

  datatype Op =
    | IssueOp(subject: string, role: string, scope: seq<string>, ttl: int, now: nat, id: string, token: string)
    | ResolveOp(id: string, now: nat)
    | RevokeOp(id: string)

  function Step(rt: Runtime, op: Op): Runtime {
    match op
    case IssueOp(subject, role, scope, ttl, now, id, token) => Issue(rt, subject, role, scope, ttl, now, id, token)
    case ResolveOp(id, now) => Resolve(rt, id, now).0
    case RevokeOp(id) => Revoke(rt, id)
  }

  const EMPTY := Runtime(map[], map[])

  function Run(ops: seq<Op>): Runtime {
    if ops == [] then EMPTY else Step(Run(ops[..|ops| - 1]), ops[|ops| - 1])
  }

  /** The ids and tokens drawn at random are not already in use. */
  predicate FreshDraws(ops: seq<Op>) {
    ops == [] ||
    var rt, op := Run(ops[..|ops| - 1]), ops[|ops| - 1];
    FreshDraws(ops[..|ops| - 1]) && (op.IssueOp? ==> op.id !in rt.records && op.token !in rt.tokenToId)
  }

  lemma {:induction false} FreshPrefix(before: seq<Op>, after: seq<Op>)
    requires FreshDraws(before + after)
    ensures FreshDraws(before)
  {
    if after == [] {
      assert before + after == before;
    } else {
      assert (before + after)[..|before + after| - 1] == before + after[..|after| - 1];
      FreshPrefix(before, after[..|after| - 1]);
    }
  }

  predicate Indexed(rt: Runtime) {
    && (forall t :: t in rt.tokenToId ==> rt.tokenToId[t] in rt.records && rt.records[rt.tokenToId[t]].accessToken == t)
    && (forall id :: id in rt.records ==>
          var r := rt.records[id];
          r.tokenId == id && r.accessToken in rt.tokenToId && rt.tokenToId[r.accessToken] == id)
  }

  /** The record of `id` was made by the accepted issue at index k. */
  predicate IssuedBy(ops: seq<Op>, k: nat, r: Record) {
    && k < |ops| && ops[k].IssueOp? && IssueAccepted(ops[k].subject, ops[k].role, ops[k].scope, ops[k].ttl)
    && r.tokenId == ops[k].id && r.accessToken == ops[k].token && r.subject == ops[k].subject && r.role == ops[k].role
    && r.scope == ops[k].scope && r.issuedAt == ops[k].now && r.expiresAt == ops[k].now + ops[k].ttl
  }

  predicate NeverRevoked(ops: seq<Op>, from: nat, id: string) {
    forall j :: from <= j < |ops| ==> ops[j] != RevokeOp(id)
  }

  /** Every record goes back to one issue; it is still active only if it has not
      been revoked since. */
  lemma {:induction false} RecordHistory(ops: seq<Op>, id: string) returns (k: nat)
    requires id in Run(ops).records
    ensures IssuedBy(ops, k, Run(ops).records[id]) && ops[k].id == id
    ensures !Run(ops).records[id].status.Revoked? ==> NeverRevoked(ops, k, id)
  {
    var init, op := ops[..|ops| - 1], ops[|ops| - 1];
    if op.IssueOp? && op.id == id && IssueAccepted(op.subject, op.role, op.scope, op.ttl) {
      k := |ops| - 1;
    } else {
      k := RecordHistory(init, id);
      assert ops[k] == init[k];
      if !Run(ops).records[id].status.Revoked? {
        forall j | k <= j < |ops| ensures ops[j] != RevokeOp(id) {
          assert j == |ops| - 1 || ops[j] == init[j];
        }
      }
    }
  }

  lemma {:induction false} StepIndexed(rt: Runtime, op: Op)
    requires Indexed(rt) && (op.IssueOp? ==> op.id !in rt.records && op.token !in rt.tokenToId)
    ensures Indexed(Step(rt, op))
  {
  }

  /** Given fresh draws, the two maps stay inverse to each other in every run. */
  lemma {:induction false} RunIndexed(ops: seq<Op>)
    requires FreshDraws(ops)
    ensures Indexed(Run(ops))
  {
    if ops != [] {
      RunIndexed(ops[..|ops| - 1]);
      StepIndexed(Run(ops[..|ops| - 1]), ops[|ops| - 1]);
    }
  }

  function Rank(s: Status): nat { match s case Active => 0 case Expired => 1 case Revoked => 2 }

  /** Records are never dropped, their status only moves active -> expired ->
      revoked or active -> revoked, and nothing else in them changes. */
  lemma {:induction false} StatusOnlyAdvances(before: seq<Op>, after: seq<Op>, id: string)
    requires FreshDraws(before + after) && id in Run(before).records
    ensures id in Run(before + after).records
    ensures Rank(Run(before).records[id].status) <= Rank(Run(before + after).records[id].status)
    ensures Run(before + after).records[id] ==
            Run(before).records[id].(status := Run(before + after).records[id].status)
  {
    if after == [] {
      assert before + after == before;
    } else {
      var init, op, all := after[..|after| - 1], after[|after| - 1], before + after;
      assert all[..|all| - 1] == before + init && all[|all| - 1] == op;
      StatusOnlyAdvances(before, init, id);
    }
  }

  /** A record that ends unrevoked was not revoked along the way. */
  lemma {:induction false} UnrevokedThroughout(before: seq<Op>, after: seq<Op>, id: string)
    requires FreshDraws(before + after) && id in Run(before).records
    ensures id in Run(before + after).records
    ensures !Run(before + after).records[id].status.Revoked? ==> NeverRevoked(after, 0, id)
  {
    StatusOnlyAdvances(before, after, id);
    if after != [] {
      var init, op, all := after[..|after| - 1], after[|after| - 1], before + after;
      assert all[..|all| - 1] == before + init && all[|all| - 1] == op;
      UnrevokedThroughout(before, init, id);
      if !Run(all).records[id].status.Revoked? {
        forall j | 0 <= j < |after| ensures after[j] != RevokeOp(id) {
          assert j == |after| - 1 || after[j] == init[j];
        }
      }
    }
  }

  predicate ResolvedBy(ops: seq<Op>, now: nat) {
    forall i :: 0 <= i < |ops| && ops[i].ResolveOp? ==> ops[i].now <= now
  }

  /** An accepted issue is remembered for good, and stays active while it is
      neither revoked nor resolved past its expiry. */
  lemma {:induction false} IssueRemembered(ops: seq<Op>, k: nat, now: nat)
    requires FreshDraws(ops) && k < |ops| && ops[k].IssueOp?
    requires IssueAccepted(ops[k].subject, ops[k].role, ops[k].scope, ops[k].ttl)
    ensures ops[k].id in Run(ops).records && IssuedBy(ops, k, Run(ops).records[ops[k].id])
    ensures NeverRevoked(ops, k, ops[k].id) && ResolvedBy(ops, now) && now < ops[k].now + ops[k].ttl ==>
              Run(ops).records[ops[k].id].status.Active?
  {
    if k < |ops| - 1 {
      var init := ops[..|ops| - 1];
      assert init[k] == ops[k];
      IssueRemembered(init, k, now);
      if NeverRevoked(ops, k, ops[k].id) && ResolvedBy(ops, now) {
        assert NeverRevoked(init, k, ops[k].id) && ResolvedBy(init, now);
        assert ops[|ops| - 1] != RevokeOp(ops[k].id);
      }
    }
  }
}

/** The authentication chain in front of the handlers. */
module AuthChain {
  import opened Common
  import opened TokenRuntime

  datatype Config = Config(protectedPrefixes: seq<string>, excludedPrefixes: seq<string>, ready: bool) {
    function Protected(): seq<string> {
      if protectedPrefixes == [] then ["/api/v1/supply", "/api/v1/platform"] else protectedPrefixes
    }
    function Excluded(): seq<string> {
      if excludedPrefixes == [] then ["/health", "/healthz", "/metrics", "/readyz"] else excludedPrefixes
    }
  }

  datatype Request = Request(path: string, httpMethod: string, authorization: string, hasQueryKey: bool)

  datatype EventName = AuthnSuccess | AuthnFail | AuthzDenied | QueryKeyRejected

  datatype Event = Event(name: EventName, code: string, tokenId: string, subject: string)

  /** Served: the next handler was called, with the principal of a protected request. */
  datatype Outcome = Served(principal: Option<Claims>) | Rejected(status: int, code: string)

  predicate HasPrefixIn(path: string, prefixes: seq<string>) {
    exists i :: 0 <= i < |prefixes| && prefixes[i] <= path
  }

  predicate ShouldProtect(cfg: Config, path: string) {
    !HasPrefixIn(path, cfg.Excluded()) && HasPrefixIn(path, cfg.Protected())
  }

  /** The value of an Authorization header of the bearer form. */
  function ExtractBearer(header: string): Option<string> {
    if !("Bearer " <= header) || Trim(header[7..]) == "" then None else Some(Trim(header[7..]))
  }

  function RequiredScope(path: string, httpMethod: string): string {
    if path == "/api/v1/supply" || "/api/v1/supply/" <= path then
      if httpMethod == "GET" || httpMethod == "HEAD" || httpMethod == "OPTIONS" then "supply:read" else "supply:write"
    else if path == "/api/v1/platform" || "/api/v1/platform/" <= path then "platform:admin"
    else ""
  }

  predicate ScopeGrants(scope: string, required: string) {
    scope == required || (|scope| >= 2 && scope[|scope| - 2..] == ":*" && scope[..|scope| - 2] <= required)
  }

  predicate Authorized(path: string, httpMethod: string, scopes: seq<string>, role: string) {
    role == "admin" || RequiredScope(path, httpMethod) == ""
    || exists i :: 0 <= i < |scopes| && ScopeGrants(scopes[i], RequiredScope(path, httpMethod))
  }

  /** One request.  Verify looks at one state of the runtime, Resolve at a later
      one: other calls may run in between. */
  function Decide(cfg: Config, req: Request, atVerify: Runtime, atResolve: Runtime, now: nat): (Outcome, seq<Event>) {
    if req.hasQueryKey then
      (Rejected(401, "QUERY_KEY_NOT_ALLOWED"), [Event(QueryKeyRejected, "QUERY_KEY_NOT_ALLOWED", "", "")])
    else if !ShouldProtect(cfg, req.path) then (Served(None), [])
    else if !cfg.ready then (Rejected(503, "AUTH_NOT_READY"), [])
    else
      var raw := ExtractBearer(req.authorization);
      if raw.None? then (Rejected(401, "AUTH_MISSING_BEARER"), [Event(AuthnFail, "AUTH_MISSING_BEARER", "", "")])
      else
        var claims := Verify(atVerify, raw.value);
        if claims.None? then (Rejected(401, "AUTH_INVALID_TOKEN"), [Event(AuthnFail, "AUTH_INVALID_TOKEN", "", "")])
        else
          var c := claims.value;
          if Resolve(atResolve, c.tokenId, now).1 != Some(Active) then
            (Rejected(401, "AUTH_TOKEN_INACTIVE"), [Event(AuthnFail, "AUTH_TOKEN_INACTIVE", c.tokenId, c.subject)])
          else if !Authorized(req.path, req.httpMethod, c.scope, c.role) then
            (Rejected(403, "AUTH_SCOPE_DENIED"), [Event(AuthzDenied, "AUTH_SCOPE_DENIED", c.tokenId, c.subject)])
          else (Served(Some(c)), [Event(AuthnSuccess, "OK", c.tokenId, c.subject)])
  }

  // ---------- what the chain demands, in the protocol's own terms ----------

  predicate Blank(s: string) { forall i :: 0 <= i < |s| ==> IsSpace(s[i]) }

  /** The token is not empty and neither starts nor ends with white space. */
  predicate Tight(token: string) { token != "" && !IsSpace(token[0]) && !IsSpace(token[|token| - 1]) }

  /** The header is "Bearer " and the token, with any white space around the token. */
  ghost predicate IsBearer(header: string, token: string) {
    Tight(token) && exists pre, post :: Blank(pre) && Blank(post) && header == "Bearer " + (pre + token + post)
  }

  lemma {:induction false} TrimLeftSplits(s: string) returns (pre: string)
    ensures Blank(pre) && s == pre + TrimLeft(s)
    ensures TrimLeft(s) != "" ==> !IsSpace(TrimLeft(s)[0])
  {
    pre := "";
    if s != "" && IsSpace(s[0]) {
      var rest := TrimLeftSplits(s[1..]);
      pre := [s[0]] + rest;
    }
  }

  lemma {:induction false} TrimRightSplits(s: string) returns (post: string)
    ensures Blank(post) && s == TrimRight(s) + post
    ensures TrimRight(s) != "" ==> !IsSpace(TrimRight(s)[|TrimRight(s)| - 1]) && TrimRight(s)[0] == s[0]
  {
    post := "";
    if s != "" && IsSpace(s[|s| - 1]) {
      var rest := TrimRightSplits(s[..|s| - 1]);
      post := rest + [s[|s| - 1]];
    }
  }

  lemma {:induction false} TrimLeftDrops(pre: string, rest: string)
    requires Blank(pre) && rest != "" && !IsSpace(rest[0])
    ensures TrimLeft(pre + rest) == rest
  {
    if pre == "" {
      assert pre + rest == rest;
    } else {
      assert (pre + rest)[1..] == pre[1..] + rest;
      TrimLeftDrops(pre[1..], rest);
    }
  }

  lemma {:induction false} TrimRightDrops(rest: string, post: string)
    requires Blank(post) && rest != "" && !IsSpace(rest[|rest| - 1])
    ensures TrimRight(rest + post) == rest
  {
    if post == "" {
      assert rest + post == rest;
    } else {
      assert (rest + post)[..|rest + post| - 1] == rest + post[..|post| - 1];
      TrimRightDrops(rest, post[..|post| - 1]);
    }
  }

  lemma {:induction false} TrimEmptyIff(s: string)
    ensures Trim(s) == "" <==> Blank(s)
  {
    var pre := TrimLeftSplits(s);
    var post := TrimRightSplits(TrimLeft(s));
    assert s == pre + Trim(s) + post;
    if Trim(s) != "" {
      assert s[|pre|] == Trim(s)[0] == TrimLeft(s)[0];
    }
  }

  lemma {:induction false} BearerIff(header: string, token: string)
    ensures ExtractBearer(header) == Some(token) <==> IsBearer(header, token)
  {
    if ExtractBearer(header) == Some(token) {
      var value := header[7..];
      var pre := TrimLeftSplits(value);
      var post := TrimRightSplits(TrimLeft(value));
      assert value == pre + token + post && header == "Bearer " + (pre + token + post);
    }
    if IsBearer(header, token) {
      var pre, post :| Blank(pre) && Blank(post) && header == "Bearer " + (pre + token + post);
      assert header[7..] == pre + (token + post);
      TrimLeftDrops(pre, token + post);
      TrimRightDrops(token, post);
    }
  }

  predicate IsUnder(path: string, root: string) { path == root || root + "/" <= path }

  predicate Reads(httpMethod: string) { httpMethod in {"GET", "HEAD", "OPTIONS"} }

  /** A scope covers a permission by name, or as a wildcard over a prefix of it. */
  ghost predicate Covers(scope: string, permission: string) {
    scope == permission || exists stem: string :: stem <= permission && scope == stem + ":*"
  }

  ghost predicate Bears(scopes: seq<string>, permission: string) {
    exists i :: 0 <= i < |scopes| && Covers(scopes[i], permission)
  }

  /** Who may call what: administrators everything; others need "supply:read" to read
      and "supply:write" to do anything else under /api/v1/supply, "platform:admin"
      under /api/v1/platform, and nothing elsewhere. */
  ghost predicate Permitted(path: string, httpMethod: string, scopes: seq<string>, role: string) {
    || role == "admin"
    || ((IsUnder(path, "/api/v1/supply") && Reads(httpMethod) ==> Bears(scopes, "supply:read"))
        && (IsUnder(path, "/api/v1/supply") && !Reads(httpMethod) ==> Bears(scopes, "supply:write"))
        && (IsUnder(path, "/api/v1/platform") ==> Bears(scopes, "platform:admin")))
  }

  lemma {:induction false} GrantsIffCovers(scope: string, permission: string)
    ensures ScopeGrants(scope, permission) <==> Covers(scope, permission)
  {
    if |scope| >= 2 && scope[|scope| - 2..] == ":*" {
      assert scope == scope[..|scope| - 2] + ":*";
    }
    if exists stem: string :: stem <= permission && scope == stem + ":*" {
      var stem: string :| stem <= permission && scope == stem + ":*";
      assert scope[..|scope| - 2] == stem && scope[|scope| - 2..] == ":*";
    }
  }

  lemma {:induction false} GrantsIffBears(scopes: seq<string>, permission: string)
    ensures (exists i :: 0 <= i < |scopes| && ScopeGrants(scopes[i], permission)) <==> Bears(scopes, permission)
  {
    forall i | 0 <= i < |scopes| ensures ScopeGrants(scopes[i], permission) <==> Covers(scopes[i], permission) {
      GrantsIffCovers(scopes[i], permission);
    }
  }

  lemma {:induction false} RoutesAreApart(path: string)
    ensures !(IsUnder(path, "/api/v1/supply") && IsUnder(path, "/api/v1/platform"))
  {
    if IsUnder(path, "/api/v1/supply") { assert path[8] == 's'; }
  }

  /** The route table and the scope match, exactly. */
  lemma {:induction false} AuthorizedIffPermitted(path: string, httpMethod: string, scopes: seq<string>, role: string)
    ensures Authorized(path, httpMethod, scopes, role) <==> Permitted(path, httpMethod, scopes, role)
  {
    assert "/api/v1/supply" + "/" == "/api/v1/supply/" && "/api/v1/platform" + "/" == "/api/v1/platform/";
    RoutesAreApart(path);
    var required := RequiredScope(path, httpMethod);
    GrantsIffBears(scopes, required);
  }

  /** Which paths are protected, with prefixes given and by default. */
  lemma {:induction false} ProtectedPaths(cfg: Config, path: string)
    ensures cfg.protectedPrefixes == [] && cfg.excludedPrefixes == [] ==>
              (ShouldProtect(cfg, path) <==> "/api/v1/supply" <= path || "/api/v1/platform" <= path)
    ensures cfg.protectedPrefixes != [] && cfg.excludedPrefixes == [] ==>
              (ShouldProtect(cfg, path) <==>
               && (exists p :: p in cfg.protectedPrefixes && p <= path)
               && !("/health" <= path) && !("/metrics" <= path) && !("/readyz" <= path))
    ensures cfg.protectedPrefixes != [] && cfg.excludedPrefixes != [] ==>
              (ShouldProtect(cfg, path) <==>
               && (exists p :: p in cfg.protectedPrefixes && p <= path)
               && !(exists p :: p in cfg.excludedPrefixes && p <= path))
  {
    HasPrefixInIff(path, cfg.protectedPrefixes);
    HasPrefixInIff(path, cfg.excludedPrefixes);
    var ps, es := ["/api/v1/supply", "/api/v1/platform"], ["/health", "/healthz", "/metrics", "/readyz"];
    assert HasPrefixIn(path, ps) <==> ps[0] <= path || ps[1] <= path;
    assert HasPrefixIn(path, es) <==> es[0] <= path || es[1] <= path || es[2] <= path || es[3] <= path;
    if "/healthz" <= path { assert "/health" <= path; }
    if "/api/v1/supply" <= path || "/api/v1/platform" <= path {
      assert path[1] == 'a';
    }
  }

  lemma {:induction false} HasPrefixInIff(path: string, prefixes: seq<string>)
    ensures HasPrefixIn(path, prefixes) <==> exists p :: p in prefixes && p <= path
  {
    if HasPrefixIn(path, prefixes) {
      var i :| 0 <= i < |prefixes| && prefixes[i] <= path;
      assert prefixes[i] in prefixes;
    }
    if p :| p in prefixes && p <= path {
      var i :| 0 <= i < |prefixes| && prefixes[i] == p;
    }
  }

  /** The issue at index k entitles the bearer to the request at time `now`. */
  ghost predicate Entitles(ops: seq<Op>, k: nat, req: Request, now: nat) {
    && k < |ops| && ops[k].IssueOp? && IssueAccepted(ops[k].subject, ops[k].role, ops[k].scope, ops[k].ttl)
    && IsBearer(req.authorization, ops[k].token)
    && now < ops[k].now + ops[k].ttl
    && NeverRevoked(ops, k, ops[k].id)
    && Permitted(req.path, req.httpMethod, ops[k].scope, ops[k].role)
  }

  lemma {:induction false} ServedIsEntitled(cfg: Config, req: Request, before: seq<Op>, during: seq<Op>, now: nat)
    returns (k: nat)
    requires FreshDraws(before + during) && ShouldProtect(cfg, req.path)
    requires Decide(cfg, req, Run(before), Run(before + during), now).0.Served?
    ensures k < |before| && Entitles(before + during, k, req, now)
  {
    var rt, all := Run(before), before + during;
    var raw := ExtractBearer(req.authorization).value;
    BearerIff(req.authorization, raw);
    FreshPrefix(before, during);
    RunIndexed(before);
    var id := rt.tokenToId[raw];
    assert rt.records[id].tokenId == id && rt.records[id].accessToken == raw;
    StatusOnlyAdvances(before, during, id);
    UnrevokedThroughout(before, during, id);
    k := RecordHistory(before, id);
    assert all[k] == before[k];
    AuthorizedIffPermitted(req.path, req.httpMethod, all[k].scope, all[k].role);
    forall j | k <= j < |all| ensures all[j] != RevokeOp(id) {
      assert if j < |before| then all[j] == before[j] else all[j] == during[j - |before|];
    }
  }

  /** Two accepted issues never share an id. */
  lemma {:induction false} IssuedOnce(ops: seq<Op>, j: nat, k: nat)
    requires FreshDraws(ops) && j < |ops| && k < |ops| && ops[j].IssueOp? && ops[k].IssueOp? && ops[j].id == ops[k].id
    requires IssueAccepted(ops[j].subject, ops[j].role, ops[j].scope, ops[j].ttl)
    requires IssueAccepted(ops[k].subject, ops[k].role, ops[k].scope, ops[k].ttl)
    ensures j == k
  {
    if j != k {
      var first, last := if j < k then j else k, if j < k then k else j;
      var prefix := ops[..last + 1];
      assert ops == prefix + ops[last + 1..];
      FreshPrefix(prefix, ops[last + 1..]);
      assert prefix[..last] == ops[..last] && ops[..last][first] == ops[first];
      IssueRemembered(ops[..last], first, 0);
    }
  }

  /** What Resolve finds for the issue at index k, from the history alone. */
  lemma {:induction false} ResolvesActiveIff(ops: seq<Op>, k: nat, now: nat)
    requires FreshDraws(ops) && ResolvedBy(ops, now) && k < |ops| && ops[k].IssueOp?
    requires IssueAccepted(ops[k].subject, ops[k].role, ops[k].scope, ops[k].ttl)
    ensures Resolve(Run(ops), ops[k].id, now).1 == Some(Active)
            <==> NeverRevoked(ops, k, ops[k].id) && now < ops[k].now + ops[k].ttl
  {
    IssueRemembered(ops, k, now);
    var j := RecordHistory(ops, ops[k].id);
    IssuedOnce(ops, j, k);
  }

  /** The whole decision about the bearer of an issued token: outcome, principal and
      audit event, from the history of calls alone. */
  lemma {:induction false} BearerOutcome(cfg: Config, req: Request, before: seq<Op>, during: seq<Op>, now: nat, k: nat)
    requires cfg.ready && ShouldProtect(cfg, req.path) && !req.hasQueryKey
    requires FreshDraws(before + during) && ResolvedBy(before + during, now)
    requires k < |before| && before[k].IssueOp? && IsBearer(req.authorization, before[k].token)
    requires IssueAccepted(before[k].subject, before[k].role, before[k].scope, before[k].ttl)
    ensures var issue := before[k];
            Decide(cfg, req, Run(before), Run(before + during), now) ==
            if !NeverRevoked(before + during, k, issue.id) || issue.now + issue.ttl <= now then
              (Rejected(401, "AUTH_TOKEN_INACTIVE"),
               [Event(AuthnFail, "AUTH_TOKEN_INACTIVE", issue.id, issue.subject)])
            else if !Permitted(req.path, req.httpMethod, issue.scope, issue.role) then
              (Rejected(403, "AUTH_SCOPE_DENIED"), [Event(AuthzDenied, "AUTH_SCOPE_DENIED", issue.id, issue.subject)])
            else
              (Served(Some(Claims(issue.id, issue.subject, issue.role, issue.scope))),
               [Event(AuthnSuccess, "OK", issue.id, issue.subject)])
  {
    var all, issue := before + during, before[k];
    assert all[k] == issue;
    FreshPrefix(before, during);
    RunIndexed(before);
    IssueRemembered(before, k, now);
    ResolvesActiveIff(all, k, now);
    BearerIff(req.authorization, issue.token);
    AuthorizedIffPermitted(req.path, req.httpMethod, issue.scope, issue.role);
    VerifyFinds(before, k);
  }

  lemma {:induction false} VerifyFinds(ops: seq<Op>, k: nat)
    requires FreshDraws(ops) && k < |ops| && ops[k].IssueOp?
    requires IssueAccepted(ops[k].subject, ops[k].role, ops[k].scope, ops[k].ttl)
    ensures Verify(Run(ops), ops[k].token) == Some(Claims(ops[k].id, ops[k].subject, ops[k].role, ops[k].scope))
  {
    RunIndexed(ops);
    IssueRemembered(ops, k, 0);
  }

  lemma {:induction false} VerifyFindsNothing(ops: seq<Op>, token: string)
    requires FreshDraws(ops)
    requires forall k :: 0 <= k < |ops| && ops[k].IssueOp? && ops[k].token == token ==>
                           !IssueAccepted(ops[k].subject, ops[k].role, ops[k].scope, ops[k].ttl)
    ensures Verify(Run(ops), token).None?
  {
    RunIndexed(ops);
    var rt := Run(ops);
    if token in rt.tokenToId {
      var k := RecordHistory(ops, rt.tokenToId[token]);
    }
  }

  /** And everybody else: a query key is refused everywhere, an open path is served
      without a principal, a protected one needs the dependencies, a bearer token, and
      one that was issued. */
  lemma {:induction false} StrangerOutcome(cfg: Config, req: Request, before: seq<Op>, during: seq<Op>, now: nat)
    requires FreshDraws(before + during)
    requires forall k :: 0 <= k < |before| && before[k].IssueOp? && IsBearer(req.authorization, before[k].token) ==>
                           !IssueAccepted(before[k].subject, before[k].role, before[k].scope, before[k].ttl)
    ensures Decide(cfg, req, Run(before), Run(before + during), now) ==
            if req.hasQueryKey then
              (Rejected(401, "QUERY_KEY_NOT_ALLOWED"), [Event(QueryKeyRejected, "QUERY_KEY_NOT_ALLOWED", "", "")])
            else if !ShouldProtect(cfg, req.path) then (Served(None), [])
            else if !cfg.ready then (Rejected(503, "AUTH_NOT_READY"), [])
            else if forall token :: !IsBearer(req.authorization, token) then
              (Rejected(401, "AUTH_MISSING_BEARER"), [Event(AuthnFail, "AUTH_MISSING_BEARER", "", "")])
            else (Rejected(401, "AUTH_INVALID_TOKEN"), [Event(AuthnFail, "AUTH_INVALID_TOKEN", "", "")])
  {
    var raw := ExtractBearer(req.authorization);
    if raw.Some? {
      BearerIff(req.authorization, raw.value);
      FreshPrefix(before, during);
      VerifyFindsNothing(before, raw.value);
    } else {
      forall token ensures !IsBearer(req.authorization, token) { BearerIff(req.authorization, token); }
    }
  }

  /** In every run, with anything interleaved between Verify and Resolve, the
      handler of a protected path is called if and only if the request carries no
      query key and bears a token that was issued before, never revoked, is
      unexpired at Resolve time, and permits the route; and it is called on behalf of
      the subject that token was issued to. */
  lemma {:induction false} HandlerIffEntitled(cfg: Config, req: Request, before: seq<Op>, during: seq<Op>, now: nat)
    requires cfg.ready && ShouldProtect(cfg, req.path)
    requires FreshDraws(before + during) && ResolvedBy(before + during, now)
    ensures Decide(cfg, req, Run(before), Run(before + during), now).0.Served?
            <==> !req.hasQueryKey && exists k :: 0 <= k < |before| && Entitles(before + during, k, req, now)
    ensures forall k :: !req.hasQueryKey && 0 <= k < |before| && Entitles(before + during, k, req, now) ==>
                          Decide(cfg, req, Run(before), Run(before + during), now).0 ==
                          Served(Some(Claims(before[k].id, before[k].subject, before[k].role, before[k].scope)))
  {
    if Decide(cfg, req, Run(before), Run(before + during), now).0.Served? {
      var k := ServedIsEntitled(cfg, req, before, during, now);
    }
    forall k | !req.hasQueryKey && 0 <= k < |before| && Entitles(before + during, k, req, now)
      ensures Decide(cfg, req, Run(before), Run(before + during), now).0 ==
              Served(Some(Claims(before[k].id, before[k].subject, before[k].role, before[k].scope)))
    {
      assert (before + during)[k] == before[k];
      BearerOutcome(cfg, req, before, during, now, k);
    }
  }

  // ---------- auditing whole traffic ----------

  /** A request between Verify and Resolve: it keeps the claims that the runtime
      gave when it arrived. */
  datatype Arrival = Arrival(req: Request, atVerify: Runtime)

  /** `principals` counts the handler calls made on behalf of a verified token. */
  datatype Traffic = Traffic(runtime: Runtime, waiting: map<int, Arrival>, audit: seq<Event>, principals: nat)

  /** Requests overlap with each other and with other calls in any way. */
  datatype Action = Call(op: Op) | Arrive(r: int, req: Request) | Finish(r: int, now: nat)

  predicate CanAct(t: Traffic, a: Action) {
    match a
    case Call(_) => true
    case Arrive(r, _) => r !in t.waiting
    case Finish(r, _) => r in t.waiting
  }

  /** The request leaves an audit event: it carries a query key, or it is protected
      and the dependencies are ready. */
  predicate IsLogged(cfg: Config, req: Request) {
    req.hasQueryKey || (ShouldProtect(cfg, req.path) && cfg.ready)
  }

  /** How many requests that leave an event have arrived. */
  function LoggedArrivals(cfg: Config, actions: seq<Action>): nat {
    if actions == [] then 0
    else
      var a := actions[|actions| - 1];
      LoggedArrivals(cfg, actions[..|actions| - 1]) + if a.Arrive? && IsLogged(cfg, a.req) then 1 else 0
  }

  function LoggedWaiting(cfg: Config, waiting: map<int, Arrival>): set<int> {
    set r | r in waiting && IsLogged(cfg, waiting[r].req)
  }

  function Successes(audit: seq<Event>): nat {
    if audit == [] then 0 else Successes(audit[..|audit| - 1]) + if audit[|audit| - 1].name.AuthnSuccess? then 1 else 0
  }

  /** The runtime after a request: Resolve may have marked its token expired. */
  function AfterRequest(cfg: Config, atVerify: Runtime, rt: Runtime, req: Request, now: nat): Runtime {
    if req.hasQueryKey || !ShouldProtect(cfg, req.path) || !cfg.ready then rt
    else
      var raw := ExtractBearer(req.authorization);
      if raw.None? || Verify(atVerify, raw.value).None? then rt
      else Resolve(rt, Verify(atVerify, raw.value).value.tokenId, now).0
  }

  function Act(cfg: Config, t: Traffic, a: Action): Traffic
    requires CanAct(t, a)
  {
    match a
    case Call(op) => t.(runtime := Step(t.runtime, op))
    case Arrive(r, req) => t.(waiting := t.waiting[r := Arrival(req, t.runtime)])
    case Finish(r, now) =>
      var Arrival(req, atVerify) := t.waiting[r];
      var (outcome, events) := Decide(cfg, req, atVerify, t.runtime, now);
      Traffic(AfterRequest(cfg, atVerify, t.runtime, req, now), t.waiting - {r}, t.audit + events,
              t.principals + if outcome.Served? && outcome.principal.Some? then 1 else 0)
  }

  function Play(cfg: Config, actions: seq<Action>): Option<Traffic> {
    if actions == [] then Some(Traffic(EMPTY, map[], [], 0))
    else
      var t := Play(cfg, actions[..|actions| - 1]);
      if t.Some? && CanAct(t.value, actions[|actions| - 1]) then Some(Act(cfg, t.value, actions[|actions| - 1]))
      else None
  }

  /** The books so far: one event per finished request that leaves one, and one
      success event per handler call with a principal. */
  predicate Audited(cfg: Config, t: Traffic, arrivals: nat) {
    && |t.audit| + |LoggedWaiting(cfg, t.waiting)| == arrivals
    && Successes(t.audit) == t.principals
  }

  lemma {:induction false} DecideLogs(cfg: Config, req: Request, atVerify: Runtime, atResolve: Runtime, now: nat)
    ensures var (outcome, events) := Decide(cfg, req, atVerify, atResolve, now);
            var principal := outcome.Served? && outcome.principal.Some?;
            if IsLogged(cfg, req) then |events| == 1 && (events[0].name.AuthnSuccess? <==> principal)
            else events == [] && !principal
  {
  }

  lemma {:induction false} SuccessesAppend(audit: seq<Event>, e: Event)
    ensures Successes(audit + [e]) == Successes(audit) + if e.name.AuthnSuccess? then 1 else 0
  {
    assert (audit + [e])[..|audit|] == audit;
  }

  lemma {:induction false} WaitingShrinks(cfg: Config, waiting: map<int, Arrival>, r: int)
    requires r in waiting
    ensures |LoggedWaiting(cfg, waiting)| ==
            |LoggedWaiting(cfg, waiting - {r})| + if IsLogged(cfg, waiting[r].req) then 1 else 0
  {
    var rest := LoggedWaiting(cfg, waiting - {r});
    assert r !in rest;
    assert LoggedWaiting(cfg, waiting) == rest + if IsLogged(cfg, waiting[r].req) then {r} else {};
  }

  lemma {:induction false} FinishAudited(cfg: Config, t: Traffic, r: int, now: nat, arrivals: nat)
    requires r in t.waiting && Audited(cfg, t, arrivals)
    ensures Audited(cfg, Act(cfg, t, Finish(r, now)), arrivals)
  {
    var Arrival(req, atVerify) := t.waiting[r];
    DecideLogs(cfg, req, atVerify, t.runtime, now);
    WaitingShrinks(cfg, t.waiting, r);
    var events := Decide(cfg, req, atVerify, t.runtime, now).1;
    if IsLogged(cfg, req) {
      assert events == [events[0]];
      SuccessesAppend(t.audit, events[0]);
    } else {
      assert t.audit + events == t.audit;
    }
  }

  lemma {:induction false} ArriveAudited(cfg: Config, t: Traffic, r: int, req: Request, arrivals: nat)
    requires r !in t.waiting && Audited(cfg, t, arrivals)
    ensures Audited(cfg, Act(cfg, t, Arrive(r, req)), arrivals + if IsLogged(cfg, req) then 1 else 0)
  {
    var waiting := t.waiting[r := Arrival(req, t.runtime)];
    WaitingShrinks(cfg, waiting, r);
    assert waiting - {r} == t.waiting;
  }

  /** In any traffic, however the requests overlap: exactly one audit event for each
      finished request that carries a query key or is protected, none for any other,
      and as many success events as handler calls with a principal. */
  lemma {:induction false} OneAuditEventPerRequest(cfg: Config, actions: seq<Action>)
    requires Play(cfg, actions).Some?
    ensures Audited(cfg, Play(cfg, actions).value, LoggedArrivals(cfg, actions))
  {
    if actions != [] {
      var init, a := actions[..|actions| - 1], actions[|actions| - 1];
      OneAuditEventPerRequest(cfg, init);
      var t := Play(cfg, init).value;
      match a
      case Call(op) =>
      case Arrive(r, req) => ArriveAudited(cfg, t, r, req, LoggedArrivals(cfg, init));
      case Finish(r, now) => FinishAudited(cfg, t, r, now, LoggedArrivals(cfg, init));
    }
  }

  // ---------- the objects ----------

  class Gateway {
    const config: Config
    var records: map<string, Record>
    var tokenToId: map<string, string>
    var events: seq<Event>

    function Value(): Runtime
      reads this
    {
      Runtime(records, tokenToId)
    }

    constructor (config: Config)
      ensures this.config == config && Value() == EMPTY && events == []
    {
      this.config := config;
      records, tokenToId, events := map[], map[], [];
    }

    method IssueToken(subject: string, role: string, scope: seq<string>, ttl: int, now: nat, id: string, token: string)
      returns (ok: bool)
      modifies `records, `tokenToId
      ensures ok == IssueAccepted(subject, role, scope, ttl)
      ensures ok <==> !Blank(subject) && !Blank(role) && scope != [] && ttl > 0
      ensures Value() == Issue(old(Value()), subject, role, scope, ttl, now, id, token)
    {
      TrimEmptyIff(subject);
      TrimEmptyIff(role);
      if Trim(subject) == "" || Trim(role) == "" || scope == [] || ttl <= 0 {
        return false;
      }
      records := records[id := Record(id, token, subject, role, scope, now, now + ttl, Active)];
      tokenToId := tokenToId[token := id];
      return true;
    }

    method RevokeToken(id: string) returns (ok: bool)
      modifies `records
      ensures Value() == Revoke(old(Value()), id) && ok == (id in old(records))
    {
      if id !in records {
        return false;
      }
      records := records[id := records[id].(status := Revoked)];
      return true;
    }

    method ResolveStatus(id: string, now: nat) returns (status: Option<Status>)
      modifies `records
      ensures (Value(), status) == Resolve(old(Value()), id, now)
    {
      if id !in records {
        return None;
      }
      var r := records[id];
      if r.status.Active? && r.expiresAt != 0 && now >= r.expiresAt {
        r := r.(status := Expired);
      }
      records := records[id := r];
      return Some(r.status);
    }

    /** A loop over prefixes with early exit. */
    static method MatchesPrefix(path: string, prefixes: seq<string>) returns (b: bool)
      ensures b == HasPrefixIn(path, prefixes)
    {
      for i := 0 to |prefixes|
        invariant forall j :: 0 <= j < i ==> !(prefixes[j] <= path)
      {
        if prefixes[i] <= path {
          return true;
        }
      }
      return false;
    }

    /** The whole chain for one uninterrupted request. */
    method ServeRequest(req: Request, now: nat) returns (outcome: Outcome)
      modifies `records, `events
      ensures outcome == Decide(config, req, old(Value()), old(Value()), now).0
      ensures events == old(events) + Decide(config, req, old(Value()), old(Value()), now).1
      ensures Value() == AfterRequest(config, old(Value()), old(Value()), req, now)
    {
      if req.hasQueryKey {
        events := events + [Event(QueryKeyRejected, "QUERY_KEY_NOT_ALLOWED", "", "")];
        return Rejected(401, "QUERY_KEY_NOT_ALLOWED");
      }
      var excluded := MatchesPrefix(req.path, config.Excluded());
      var included := MatchesPrefix(req.path, config.Protected());
      if excluded || !included {
        return Served(None);
      }
      if !config.ready {
        return Rejected(503, "AUTH_NOT_READY");
      }
      var raw := ExtractBearer(req.authorization);
      if raw.None? {
        events := events + [Event(AuthnFail, "AUTH_MISSING_BEARER", "", "")];
        return Rejected(401, "AUTH_MISSING_BEARER");
      }
      var claims := Verify(Runtime(records, tokenToId), raw.value);
      if claims.None? {
        events := events + [Event(AuthnFail, "AUTH_INVALID_TOKEN", "", "")];
        return Rejected(401, "AUTH_INVALID_TOKEN");
      }
      var c := claims.value;
      var status := ResolveStatus(c.tokenId, now);
      if status != Some(Active) {
        events := events + [Event(AuthnFail, "AUTH_TOKEN_INACTIVE", c.tokenId, c.subject)];
        return Rejected(401, "AUTH_TOKEN_INACTIVE");
      }
      if !Authorized(req.path, req.httpMethod, c.scope, c.role) {
        events := events + [Event(AuthzDenied, "AUTH_SCOPE_DENIED", c.tokenId, c.subject)];
        return Rejected(403, "AUTH_SCOPE_DENIED");
      }
      events := events + [Event(AuthnSuccess, "OK", c.tokenId, c.subject)];
      return Served(Some(c));
    }
  }
}
