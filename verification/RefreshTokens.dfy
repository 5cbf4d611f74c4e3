/** Rotation of refresh tokens over the token table (auth/refresh/service.go).
    Each service call is one step; times are in nanoseconds. */
module RefreshTokens {
  import opened Options

  const SECOND: int := 1_000_000_000
  const DEFAULT_TTL: int := 30 * 24 * 60 * 60

  type TokenId = nat
  type UserId = nat

  /** A stored token; expiry and revocation are in whole seconds. */
  datatype Row = Row(user: UserId, hash: string, expires: int, revokedAt: Option<int>, replacedBy: Option<TokenId>)

  type Table = map<TokenId, Row>

  datatype Config = Config(hash: string -> string, ttl: int)

  /** The table and the clock. What follows is not seen by the program: the
      rotation chain of every token ever issued, all hashes ever stored, and
      the hashes of tokens that Rotate accepted. */
  datatype State = State(rows: Table, clock: int, chain: map<TokenId, nat>, hashes: set<string>, spent: set<string>)

  datatype Answer = Done | Granted(id: TokenId) | InvalidToken | ExpiredToken | TokenReuse | Failure

  /** New: a lifetime of zero or less selects the default. */
  function Lifetime(ttlSeconds: int): int {
    (if ttlSeconds <= 0 then DEFAULT_TTL else ttlSeconds) * SECOND
  }

  predicate Live(r: Row) {
    r.revokedAt.None?
  }

  /** Time.Unix: whole seconds, rounded down. */
  function Unix(t: int): int {
    t / SECOND
  }

  // --------------------------------------------------- table operations

  function RevokeUser(rows: Table, user: UserId, now: int): Table {
    map id | id in rows :: if rows[id].user == user && Live(rows[id]) then rows[id].(revokedAt := Some(Unix(now))) else rows[id]
  }

  function RevokeHash(rows: Table, hash: string, now: int): Table {
    map id | id in rows :: if rows[id].hash == hash && Live(rows[id]) then rows[id].(revokedAt := Some(Unix(now))) else rows[id]
  }

  function DropExpired(rows: Table, cutoff: int): Table {
    map id | id in rows && rows[id].expires >= Unix(cutoff) :: rows[id]
  }

  ghost predicate Stored(rows: Table, hash: string) {
    exists id :: id in rows && rows[id].hash == hash
  }

  ghost function IdOf(rows: Table, hash: string): (id: TokenId)
    requires Stored(rows, hash)
    ensures id in rows && rows[id].hash == hash
  {
    var id :| id in rows && rows[id].hash == hash;
    id
  }

  /** Validate's answer: unknown first, then reuse, then expiry. */
  ghost function Judge(c: Config, rows: Table, token: string, now: int): Answer {
    if token == "" || !Stored(rows, c.hash(token)) then InvalidToken
    else
      var id := IdOf(rows, c.hash(token));
      if !Live(rows[id]) then TokenReuse
      else if now > rows[id].expires * SECOND then ExpiredToken
      else Granted(id)
  }

  // --------------------------------------------------- steps

  /** `ok` says whether the database did its part; a failed write changes
      nothing. The last time of an operation is when it wrote. */
  datatype Op =
    | Issue(user: UserId, id: TokenId, token: string, at: int, ok: bool)
    | Validate(presented: string, now: int, at: int, ok: bool)
    | Rotate(presented: string, now: int, id: TokenId, token: string, expiryFrom: int, at: int, ok: bool)
    | Revoke(presented: string, at: int, ok: bool)
    | RevokeAll(user: UserId, at: int, ok: bool)
    | DeleteExpired(cutoff: int, at: int, ok: bool)

  /** Times do not run backwards. */
  predicate InTime(s: State, op: Op) {
    match op
    case Validate(_, now, at, _) => s.clock <= now <= at
    case Rotate(_, now, _, _, expiryFrom, at, _) => s.clock <= now <= expiryFrom <= at
    case _ => s.clock <= op.at
  }

  /** New ids and hashes were never used before. */
  predicate Fresh(c: Config, s: State, op: Op) {
    op.Issue? || op.Rotate? ==> op.token != "" && op.id !in s.chain && c.hash(op.token) !in s.hashes
  }

  function NewRow(c: Config, user: UserId, token: string, now: int): Row {
    Row(user, c.hash(token), Unix(now + c.ttl), None, None)
  }

  function Added(c: Config, s: State, id: TokenId, row: Row, chain: nat): State {
    s.(rows := s.rows[id := row], chain := s.chain[id := chain], hashes := s.hashes + {row.hash})
  }

  /** A number no chain has. */
  ghost function NewChain(s: State): (n: nat)
    ensures forall id :: id in s.chain ==> s.chain[id] < n
  {
    assert forall id :: id in s.chain ==> s.chain[id] in s.chain.Values;
    Above(s.chain.Values)
  }

  ghost function Above(ns: set<nat>): (n: nat)
    ensures forall m :: m in ns ==> m < n
  {
    if ns == {} then 0
    else
      var m :| m in ns;
      var n := Above(ns - {m});
      assert forall k :: k in ns ==> k == m || k in ns - {m};
      if n > m then n else m + 1
  }

  /** The old row is revoked and points at the new one. */
  function Rotated(c: Config, s: State, prev: TokenId, op: Op): State
    requires prev in s.rows && op.Rotate?
  {
    var row := s.rows[prev];
    var added := Added(c, s, op.id, NewRow(c, row.user, op.token, op.expiryFrom), if prev in s.chain then s.chain[prev] else 0);
    added.(rows := added.rows[prev := row.(revokedAt := Some(Unix(op.at)), replacedBy := Some(op.id))], spent := s.spent + {row.hash})
  }

  /** Reuse ends every session of the token's user. */
  ghost function Punished(c: Config, s: State, presented: string, at: int, ok: bool): State {
    if ok && Stored(s.rows, c.hash(presented))
    then s.(rows := RevokeUser(s.rows, s.rows[IdOf(s.rows, c.hash(presented))].user, at))
    else s
  }

  /** What an operation does to the state, and its answer. */
  ghost function Effect(c: Config, s: State, op: Op): (State, Answer) {
    var after :=
      match op
      case Issue(user, id, token, at, ok) =>
        if ok then (Added(c, s, id, NewRow(c, user, token, at), NewChain(s)), Done) else (s, Failure)
      case Validate(presented, now, at, ok) =>
        var answer := Judge(c, s.rows, presented, now);
        if answer == TokenReuse then (Punished(c, s, presented, at, ok), if ok then TokenReuse else Failure) else (s, answer)
      case Rotate(presented, now, id, token, expiryFrom, at, ok) =>
        var answer := Judge(c, s.rows, presented, now);
        if answer == TokenReuse then (Punished(c, s, presented, at, ok), if ok then TokenReuse else Failure)
        else if answer.Granted? then if ok then (Rotated(c, s, answer.id, op), Granted(id)) else (s, Failure)
        else (s, answer)
      case Revoke(presented, at, ok) =>
        if ok then (s.(rows := RevokeHash(s.rows, c.hash(presented), at)), Done) else (s, Failure)
      case RevokeAll(user, at, ok) =>
        if ok then (s.(rows := RevokeUser(s.rows, user, at)), Done) else (s, Failure)
      case DeleteExpired(cutoff, at, ok) =>
        if ok then (s.(rows := DropExpired(s.rows, cutoff)), Done) else (s, Failure);
    (after.0.(clock := op.at), after.1)
  }

  ghost predicate Step(c: Config, s: State, op: Op, s': State) {
    InTime(s, op) && Fresh(c, s, op) && s' == Effect(c, s, op).0
  }

  ghost predicate Run(c: Config, ops: seq<Op>, states: seq<State>) {
    |states| == |ops| + 1 && forall i :: 0 <= i < |ops| ==> Step(c, states[i], ops[i], states[i + 1])
  }

  // --------------------------------------------------- what every step keeps

  /** Hashes are unique and remembered; every stored token has a chain. */
  ghost predicate WellKept(s: State) {
    && (forall id :: id in s.rows ==> id in s.chain && s.rows[id].hash in s.hashes)
    && (forall a, b :: a in s.rows && b in s.rows && a != b ==> s.rows[a].hash != s.rows[b].hash)
    && s.spent <= s.hashes
  }

  /** At most one unrevoked token in every rotation chain. */
  ghost predicate OneLivePerChain(s: State) {
    forall a, b :: a in s.rows && b in s.rows && a != b && a in s.chain && b in s.chain && Live(s.rows[a]) && Live(s.rows[b]) ==>
      s.chain[a] != s.chain[b]
  }

  /** Replacements stay in the chain, and replaced tokens are revoked. */
  ghost predicate Linked(s: State) {
    forall id :: id in s.rows && s.rows[id].replacedBy.Some? ==>
      !Live(s.rows[id]) && s.rows[id].replacedBy.value in s.chain && id in s.chain && s.chain[s.rows[id].replacedBy.value] == s.chain[id]
  }

  /** A token that Rotate accepted is revoked, or gone. */
  ghost predicate SpentAreRevoked(s: State) {
    forall id :: id in s.rows && s.rows[id].hash in s.spent ==> !Live(s.rows[id])
  }

  ghost predicate Inv(s: State) {
    WellKept(s) && OneLivePerChain(s) && Linked(s) && SpentAreRevoked(s)
  }

  /** Rows keep what identifies them; live rows were live before. */
  ghost predicate Fewer(before: Table, after: Table) {
    forall id :: id in after ==>
      && id in before && after[id].hash == before[id].hash && after[id].user == before[id].user
      && after[id].replacedBy == before[id].replacedBy && (Live(after[id]) ==> after[id] == before[id])
  }

  lemma FewerKeepsInv(s: State, rows: Table, clock: int)
    requires Inv(s) && Fewer(s.rows, rows)
    ensures Inv(s.(rows := rows, clock := clock))
  {}

  lemma IssueKeepsInv(c: Config, s: State, op: Op)
    requires Inv(s) && op.Issue? && Fresh(c, s, op)
    ensures Inv(Added(c, s, op.id, NewRow(c, op.user, op.token, op.at), NewChain(s)))
  {}

  lemma RotateKeepsInv(c: Config, s: State, op: Op, prev: TokenId)
    requires Inv(s) && op.Rotate? && Fresh(c, s, op) && prev in s.rows && Live(s.rows[prev])
    ensures Inv(Rotated(c, s, prev, op))
  {}

  lemma StepKeepsInv(c: Config, s: State, op: Op, s': State)
    requires Inv(s) && Step(c, s, op, s')
    ensures Inv(s')
  {
    match op
    case Issue(_, _, _, _, _) => IssueKeepsInv(c, s, op);
    case Rotate(_, _, _, _, _, _, _) => RotateStepKeepsInv(c, s, op, s');
    case _ => OtherStepKeepsInv(c, s, op, s');
  }

  lemma RotateStepKeepsInv(c: Config, s: State, op: Op, s': State)
    requires Inv(s) && Step(c, s, op, s') && op.Rotate?
    ensures Inv(s')
  {
    var answer := Judge(c, s.rows, op.presented, op.now);
    if answer.Granted? {
      RotateKeepsInv(c, s, op, answer.id);
    } else {
      FewerKeepsInv(s, s'.rows, op.at);
    }
  }

  lemma OtherStepKeepsInv(c: Config, s: State, op: Op, s': State)
    requires Inv(s) && Step(c, s, op, s') && !op.Rotate? && !op.Issue?
    ensures Inv(s')
  {
    FewerKeepsInv(s, s'.rows, op.at);
  }

  lemma {:induction false} RunsKeepInv(c: Config, ops: seq<Op>, states: seq<State>, k: nat)
    requires Run(c, ops, states) && Inv(states[0]) && k <= |ops|
    ensures Inv(states[k])
  {
    if k > 0 {
      RunsKeepInv(c, ops, states, k - 1);
      StepKeepsInv(c, states[k - 1], ops[k - 1], states[k]);
    }
  }

  lemma EmptyIsInv(clock: int)
    ensures Inv(State(map[], clock, map[], {}, {}))
  {}

  // --------------------------------------------------- spent tokens

  /** A token Rotate accepted is spent. */
  lemma AcceptedIsSpent(c: Config, s: State, op: Op, s': State)
    requires op.Rotate? && Step(c, s, op, s') && Effect(c, s, op).1.Granted?
    ensures c.hash(op.presented) in s'.spent
  {}

  lemma SpentStaysSpent(c: Config, s: State, op: Op, s': State)
    requires Step(c, s, op, s')
    ensures s.spent <= s'.spent
  {}

  lemma {:induction false} SpentForever(c: Config, ops: seq<Op>, states: seq<State>, i: nat, k: nat)
    requires Run(c, ops, states) && i <= k <= |ops|
    ensures states[i].spent <= states[k].spent
    decreases k
  {
    if i < k {
      SpentForever(c, ops, states, i, k - 1);
      SpentStaysSpent(c, states[k - 1], ops[k - 1], states[k]);
    }
  }

  /** A spent token is never granted, at any time. */
  lemma SpentIsRefused(c: Config, s: State, token: string, now: int)
    requires Inv(s) && c.hash(token) in s.spent
    ensures !Judge(c, s.rows, token, now).Granted?
  {}

  /** Over every run from an empty table: once Rotate accepted a token, neither
      Rotate nor Validate accepts it ever again. */
  lemma AcceptedOnce(c: Config, ops: seq<Op>, states: seq<State>, i: nat, k: nat, now: int)
    requires Run(c, ops, states) && Inv(states[0]) && i < k <= |ops|
    requires ops[i].Rotate? && Effect(c, states[i], ops[i]).1.Granted?
    ensures !Judge(c, states[k].rows, ops[i].presented, now).Granted?
  {
    AcceptedIsSpent(c, states[i], ops[i], states[i + 1]);
    SpentForever(c, ops, states, i + 1, k);
    RunsKeepInv(c, ops, states, k);
    SpentIsRefused(c, states[k], ops[i].presented, now);
  }

  // --------------------------------------------------- reuse

  /** Presenting a stored revoked token leaves its user without live token. */
  lemma ReuseEndsFamily(c: Config, s: State, op: Op, s': State, id: TokenId)
    requires Inv(s) && (op.Validate? || op.Rotate?) && op.ok && Step(c, s, op, s')
    requires op.presented != "" && id in s.rows && s.rows[id].hash == c.hash(op.presented) && !Live(s.rows[id])
    ensures Effect(c, s, op).1 == TokenReuse
    ensures forall other :: other in s'.rows && s'.rows[other].user == s.rows[id].user ==> !Live(s'.rows[other])
    ensures s'.rows.Keys == s.rows.Keys && forall other :: other in s.rows && s.rows[other].user != s.rows[id].user ==> s'.rows[other] == s.rows[other]
  {
    assert IdOf(s.rows, c.hash(op.presented)) == id;
  }

  // --------------------------------------------------- cleaning up

  /** Everything a cutoff deletes is refused as expired at this time: expiry is
      in whole seconds. */
  predicate CutoffHasPassed(cutoff: int, now: int) {
    (Unix(cutoff) - 1) * SECOND < now
  }

  /** No table loses, gains or changes a grant when what expired before the
      cutoff is deleted. */
  ghost predicate KeepsGrants(c: Config, cutoff: int, now: int) {
    forall s, token :: Inv(s) ==> SameGrants(c, s.rows, DropExpired(s.rows, cutoff), token, now)
  }

  ghost predicate SameGrants(c: Config, rows: Table, rest: Table, token: string, now: int) {
    var before, after := Judge(c, rows, token, now), Judge(c, rest, token, now);
    before.Granted? || after.Granted? ==> before == after
  }

  /** Main result: deleting expired tokens is without effect on grants exactly
      when the cutoff has passed. */
  lemma CleanupKeepsGrants(c: Config, cutoff: int, now: int)
    ensures KeepsGrants(c, cutoff, now) <==> CutoffHasPassed(cutoff, now)
  {
    if CutoffHasPassed(cutoff, now) {
      forall s, token | Inv(s) ensures SameGrants(c, s.rows, DropExpired(s.rows, cutoff), token, now) {
        PassedCutoffKeepsGrants(c, s, cutoff, token, now);
      }
    } else {
      var s := EarlyCutoffTakesGrant(c, 0, "t", cutoff, now);
      assert !SameGrants(c, s.rows, DropExpired(s.rows, cutoff), "t", now);
    }
  }

  lemma PassedCutoffKeepsGrants(c: Config, s: State, cutoff: int, token: string, now: int)
    requires Inv(s) && CutoffHasPassed(cutoff, now)
    ensures SameGrants(c, s.rows, DropExpired(s.rows, cutoff), token, now)
  {
    var h, rest := c.hash(token), DropExpired(s.rows, cutoff);
    if Stored(rest, h) {
      assert IdOf(s.rows, h) == IdOf(rest, h);
    } else if Stored(s.rows, h) {
      var id := IdOf(s.rows, h);
      assert id !in rest;
      assert s.rows[id].expires <= Unix(cutoff) - 1;
    }
  }

  /** A cutoff that has not passed takes away the grant of the unrevoked token
      that expires in the last second before it. */
  lemma EarlyCutoffTakesGrant(c: Config, user: UserId, token: string, cutoff: int, now: int) returns (s: State)
    requires token != "" && !CutoffHasPassed(cutoff, now)
    ensures Inv(s) && Judge(c, s.rows, token, now).Granted? && !Judge(c, DropExpired(s.rows, cutoff), token, now).Granted?
  {
    var row := Row(user, c.hash(token), Unix(cutoff) - 1, None, None);
    s := State(map[0 := row], 0, map[0 := 0], {c.hash(token)}, {});
    assert s.rows[0].hash == c.hash(token);
    assert Stored(s.rows, c.hash(token));
    assert DropExpired(s.rows, cutoff) == map[];
  }

  // --------------------------------------------------- what each call means

  /** Whole seconds, rounded down. */
  lemma UnixMeans(t: int)
    ensures Unix(t) * 1_000_000_000 <= t < (Unix(t) + 1) * 1_000_000_000
  {}

  lemma JudgedAlike(c: Config, s: State, after: Table, token: string, now: int)
    requires Inv(s) && after.Keys == s.rows.Keys && forall id :: id in s.rows ==> after[id].hash == s.rows[id].hash
    requires forall id :: id in s.rows && s.rows[id].hash == c.hash(token) ==> after[id] == s.rows[id]
    ensures Judge(c, after, token, now) == Judge(c, s.rows, token, now)
  {
    var h := c.hash(token);
    assert forall id :: id in after && after[id].hash == h <==> id in s.rows && s.rows[id].hash == h;
    if Stored(s.rows, h) {
      assert IdOf(after, h) == IdOf(s.rows, h);
    }
  }

  /** A revoked token is granted at no time, one revoked before keeps its time of
      revocation, and no other token is touched. */
  lemma RevokeMeans(c: Config, s: State, op: Op, s': State)
    requires Inv(s) && op.Revoke? && op.ok && Step(c, s, op, s')
    ensures forall now :: !Judge(c, s'.rows, op.presented, now).Granted?
    ensures s'.rows.Keys == s.rows.Keys
    ensures forall id :: id in s.rows && (s.rows[id].hash != c.hash(op.presented) || s.rows[id].revokedAt.Some?) ==> s'.rows[id] == s.rows[id]
    ensures forall id :: id in s.rows && s.rows[id].hash == c.hash(op.presented) && s.rows[id].revokedAt.None? ==>
      s'.rows[id] == s.rows[id].(revokedAt := Some(Unix(op.at)))
    ensures forall token, now :: c.hash(token) != c.hash(op.presented) ==> Judge(c, s'.rows, token, now) == Judge(c, s.rows, token, now)
  {
    forall token, now | c.hash(token) != c.hash(op.presented) ensures Judge(c, s'.rows, token, now) == Judge(c, s.rows, token, now) {
      JudgedAlike(c, s, s'.rows, token, now);
    }
  }

  /** The same for all tokens of a user, and for nobody else's. */
  lemma RevokeAllMeans(c: Config, s: State, op: Op, s': State)
    requires Inv(s) && op.RevokeAll? && op.ok && Step(c, s, op, s')
    ensures s'.rows.Keys == s.rows.Keys
    ensures forall id :: id in s.rows && (s.rows[id].user != op.user || s.rows[id].revokedAt.Some?) ==> s'.rows[id] == s.rows[id]
    ensures forall id :: id in s.rows && s.rows[id].user == op.user && s.rows[id].revokedAt.None? ==>
      s'.rows[id] == s.rows[id].(revokedAt := Some(Unix(op.at)))
    ensures forall id, token, now :: id in s'.rows && s'.rows[id].user == op.user ==> Judge(c, s'.rows, token, now) != Granted(id)
    ensures forall id, token, now :: id in s.rows && s.rows[id].user != op.user && s.rows[id].hash == c.hash(token) ==>
      Judge(c, s'.rows, token, now) == Judge(c, s.rows, token, now)
  {
    forall id, token, now | id in s.rows && s.rows[id].user != op.user && s.rows[id].hash == c.hash(token)
      ensures Judge(c, s'.rows, token, now) == Judge(c, s.rows, token, now)
    {
      JudgedAlike(c, s, s'.rows, token, now);
    }
  }

  /** The answer for a token of a table that holds it once. */
  lemma JudgedBy(c: Config, s: State, id: TokenId, token: string, now: int)
    requires Inv(s) && id in s.rows && s.rows[id].hash == c.hash(token) && token != ""
    ensures Judge(c, s.rows, token, now) ==
      if s.rows[id].revokedAt.Some? then TokenReuse else if now > s.rows[id].expires * 1_000_000_000 then ExpiredToken else Granted(id)
  {
    assert IdOf(s.rows, c.hash(token)) == id;
  }

  /** A token that is not stored is unknown. */
  lemma UnknownIsInvalid(c: Config, rows: Table, token: string, now: int)
    requires token == "" || forall id :: id in rows ==> rows[id].hash != c.hash(token)
    ensures Judge(c, rows, token, now) == InvalidToken
  {}

  /** An issued token is granted until its lifetime is over, and others are as
      they were. */
  lemma IssueMeans(c: Config, s: State, op: Op, s': State)
    requires Inv(s) && op.Issue? && op.ok && Step(c, s, op, s')
    ensures s'.rows.Keys == s.rows.Keys + {op.id} && op.id !in s.rows && s'.rows[op.id].user == op.user
    ensures forall id :: id in s.rows ==> s'.rows[id] == s.rows[id]
    ensures forall now ::
      Judge(c, s'.rows, op.token, now) == if now > Unix(op.at + c.ttl) * 1_000_000_000 then ExpiredToken else Granted(op.id)
  {
    StepKeepsInv(c, s, op, s');
    forall now ensures Judge(c, s'.rows, op.token, now) == if now > Unix(op.at + c.ttl) * 1_000_000_000 then ExpiredToken else Granted(op.id) {
      JudgedBy(c, s', op.id, op.token, now);
    }
  }

  /** A rotated token is spent; its successor has the same user and a lifetime of
      its own; all other rows are as they were. */
  lemma RotateMeans(c: Config, s: State, op: Op, s': State, prev: TokenId)
    requires Inv(s) && op.Rotate? && op.ok && Step(c, s, op, s') && Judge(c, s.rows, op.presented, op.now) == Granted(prev)
    ensures prev in s.rows && s'.rows.Keys == s.rows.Keys + {op.id} && op.id !in s.rows
    ensures forall id :: id in s.rows && id != prev ==> s'.rows[id] == s.rows[id]
    ensures s'.rows[prev] == s.rows[prev].(revokedAt := Some(Unix(op.at)), replacedBy := Some(op.id)) && s'.rows[op.id].user == s.rows[prev].user
    ensures forall now :: Judge(c, s'.rows, op.presented, now) == TokenReuse
    ensures forall now ::
      Judge(c, s'.rows, op.token, now) == if now > Unix(op.expiryFrom + c.ttl) * 1_000_000_000 then ExpiredToken else Granted(op.id)
  {
    StepKeepsInv(c, s, op, s');
    forall now ensures Judge(c, s'.rows, op.presented, now) == TokenReuse { JudgedBy(c, s', prev, op.presented, now); }
    forall now ensures Judge(c, s'.rows, op.token, now) == if now > Unix(op.expiryFrom + c.ttl) * 1_000_000_000 then ExpiredToken else Granted(op.id) {
      JudgedBy(c, s', op.id, op.token, now);
    }
  }

  /** Deleting expired rows leaves all others as they were. */
  lemma DeleteExpiredMeans(c: Config, s: State, op: Op, s': State)
    requires op.DeleteExpired? && op.ok && Step(c, s, op, s')
    ensures forall id :: id in s'.rows <==> id in s.rows && s.rows[id].expires >= Unix(op.cutoff)
    ensures forall id :: id in s'.rows ==> s'.rows[id] == s.rows[id]
  {}

  /** A write that fails leaves the table as it was, and so does every answer that
      is neither a grant nor a reuse. */
  lemma OtherwiseUnchanged(c: Config, s: State, op: Op, s': State)
    requires Step(c, s, op, s')
    requires !op.ok || ((op.Validate? || op.Rotate?) && Judge(c, s.rows, op.presented, op.now) != TokenReuse && (op.Rotate? ==> !Judge(c, s.rows, op.presented, op.now).Granted?))
    ensures s'.rows == s.rows
  {}

  // --------------------------------------------------- the service

  /** Random ids, random tokens and the success of database writes are given by
      the caller; the clock is read where the service reads it. */
  class Service {
    const c: Config
    var rows: Table
    var clock: int
    ghost var chain: map<TokenId, nat>
    ghost var hashes: set<string>
    ghost var spent: set<string>

    constructor (hash: string -> string, ttlSeconds: int, clock: int)
      ensures c.hash == hash && c.ttl == (if ttlSeconds > 0 then ttlSeconds else 30 * 24 * 60 * 60) * 1_000_000_000
      ensures View() == State(map[], clock, map[], {}, {}) && Inv(View())
    {
      c := Config(hash, Lifetime(ttlSeconds));
      this.rows, this.clock, chain, hashes, spent := map[], clock, map[], {}, {};
    }

    ghost function View(): State
      reads this
    {
      State(rows, clock, chain, hashes, spent)
    }

    /** time.Now: any time not before the last one read. */
    method Now() returns (now: int)
      modifies this`clock
      ensures now == clock >= old(clock)
    {
      var passed: int := *;
      if passed > 0 { clock := clock + passed; }
      return clock;
    }

    /** Records a stored row, for the part of the state the program does not see. */
    ghost method Remember(id: TokenId, row: Row, number: nat)
      modifies this`chain, this`hashes
      ensures chain == old(chain)[id := number] && hashes == old(hashes) + {row.hash}
    {
      chain := chain[id := number];
      hashes := hashes + {row.hash};
    }

    method Issue(user: UserId, id: TokenId, token: string, ok: bool) returns (answer: Answer, ghost op: Op)
      requires Inv(View()) && token != "" && id !in chain && c.hash(token) !in hashes
      modifies this
      ensures Step(c, old(View()), op, View()) && answer == Effect(c, old(View()), op).1 && Inv(View())
      ensures op == Op.Issue(user, id, token, clock, ok)
    {
      ghost var before := View();
      var now := Now();
      op := Op.Issue(user, id, token, now, ok);
      StepKeepsInv(c, before, op, Effect(c, before, op).0);
      if !ok {
        return Failure, op;
      }
      var row := Row(user, c.hash(token), Unix(now + c.ttl), None, None);
      rows := rows[id := row];
      Remember(id, row, NewChain(before));
      return Done, op;
    }

    /** The row with the token's hash. */
    method Lookup(token: string) returns (found: bool, id: TokenId)
      requires WellKept(View())
      ensures found <==> token != "" && Stored(rows, c.hash(token))
      ensures found ==> id == IdOf(rows, c.hash(token))
    {
      id := 0;
      if token == "" {
        return false, id;
      }
      if candidate :| candidate in rows && rows[candidate].hash == c.hash(token) {
        return true, candidate;
      }
      return false, id;
    }

    /** The shared part of Validate and Rotate; `now` is when expiry was judged. */
    method Check(token: string, ok: bool) returns (answer: Answer, now: int)
      requires Inv(View())
      modifies this`rows, this`clock
      ensures old(clock) <= now <= clock
      ensures
        var judged := Judge(c, old(rows), token, now);
        && (judged == TokenReuse ==> rows == Punished(c, old(View()), token, clock, ok).rows && answer == if ok then TokenReuse else Failure)
        && (judged != TokenReuse ==> rows == old(rows) && answer == judged)
    {
      var found, id := Lookup(token);
      if !found {
        now := Now();
        return InvalidToken, now;
      }
      if !Live(rows[id]) {
        now := Now();
        if !ok {
          return Failure, now;
        }
        rows := RevokeUser(rows, rows[id].user, now);
        return TokenReuse, now;
      }
      now := Now();
      if now > rows[id].expires * SECOND {
        return ExpiredToken, now;
      }
      return Granted(id), now;
    }

    method Validate(token: string, ok: bool) returns (answer: Answer, ghost op: Op)
      requires Inv(View())
      modifies this
      ensures Step(c, old(View()), op, View()) && answer == Effect(c, old(View()), op).1 && Inv(View())
      ensures op.Validate? && op.presented == token && op.ok == ok && op.at == clock
    {
      ghost var before := View();
      var now;
      answer, now := Check(token, ok);
      op := Op.Validate(token, now, clock, ok);
      StepKeepsInv(c, before, op, View());
    }

    method Rotate(token: string, newId: TokenId, newToken: string, ok: bool) returns (answer: Answer, ghost op: Op)
      requires Inv(View()) && newToken != "" && newId !in chain && c.hash(newToken) !in hashes
      modifies this
      ensures Step(c, old(View()), op, View()) && answer == Effect(c, old(View()), op).1 && Inv(View())
      ensures op.Rotate? && op.presented == token && op.id == newId && op.token == newToken && op.ok == ok && op.at == clock
    {
      ghost var before := View();
      var now;
      answer, now := Check(token, ok);
      if !answer.Granted? {
        op := Op.Rotate(token, now, newId, newToken, clock, clock, ok);
        StepKeepsInv(c, before, op, View());
        return;
      }
      var expiryFrom := Now();
      var revokedFrom := Now();
      op := Op.Rotate(token, now, newId, newToken, expiryFrom, revokedFrom, ok);
      StepKeepsInv(c, before, op, Effect(c, before, op).0);
      if !ok {
        return Failure, op;
      }
      Exchange(answer.id, newId, newToken, expiryFrom, revokedFrom, op);
      return Granted(newId), op;
    }

    /** The transaction: insert the new row, then revoke the old one. */
    method Exchange(id: TokenId, newId: TokenId, newToken: string, expiryFrom: int, revokedFrom: int, ghost op: Op)
      requires id in rows && id in chain
      requires op.Rotate? && op.id == newId && op.token == newToken && op.expiryFrom == expiryFrom && op.at == revokedFrom
      modifies this
      ensures View() == Rotated(c, old(View()), id, op)
    {
      var previous := rows[id];
      var row := Row(previous.user, c.hash(newToken), Unix(expiryFrom + c.ttl), None, None);
      rows := rows[newId := row];
      rows := rows[id := previous.(revokedAt := Some(Unix(revokedFrom)), replacedBy := Some(newId))];
      Remember(newId, row, chain[id]);
      spent := spent + {previous.hash};
    }

    method Revoke(token: string, ok: bool) returns (answer: Answer, ghost op: Op)
      requires Inv(View())
      modifies this
      ensures Step(c, old(View()), op, View()) && answer == Effect(c, old(View()), op).1 && Inv(View())
      ensures op == Op.Revoke(token, clock, ok)
    {
      ghost var before := View();
      var now := Now();
      op := Op.Revoke(token, now, ok);
      StepKeepsInv(c, before, op, Effect(c, before, op).0);
      if !ok {
        return Failure, op;
      }
      rows := RevokeHash(rows, c.hash(token), now);
      return Done, op;
    }

    method RevokeAllForUser(user: UserId, ok: bool) returns (answer: Answer, ghost op: Op)
      requires Inv(View())
      modifies this
      ensures Step(c, old(View()), op, View()) && answer == Effect(c, old(View()), op).1 && Inv(View())
      ensures op == Op.RevokeAll(user, clock, ok)
    {
      ghost var before := View();
      var now := Now();
      op := Op.RevokeAll(user, now, ok);
      StepKeepsInv(c, before, op, Effect(c, before, op).0);
      if !ok {
        return Failure, op;
      }
      rows := RevokeUser(rows, user, now);
      return Done, op;
    }

    method DeleteExpired(cutoff: int, ok: bool) returns (answer: Answer, removed: nat, ghost op: Op)
      requires Inv(View())
      modifies this
      ensures Step(c, old(View()), op, View()) && answer == Effect(c, old(View()), op).1 && Inv(View())
      ensures op == Op.DeleteExpired(cutoff, clock, ok)
      ensures removed == if ok then |set id | id in old(rows) && old(rows)[id].expires < Unix(cutoff)| else 0
    {
      ghost var before := View();
      op := Op.DeleteExpired(cutoff, clock, ok);
      StepKeepsInv(c, before, op, Effect(c, before, op).0);
      if !ok {
        return Failure, 0, op;
      }
      removed := |set id | id in rows && rows[id].expires < Unix(cutoff)|;
      rows := DropExpired(rows, cutoff);
      return Done, removed, op;
    }
  }
}
