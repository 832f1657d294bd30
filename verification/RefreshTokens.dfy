/**
  Refresh tokens (meritmolt/auth/tokens.py): minting under a cap, rotation with reuse detection and
  revocation, on the token table of a session.
 */
module RefreshTokens {
  import opened Options
  import opened TokenCodec

  /** A stored secret: it verifies against the secret it was made from and no other. */
  datatype Hash = Hash(secret: seq<Byte>)

  datatype Token = Token(
    agent: string,
    hash: Hash,
    createdAt: real,
    expiresAt: real,
    revokedAt: Option<real>,
    rotatedFrom: Option<Uuid>)

  type Tokens = map<Uuid, Token>

  predicate Active(t: Token, now: real) {
    t.revokedAt.None? && t.expiresAt > now
  }

  function ActiveOf(tokens: Tokens, agent: string, now: real): set<Uuid> {
    set id | id in tokens && tokens[id].agent == agent && Active(tokens[id], now)
  }

  /** Not revoked, expired or not: what eviction chooses from. */
  function UnrevokedOf(tokens: Tokens, agent: string): set<Uuid> {
    set id | id in tokens && tokens[id].agent == agent && tokens[id].revokedAt.None?
  }

  predicate IsOldest(tokens: Tokens, agent: string, id: Uuid) {
    id in UnrevokedOf(tokens, agent) && forall o :: o in UnrevokedOf(tokens, agent) ==> tokens[id].createdAt <= tokens[o].createdAt
  }

  function Revoke(tokens: Tokens, id: Uuid, now: real): Tokens {
    if id in tokens && tokens[id].revokedAt.None? then tokens[id := tokens[id].(revokedAt := Some(now))] else tokens
  }

  function RevokeAll(tokens: Tokens, agent: string, now: real): Tokens {
    map id | id in tokens ::
      if tokens[id].agent == agent && tokens[id].revokedAt.None? then tokens[id].(revokedAt := Some(now)) else tokens[id]
  }

  /** What the caller of a mint supplies: settings, the clock and the fresh id and secret. */
  datatype Mint = Mint(now: real, ttl: real, maxActive: int, id: Uuid, secret: seq<Byte>)

  /** The token evicted to make room: an oldest unrevoked one when the agent is at the cap, if there is one. */
  predicate VictimOk(tokens: Tokens, agent: string, m: Mint, victim: Option<Uuid>) {
    if |ActiveOf(tokens, agent, m.now)| >= m.maxActive && UnrevokedOf(tokens, agent) != {}
    then victim.Some? && IsOldest(tokens, agent, victim.value)
    else victim.None?
  }

  /** The rows once the victim, if any, is revoked. */
  function Evicted(tokens: Tokens, victim: Option<Uuid>, now: real): Tokens {
    if victim.Some? then Revoke(tokens, victim.value, now) else tokens
  }

  function NewToken(agent: string, m: Mint, from: Option<Uuid>): Token {
    Token(agent, Hash(m.secret), m.now, m.now + m.ttl, None, from)
  }

  function Minted(tokens: Tokens, agent: string, m: Mint, from: Option<Uuid>, victim: Option<Uuid>): Tokens {
    Evicted(tokens, victim, m.now)[m.id := NewToken(agent, m, from)]
  }

  datatype Denial = UnknownToken | Reused | Expired | BadSecret | AgentMissing

  /** Whether presenting a token is refused, and why; the checks come in this order. */
  function Check(tokens: Tokens, agents: set<string>, id: Uuid, secret: seq<Byte>, now: real): Option<Denial> {
    if id !in tokens then Some(UnknownToken)
    else if tokens[id].revokedAt.Some? then Some(Reused)
    else if tokens[id].expiresAt <= now then Some(Expired)
    else if tokens[id].hash != Hash(secret) then Some(BadSecret)
    else if tokens[id].agent !in agents then Some(AgentMissing)
    else None
  }

  /** What the session holds after a refused rotation: reuse has revoked the agent's tokens, a missing agent the row. */
  function AfterDenial(tokens: Tokens, id: Uuid, d: Denial, at: real): Tokens {
    if d.Reused? && id in tokens then RevokeAll(tokens, tokens[id].agent, at)
    else if d.AgentMissing? then Revoke(tokens, id, at)
    else tokens
  }

  function Rotated(tokens: Tokens, id: Uuid, at: real, m: Mint, victim: Option<Uuid>): Tokens
    requires id in tokens
  {
    Minted(Revoke(tokens, id, at), tokens[id].agent, m, Some(id), victim)
  }

  // ---------- Serial runs ----------

  /**
    Who exists, and whether each step is a transaction of its own, so that a refusal is rolled back, or all
    steps share one session, so that what a refusal wrote stays.
   */
  datatype Env = Env(agents: set<string>, rollsBack: bool)

  datatype Step =
    | Login(agent: string, m: Mint, victim: Option<Uuid>)
    | Rotate(id: Uuid, secret: seq<Byte>, now: real, at: real, m: Mint, victim: Option<Uuid>)
    | Logout(id: Uuid, now: real)
    | LogoutAll(agent: string, now: real)

  predicate Accepted(tokens: Tokens, e: Env, step: Step)
    requires step.Rotate?
  {
    Check(tokens, e.agents, step.id, step.secret, step.now).None?
  }

  /** Fresh ids, and an eviction choice the query could make. */
  predicate Enabled(tokens: Tokens, e: Env, step: Step) {
    match step
    case Login(agent, m, victim) => m.id !in tokens && VictimOk(tokens, agent, m, victim)
    case Rotate(id, secret, now, at, m, victim) =>
      && now <= at <= m.now && m.id !in tokens
      && (Accepted(tokens, e, step) ==> VictimOk(Revoke(tokens, id, at), tokens[id].agent, m, victim))
    case Logout(_, _) => true
    case LogoutAll(_, _) => true
  }

  function Apply(tokens: Tokens, e: Env, step: Step): Tokens
    requires Enabled(tokens, e, step)
  {
    match step
    case Login(agent, m, victim) => Minted(tokens, agent, m, None, victim)
    case Rotate(id, secret, now, at, m, victim) =>
      var denied := Check(tokens, e.agents, id, secret, now);
      if denied.Some? then (if e.rollsBack then tokens else AfterDenial(tokens, id, denied.value, at)) else Rotated(tokens, id, at, m, victim)
    case Logout(id, now) => Revoke(tokens, id, now)
    case LogoutAll(agent, now) => RevokeAll(tokens, agent, now)
  }

  predicate IsRun(tokens: Tokens, e: Env, steps: seq<Step>)
    decreases |steps|
  {
    steps == [] || (Enabled(tokens, e, steps[0]) && IsRun(Apply(tokens, e, steps[0]), e, steps[1..]))
  }

  function Run(tokens: Tokens, e: Env, steps: seq<Step>): Tokens
    requires IsRun(tokens, e, steps)
    decreases |steps|
  {
    if steps == [] then tokens else Run(Apply(tokens, e, steps[0]), e, steps[1..])
  }
}
