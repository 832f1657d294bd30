/**
  The token operations on a database session, and the requests that commit or roll back that session
  (meritmolt/auth/tokens.py, meritmolt/auth/dependencies.py). Each method is tied to its function in
  RefreshTokens.
 */
module RefreshTokenDb {
  import opened Options
  import opened TokenCodec
  import opened RefreshTokens
  import RT = RefreshTokens
  import opened RefreshTokenProofs

  datatype Outcome = Refreshed(raw: string, agent: string) | BadFormat | Denied(denial: Denial)

  /** An agent with unrevoked tokens has an oldest one. */
  lemma {:induction false} OldestOf(tokens: Tokens, ids: set<Uuid>) returns (oldest: Uuid)
    requires ids != {} && forall id :: id in ids ==> id in tokens
    ensures oldest in ids && forall id :: id in ids ==> tokens[oldest].createdAt <= tokens[id].createdAt
    decreases ids
  {
    oldest :| oldest in ids;
    if ids != {oldest} {
      var rest := OldestOf(tokens, ids - {oldest});
      if tokens[rest].createdAt < tokens[oldest].createdAt { oldest := rest; }
    }
  }

  /** A row that is unrevoked and unexpired, made with this secret, of an agent that exists. */
  predicate Good(tokens: Tokens, agents: set<string>, id: Uuid, secret: seq<Byte>, now: real) {
    && id in tokens && tokens[id].revokedAt == None && tokens[id].expiresAt > now
    && tokens[id].hash == Hash(secret) && tokens[id].agent in agents
  }

  class Session {
    var tokens: Tokens
    var agents: set<string>

    constructor (tokens: Tokens, agents: set<string>)
      ensures this.tokens == tokens && this.agents == agents
    {
      this.tokens, this.agents := tokens, agents;
    }

    /** Revoke the agent's oldest unrevoked token. */
    method EvictOldest(agent: string, now: real) returns (victim: Option<Uuid>)
      modifies `tokens
      ensures victim.Some? <==> UnrevokedOf(old(tokens), agent) != {}
      ensures victim.Some? ==> IsOldest(old(tokens), agent, victim.value)
      ensures tokens == Evicted(old(tokens), victim, now)
    {
      victim := None;
      if id :| id in tokens && IsOldest(tokens, agent, id) {
        victim := Some(id);
        tokens := tokens[id := tokens[id].(revokedAt := Some(now))];
      } else if UnrevokedOf(tokens, agent) != {} {
        var oldest := OldestOf(tokens, UnrevokedOf(tokens, agent));
        assert IsOldest(tokens, agent, oldest);
      }
    }

    method Mint(agent: string, m: Mint, from: Option<Uuid>) returns (raw: string, ghost victim: Option<Uuid>)
      requires m.id !in tokens
      modifies `tokens
      ensures VictimOk(old(tokens), agent, m, victim)
      ensures tokens == Minted(old(tokens), agent, m, from, victim)
      ensures raw == Print(m.id, m.secret)
      ensures tokens[m.id] == Token(agent, Hash(m.secret), m.now, m.now + m.ttl, None, from)
    {
      victim := None;
      var count := |ActiveOf(tokens, agent, m.now)|;
      if count >= m.maxActive {
        victim := EvictOldest(agent, m.now);
      }
      tokens := tokens[m.id := Token(agent, Hash(m.secret), m.now, m.now + m.ttl, None, from)];
      raw := Print(m.id, m.secret);
    }

    method RevokeToken(raw: string, now: real)
      modifies `tokens
      ensures tokens == match Parse(raw) case Some(p) => Revoke(old(tokens), p.0, now) case None => old(tokens)
    {
      var parsed := Parse(raw);
      if parsed.None? {
        return;
      }
      var id := parsed.value.0;
      if id in tokens && tokens[id].revokedAt.None? {
        tokens := tokens[id := tokens[id].(revokedAt := Some(now))];
      }
    }

    method RevokeAllAgentTokens(agent: string, now: real)
      modifies `tokens
      ensures tokens == RevokeAll(old(tokens), agent, now)
    {
      tokens := map id | id in tokens ::
        if tokens[id].agent == agent && tokens[id].revokedAt.None? then tokens[id].(revokedAt := Some(now)) else tokens[id];
    }

    /** What the session holds afterwards, and the answer, whichever check fails. */
    method Rotate(raw: string, now: real, at: real, m: Mint) returns (r: Outcome, ghost victim: Option<Uuid>)
      requires m.id !in tokens
      modifies `tokens
      ensures Parse(raw).None? ==> r == BadFormat && tokens == old(tokens)
      ensures Parse(raw).Some? ==>
                var (id, secret) := Parse(raw).value;
                var denial := Check(old(tokens), agents, id, secret, now);
                if denial.Some? then r == Denied(denial.value) && tokens == AfterDenial(old(tokens), id, denial.value, at)
                else
                  && VictimOk(Revoke(old(tokens), id, at), old(tokens)[id].agent, m, victim)
                  && tokens == Rotated(old(tokens), id, at, m, victim)
                  && r == Refreshed(Print(m.id, m.secret), old(tokens)[id].agent)
      ensures r.Refreshed? <==> Parse(raw).Some? && Good(old(tokens), agents, Parse(raw).value.0, Parse(raw).value.1, now)
      ensures r.Refreshed? ==> tokens[m.id] == Token(r.agent, Hash(m.secret), m.now, m.now + m.ttl, None, Some(Parse(raw).value.0))
      ensures r.Refreshed? ==> tokens[Parse(raw).value.0].revokedAt == Some(at)
      ensures r == Denied(BadSecret) ==> tokens == old(tokens)
    {
      victim := None;
      var parsed := Parse(raw);
      if parsed.None? {
        return BadFormat, victim;
      }
      var (id, secret) := parsed.value;
      if id !in tokens {
        return Denied(UnknownToken), victim;
      }
      var row := tokens[id];
      if row.revokedAt.Some? {
        RevokeAllAgentTokens(row.agent, at);
        return Denied(Reused), victim;
      }
      if row.expiresAt <= now {
        return Denied(Expired), victim;
      }
      if row.hash != Hash(secret) {
        return Denied(BadSecret), victim;
      }
      tokens := tokens[id := row.(revokedAt := Some(at))];
      if row.agent !in agents {
        return Denied(AgentMissing), victim;
      }
      var newRaw;
      newRaw, victim := Mint(row.agent, m, Some(id));
      return Refreshed(newRaw, row.agent), victim;
    }
  }

  /** The committed rows; each request works on a session that is committed only if nothing is raised. */
  class Database {
    var tokens: Tokens
    var agents: set<string>

    method Login(agent: string, m: Mint) returns (raw: string, ghost victim: Option<Uuid>)
      requires m.id !in tokens
      modifies this
      ensures agents == old(agents) + {agent}
      ensures VictimOk(old(tokens), agent, m, victim) && tokens == Minted(old(tokens), agent, m, None, victim)
      ensures raw == Print(m.id, m.secret)
      ensures var step := RT.Login(agent, m, victim);
              RT.Enabled(old(tokens), Env(agents, true), step) && tokens == RT.Apply(old(tokens), Env(agents, true), step)
      ensures ChainsOk(old(tokens)) ==> ChainsOk(tokens)
    {
      var session := new Session(tokens, agents + {agent});
      raw, victim := session.Mint(agent, m, None);
      if ChainsOk(tokens) { MintKeepsChains(tokens, agent, m, None, victim); }
      tokens, agents := session.tokens, session.agents;
    }

    /** A refused refresh leaves no trace, not even the revocations that answer a reused token. */
    method Refresh(raw: string, now: real, at: real, m: Mint) returns (r: Outcome, ghost victim: Option<Uuid>)
      requires m.id !in tokens
      modifies this
      ensures agents == old(agents)
      ensures r.Refreshed? <==> Parse(raw).Some? && Check(old(tokens), agents, Parse(raw).value.0, Parse(raw).value.1, now).None?
      ensures r.Refreshed? <==> Parse(raw).Some? && Good(old(tokens), agents, Parse(raw).value.0, Parse(raw).value.1, now)
      ensures !r.Refreshed? ==> tokens == old(tokens)
      ensures r.Refreshed? ==> r.raw == Print(m.id, m.secret) && tokens == Rotated(old(tokens), Parse(raw).value.0, at, m, victim)
      ensures Parse(raw).Some? && now <= at <= m.now ==>
                var step := RT.Rotate(Parse(raw).value.0, Parse(raw).value.1, now, at, m, victim);
                RT.Enabled(old(tokens), Env(agents, true), step) && tokens == RT.Apply(old(tokens), Env(agents, true), step)
      ensures ChainsOk(old(tokens)) ==> ChainsOk(tokens)
    {
      var session := new Session(tokens, agents);
      r, victim := session.Rotate(raw, now, at, m);
      if r.Refreshed? {
        if ChainsOk(tokens) { RotationKeepsChains(tokens, Parse(raw).value.0, at, m, victim); }
        tokens := session.tokens;
      }
    }

    method Logout(raw: string, now: real)
      modifies this
      ensures agents == old(agents)
      ensures tokens == match Parse(raw) case Some(p) => Revoke(old(tokens), p.0, now) case None => old(tokens)
      ensures ChainsOk(old(tokens)) ==> ChainsOk(tokens)
    {
      var session := new Session(tokens, agents);
      session.RevokeToken(raw, now);
      if ChainsOk(tokens) { RevokingKeepsChains(tokens, session.tokens); }
      tokens := session.tokens;
    }
  }
}
