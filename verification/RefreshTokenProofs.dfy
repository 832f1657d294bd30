/**
  Rotation chains, permanence of revocation and the cap on active tokens.
 */
module RefreshTokenProofs {
  import opened Collections
  import opened Options
  import opened TokenCodec
  import opened TokenCodecProofs
  import opened RefreshTokens

  // ---------- Chains ----------

  /** Going back from `id` over `n` rotations reaches the token of login `root`. */
  ghost predicate Chain(tokens: Tokens, id: Uuid, root: Uuid, n: nat)
    decreases n
  {
    && id in tokens
    && (if tokens[id].rotatedFrom.None? then n == 0 && id == root
        else n > 0 && Chain(tokens, tokens[id].rotatedFrom.value, root, n - 1))
  }

  /** Going back ends at a login. */
  ghost predicate Rooted(tokens: Tokens, id: Uuid) {
    exists root, n: nat :: Chain(tokens, id, root, n)
  }

  /** A rotated token has a revoked predecessor of the same agent. */
  ghost predicate PredecessorOk(tokens: Tokens, id: Uuid)
    requires id in tokens
  {
    var from := tokens[id].rotatedFrom;
    from.Some? ==> from.value in tokens && tokens[from.value].revokedAt.Some? && tokens[from.value].agent == tokens[id].agent
  }

  ghost predicate ChainsOk(tokens: Tokens) {
    && (forall id :: id in tokens ==> PredecessorOk(tokens, id))
    && (forall a, b :: a in tokens && b in tokens && a != b && tokens[a].rotatedFrom.Some? ==> tokens[a].rotatedFrom != tokens[b].rotatedFrom)
    && (forall id :: id in tokens ==> Rooted(tokens, id))
  }

  /** The same rows, some of them revoked since. */
  ghost predicate OnlyRevoked(tokens: Tokens, tokens': Tokens) {
    tokens'.Keys == tokens.Keys && forall id :: id in tokens ==>
      tokens'[id] == tokens[id] || (tokens[id].revokedAt.None? && tokens'[id].revokedAt.Some? && tokens'[id] == tokens[id].(revokedAt := tokens'[id].revokedAt))
  }

  lemma {:induction false} ChainCarries(tokens: Tokens, tokens': Tokens, id: Uuid, root: Uuid, n: nat)
    requires Chain(tokens, id, root, n)
    requires forall x :: x in tokens ==> x in tokens' && tokens'[x].rotatedFrom == tokens[x].rotatedFrom
    ensures Chain(tokens', id, root, n)
    decreases n
  {
    if n > 0 { ChainCarries(tokens, tokens', tokens[id].rotatedFrom.value, root, n - 1); }
  }

  lemma RevokingKeepsChains(tokens: Tokens, tokens': Tokens)
    requires ChainsOk(tokens) && OnlyRevoked(tokens, tokens')
    ensures ChainsOk(tokens')
  {
    forall id | id in tokens' ensures PredecessorOk(tokens', id) && Rooted(tokens', id) {
      assert PredecessorOk(tokens, id);
      var root, n: nat :| Chain(tokens, id, root, n);
      ChainCarries(tokens, tokens', id, root, n);
    }
  }

  /** A new token is a login, or the first successor of a revoked token of its agent. */
  ghost predicate MayAdd(tokens: Tokens, t: Token) {
    t.rotatedFrom.Some? ==>
      var from := t.rotatedFrom.value;
      && from in tokens && tokens[from].revokedAt.Some? && tokens[from].agent == t.agent
      && forall x :: x in tokens ==> tokens[x].rotatedFrom != t.rotatedFrom
  }

  lemma NewTokenHasChain(tokens: Tokens, id: Uuid, t: Token)
    requires ChainsOk(tokens) && id !in tokens && MayAdd(tokens, t)
    ensures Rooted(tokens[id := t], id)
  {
    var tokens' := tokens[id := t];
    if t.rotatedFrom.Some? {
      var root, n: nat :| Chain(tokens, t.rotatedFrom.value, root, n);
      ChainCarries(tokens, tokens', t.rotatedFrom.value, root, n);
      assert Chain(tokens', id, root, n + 1);
    } else {
      assert Chain(tokens', id, id, 0);
    }
  }

  lemma OldTokensKeepChains(tokens: Tokens, id: Uuid, t: Token, x: Uuid)
    requires ChainsOk(tokens) && id !in tokens && x in tokens
    ensures Rooted(tokens[id := t], x)
  {
    var root, n: nat :| Chain(tokens, x, root, n);
    ChainCarries(tokens, tokens[id := t], x, root, n);
  }

  lemma AddingKeepsChains(tokens: Tokens, id: Uuid, t: Token)
    requires ChainsOk(tokens) && id !in tokens && MayAdd(tokens, t)
    ensures ChainsOk(tokens[id := t])
  {
    var tokens' := tokens[id := t];
    forall x | x in tokens' ensures PredecessorOk(tokens', x) { if x != id { assert PredecessorOk(tokens, x); } }
    forall x | x in tokens' ensures Rooted(tokens', x) {
      if x == id { NewTokenHasChain(tokens, id, t); } else { OldTokensKeepChains(tokens, id, t, x); }
    }
  }

  /** A token not yet revoked has not been rotated. */
  lemma UnrevokedHasNoSuccessor(tokens: Tokens, id: Uuid)
    requires ChainsOk(tokens) && id in tokens && tokens[id].revokedAt.None?
    ensures forall x :: x in tokens ==> tokens[x].rotatedFrom != Some(id)
  {
    forall x | x in tokens ensures tokens[x].rotatedFrom != Some(id) { assert PredecessorOk(tokens, x); }
  }

  lemma MintKeepsChains(tokens: Tokens, agent: string, m: Mint, from: Option<Uuid>, victim: Option<Uuid>)
    requires ChainsOk(tokens) && m.id !in tokens
    requires from.Some? ==>
               && from.value in tokens && tokens[from.value].revokedAt.Some? && tokens[from.value].agent == agent
               && forall x :: x in tokens ==> tokens[x].rotatedFrom != from
    ensures ChainsOk(Minted(tokens, agent, m, from, victim))
  {
    var kept := Evicted(tokens, victim, m.now);
    RevokingKeepsChains(tokens, kept);
    AddingKeepsChains(kept, m.id, NewToken(agent, m, from));
  }

  lemma RotationKeepsChains(tokens: Tokens, id: Uuid, at: real, m: Mint, victim: Option<Uuid>)
    requires ChainsOk(tokens) && id in tokens && tokens[id].revokedAt.None? && m.id !in tokens
    ensures ChainsOk(Rotated(tokens, id, at, m, victim))
  {
    UnrevokedHasNoSuccessor(tokens, id);
    var revoked := Revoke(tokens, id, at);
    RevokingKeepsChains(tokens, revoked);
    MintKeepsChains(revoked, tokens[id].agent, m, Some(id), victim);
  }

  /** A step that mints nothing only revokes. */
  lemma OtherStepsRevoke(tokens: Tokens, e: Env, step: Step)
    requires Enabled(tokens, e, step) && !step.Login? && !(step.Rotate? && Accepted(tokens, e, step))
    ensures OnlyRevoked(tokens, Apply(tokens, e, step))
  {
  }

  lemma StepKeepsChains(tokens: Tokens, e: Env, step: Step)
    requires ChainsOk(tokens) && Enabled(tokens, e, step)
    ensures ChainsOk(Apply(tokens, e, step))
  {
    if step.Login? {
      MintKeepsChains(tokens, step.agent, step.m, None, step.victim);
    } else if step.Rotate? && Accepted(tokens, e, step) {
      RotationKeepsChains(tokens, step.id, step.at, step.m, step.victim);
    } else {
      OtherStepsRevoke(tokens, e, step);
      RevokingKeepsChains(tokens, Apply(tokens, e, step));
    }
  }

  /** In every state of every serial run the rotations form chains. */
  lemma {:induction false} RunKeepsChains(tokens: Tokens, e: Env, steps: seq<Step>)
    requires ChainsOk(tokens) && IsRun(tokens, e, steps)
    ensures ChainsOk(Run(tokens, e, steps))
    decreases |steps|
  {
    if steps != [] {
      StepKeepsChains(tokens, e, steps[0]);
      RunKeepsChains(Apply(tokens, e, steps[0]), e, steps[1..]);
    }
  }

  // ---------- What chains mean ----------

  lemma {:induction false} ChainUnique(tokens: Tokens, id: Uuid, r1: Uuid, n1: nat, r2: Uuid, n2: nat)
    requires Chain(tokens, id, r1, n1) && Chain(tokens, id, r2, n2)
    ensures r1 == r2 && n1 == n2
    decreases n1
  {
    if n1 > 0 { ChainUnique(tokens, tokens[id].rotatedFrom.value, r1, n1 - 1, r2, n2 - 1); }
  }

  /** Going back a positive number of rotations never returns to the same token. */
  ghost predicate Back(tokens: Tokens, id: Uuid, n: nat, to: Uuid)
    decreases n
  {
    id in tokens && if n == 0 then id == to else tokens[id].rotatedFrom.Some? && Back(tokens, tokens[id].rotatedFrom.value, n - 1, to)
  }

  lemma {:induction false} BackShortens(tokens: Tokens, id: Uuid, n: nat, to: Uuid, root: Uuid, len: nat)
    requires Chain(tokens, id, root, len) && Back(tokens, id, n, to)
    ensures n <= len && Chain(tokens, to, root, len - n)
    decreases n
  {
    if n > 0 { BackShortens(tokens, tokens[id].rotatedFrom.value, n - 1, to, root, len - 1); }
  }

  lemma Acyclic(tokens: Tokens, id: Uuid, n: nat)
    requires ChainsOk(tokens) && n > 0
    ensures !Back(tokens, id, n, id)
  {
    if Back(tokens, id, n, id) {
      var root, len: nat :| Chain(tokens, id, root, len);
      BackShortens(tokens, id, n, id, root, len);
      ChainUnique(tokens, id, root, len, root, len - n);
    }
  }

  /** One token of a login at each distance. */
  lemma {:induction false} OnePerDistance(tokens: Tokens, a: Uuid, b: Uuid, root: Uuid, n: nat)
    requires ChainsOk(tokens) && Chain(tokens, a, root, n) && Chain(tokens, b, root, n)
    ensures a == b
    decreases n
  {
    if n > 0 { OnePerDistance(tokens, tokens[a].rotatedFrom.value, tokens[b].rotatedFrom.value, root, n - 1); }
  }

  /** Every token of a login but its latest is revoked. */
  lemma {:induction false} EarlierIsRevoked(tokens: Tokens, a: Uuid, b: Uuid, root: Uuid, m: nat, n: nat)
    requires ChainsOk(tokens) && Chain(tokens, a, root, m) && Chain(tokens, b, root, n) && m < n
    ensures tokens[a].revokedAt.Some?
    decreases n
  {
    assert PredecessorOk(tokens, b);
    var prev := tokens[b].rotatedFrom.value;
    if m == n - 1 {
      OnePerDistance(tokens, a, prev, root, m);
    } else {
      EarlierIsRevoked(tokens, a, prev, root, m, n - 1);
    }
  }

  /** A login's chain of rotations holds at most one unrevoked token. */
  lemma OneLiveTokenPerLogin(tokens: Tokens, a: Uuid, b: Uuid, root: Uuid, m: nat, n: nat)
    requires ChainsOk(tokens) && Chain(tokens, a, root, m) && Chain(tokens, b, root, n)
    requires tokens[a].revokedAt.None? && tokens[b].revokedAt.None?
    ensures a == b
  {
    if m < n { EarlierIsRevoked(tokens, a, b, root, m, n); }
    if n < m { EarlierIsRevoked(tokens, b, a, root, n, m); }
    if m == n { OnePerDistance(tokens, a, b, root, m); }
  }

  /** From the first login on, in a session or over committed transactions: chains, without cycles, one live token each. */
  lemma ChainsFromStart(e: Env, steps: seq<Step>)
    requires IsRun(map[], e, steps)
    ensures var t := Run(map[], e, steps);
            && ChainsOk(t)
            && (forall id, n: nat :: n > 0 ==> !Back(t, id, n, id))
            && (forall a, b, root, m: nat, n: nat ::
                  Chain(t, a, root, m) && Chain(t, b, root, n) && t[a].revokedAt.None? && t[b].revokedAt.None? ==> a == b)
  {
    RunKeepsChains(map[], e, steps);
    var t := Run(map[], e, steps);
    forall id, n: nat | n > 0 ensures !Back(t, id, n, id) { Acyclic(t, id, n); }
    forall a, b, root, m: nat, n: nat | Chain(t, a, root, m) && Chain(t, b, root, n) && t[a].revokedAt.None? && t[b].revokedAt.None? ensures a == b {
      OneLiveTokenPerLogin(t, a, b, root, m, n);
    }
  }

  // ---------- Revocation is for good ----------

  /** Rows are kept, and a revoked row keeps its stamp. */
  ghost predicate RevokedStay(tokens: Tokens, tokens': Tokens) {
    forall id :: id in tokens ==> id in tokens' && (tokens[id].revokedAt.Some? ==> tokens'[id] == tokens[id])
  }

  lemma {:induction false} RevocationPermanent(tokens: Tokens, e: Env, steps: seq<Step>)
    requires IsRun(tokens, e, steps)
    ensures RevokedStay(tokens, Run(tokens, e, steps))
    decreases |steps|
  {
    if steps != [] {
      var next := Apply(tokens, e, steps[0]);
      StepRevokedStay(tokens, e, steps[0]);
      RevocationPermanent(next, e, steps[1..]);
    }
  }

  lemma StepRevokedStay(tokens: Tokens, e: Env, step: Step)
    requires Enabled(tokens, e, step)
    ensures RevokedStay(tokens, Apply(tokens, e, step))
  {
    match step
    case Login(_, _, _) =>
    case Rotate(_, _, _, _, _, _) =>
    case Logout(_, _) =>
    case LogoutAll(_, _) =>
  }

  /** A revoked token is never accepted again, whatever happens in between. */
  lemma ReplayRefused(tokens: Tokens, e: Env, steps: seq<Step>, id: Uuid, secret: seq<Byte>, now: real)
    requires IsRun(tokens, e, steps) && id in tokens && tokens[id].revokedAt.Some?
    ensures Check(Run(tokens, e, steps), e.agents, id, secret, now) == Some(Reused)
  {
    RevocationPermanent(tokens, e, steps);
  }

  // ---------- The cap ----------

  lemma RevokeCount(tokens: Tokens, agent: string, id: Uuid, at: real, now: real)
    ensures ActiveOf(Revoke(tokens, id, at), agent, now) == ActiveOf(tokens, agent, now) - {id}
  {
  }

  lemma AddedActive(tokens: Tokens, agent: string, id: Uuid, t: Token, now: real)
    requires id !in tokens && t.agent == agent && Active(t, now)
    ensures ActiveOf(tokens[id := t], agent, now) == ActiveOf(tokens, agent, now) + {id}
  {
  }

  lemma EvictedActive(tokens: Tokens, agent: string, victim: Option<Uuid>, now: real)
    ensures ActiveOf(Evicted(tokens, victim, now), agent, now) == ActiveOf(tokens, agent, now) - (if victim.Some? then {victim.value} else {})
  {
  }

  lemma CountAfter(before: set<Uuid>, victim: Option<Uuid>, id: Uuid)
    requires id !in before
    ensures |before - (if victim.Some? then {victim.value} else {}) + {id}| == |before| + 1 - if victim.Some? && victim.value in before then 1 else 0
  {
    var left := before - (if victim.Some? then {victim.value} else {});
    assert victim.None? ==> left == before;
    assert |left + {id}| == |left| + 1;
  }

  /** Minting adds one active token and takes away the victim if that was active. */
  lemma MintCount(tokens: Tokens, agent: string, m: Mint, from: Option<Uuid>, victim: Option<Uuid>)
    requires m.id !in tokens && m.ttl > 0.0
    ensures var before, after := ActiveOf(tokens, agent, m.now), ActiveOf(Minted(tokens, agent, m, from, victim), agent, m.now);
            |after| == |before| + 1 - if victim.Some? && victim.value in before then 1 else 0
  {
    EvictedActive(tokens, agent, victim, m.now);
    AddedActive(Evicted(tokens, victim, m.now), agent, m.id, NewToken(agent, m, from), m.now);
    CountAfter(ActiveOf(tokens, agent, m.now), victim, m.id);
  }

  /** A mint within the cap stays within it exactly when the agent was below it or the oldest unrevoked token had not expired. */
  lemma MintCapIff(tokens: Tokens, agent: string, m: Mint, from: Option<Uuid>, victim: Option<Uuid>)
    requires m.id !in tokens && m.ttl > 0.0 && m.maxActive >= 1 && VictimOk(tokens, agent, m, victim)
    requires |ActiveOf(tokens, agent, m.now)| <= m.maxActive
    ensures |ActiveOf(Minted(tokens, agent, m, from, victim), agent, m.now)| <= m.maxActive <==>
            |ActiveOf(tokens, agent, m.now)| < m.maxActive || (victim.Some? && tokens[victim.value].expiresAt > m.now)
  {
    MintCount(tokens, agent, m, from, victim);
  }

  /** With no expired token left unrevoked the cap holds. */
  lemma MintCap(tokens: Tokens, agent: string, m: Mint, from: Option<Uuid>, victim: Option<Uuid>)
    requires m.id !in tokens && m.ttl > 0.0 && m.maxActive >= 1 && VictimOk(tokens, agent, m, victim)
    requires |ActiveOf(tokens, agent, m.now)| <= m.maxActive && UnrevokedOf(tokens, agent) == ActiveOf(tokens, agent, m.now)
    ensures |ActiveOf(Minted(tokens, agent, m, from, victim), agent, m.now)| <= m.maxActive
  {
    MintCapIff(tokens, agent, m, from, victim);
    if |ActiveOf(tokens, agent, m.now)| == m.maxActive { assert UnrevokedOf(tokens, agent) != {}; }
  }

  /** Rotating an active token within the cap evicts nobody: only that token is revoked, and the cap still holds. */
  lemma RotateEvictsNobody(tokens: Tokens, e: Env, step: Step)
    requires step.Rotate? && Enabled(tokens, e, step) && Accepted(tokens, e, step)
    requires |ActiveOf(tokens, tokens[step.id].agent, step.now)| <= step.m.maxActive && step.m.ttl > 0.0
    ensures var after := Apply(tokens, e, step);
            && (forall x :: x in tokens && x != step.id ==> x in after && after[x] == tokens[x])
            && after[step.id] == tokens[step.id].(revokedAt := Some(step.at))
            && |ActiveOf(after, tokens[step.id].agent, step.m.now)| <= step.m.maxActive
  {
    var agent := tokens[step.id].agent;
    var revoked := Revoke(tokens, step.id, step.at);
    RevokeCount(tokens, agent, step.id, step.at, step.m.now);
    var others := ActiveOf(tokens, agent, step.now) - {step.id};
    assert step.id in ActiveOf(tokens, agent, step.now);
    assert ActiveOf(revoked, agent, step.m.now) <= others;
    SubsetSize(ActiveOf(revoked, agent, step.m.now), others);
    MintCount(revoked, agent, step.m, Some(step.id), step.victim);
  }

  // ---------- The cap over runs ----------

  ghost predicate WithinCap(tokens: Tokens, agent: string, cap: int, now: real) {
    |ActiveOf(tokens, agent, now)| <= cap
  }

  /** When a step begins and when it ends. */
  function Begin(step: Step): real {
    match step
    case Login(_, m, _) => m.now
    case Rotate(_, _, now, _, _, _) => now
    case Logout(_, now) => now
    case LogoutAll(_, now) => now
  }

  function End(step: Step): real {
    if step.Rotate? then step.m.now else Begin(step)
  }

  predicate Configured(step: Step, cap: int) {
    step.Login? || step.Rotate? ==> step.m.maxActive == cap && step.m.ttl > 0.0
  }

  /** A login of the agent below its cap, or with an oldest unrevoked token that has not expired. */
  ghost predicate LoginSafe(tokens: Tokens, agent: string, step: Step) {
    step.Login? && step.agent == agent ==>
      || |ActiveOf(tokens, agent, step.m.now)| < step.m.maxActive
      || (step.victim.Some? && step.victim.value in tokens && tokens[step.victim.value].expiresAt > step.m.now)
  }

  /** Time passing and revocations only lower the count. */
  lemma FewerActive(tokens: Tokens, tokens': Tokens, agent: string, cap: int, now: real, later: real)
    requires OnlyRevoked(tokens, tokens') && now <= later && WithinCap(tokens, agent, cap, now)
    ensures WithinCap(tokens', agent, cap, later)
  {
    assert ActiveOf(tokens', agent, later) <= ActiveOf(tokens, agent, now);
    SubsetSize(ActiveOf(tokens', agent, later), ActiveOf(tokens, agent, now));
  }

  /** Another agent's mint does not raise the count. */
  lemma OtherMint(tokens: Tokens, agent: string, other: string, m: Mint, from: Option<Uuid>, victim: Option<Uuid>, cap: int, now: real)
    requires other != agent && m.id !in tokens && now <= m.now && WithinCap(tokens, agent, cap, now)
    ensures WithinCap(Minted(tokens, other, m, from, victim), agent, cap, m.now)
  {
    var kept := Evicted(tokens, victim, m.now);
    FewerActive(tokens, kept, agent, cap, now, m.now);
    assert ActiveOf(kept[m.id := NewToken(other, m, from)], agent, m.now) == ActiveOf(kept, agent, m.now);
  }

  lemma StepCapIff(tokens: Tokens, e: Env, step: Step, agent: string, cap: int, now: real)
    requires Enabled(tokens, e, step) && Configured(step, cap) && cap >= 1
    requires now <= Begin(step) && WithinCap(tokens, agent, cap, now)
    ensures WithinCap(Apply(tokens, e, step), agent, cap, End(step)) <==> LoginSafe(tokens, agent, step)
  {
    FewerActive(tokens, tokens, agent, cap, now, Begin(step));
    if step.Login? {
      if step.agent == agent { MintCapIff(tokens, agent, step.m, None, step.victim); }
      else { OtherMint(tokens, agent, step.agent, step.m, None, step.victim, cap, now); }
    } else if step.Rotate? && Accepted(tokens, e, step) {
      if tokens[step.id].agent == agent { RotateEvictsNobody(tokens, e, step); }
      else {
        var revoked := Revoke(tokens, step.id, step.at);
        FewerActive(tokens, revoked, agent, cap, now, step.now);
        OtherMint(revoked, agent, tokens[step.id].agent, step.m, Some(step.id), step.victim, cap, step.now);
      }
    } else {
      OtherStepsRevoke(tokens, e, step);
      FewerActive(tokens, Apply(tokens, e, step), agent, cap, now, End(step));
    }
  }

  /** Steps that follow each other in time, with the same settings. */
  predicate Serial(steps: seq<Step>, cap: int, now: real)
    decreases |steps|
  {
    steps == [] || (now <= Begin(steps[0]) <= End(steps[0]) && Configured(steps[0], cap) && Serial(steps[1..], cap, End(steps[0])))
  }

  /** The agent is within its cap after every step. */
  ghost predicate Capped(tokens: Tokens, e: Env, steps: seq<Step>, agent: string, cap: int)
    requires IsRun(tokens, e, steps)
    decreases |steps|
  {
    steps == [] ||
    var next := Apply(tokens, e, steps[0]);
    WithinCap(next, agent, cap, End(steps[0])) && Capped(next, e, steps[1..], agent, cap)
  }

  /** Every login of the agent finds room, or an oldest token worth evicting. */
  ghost predicate LoginsSafe(tokens: Tokens, e: Env, steps: seq<Step>, agent: string)
    requires IsRun(tokens, e, steps)
    decreases |steps|
  {
    steps == [] || (LoginSafe(tokens, agent, steps[0]) && LoginsSafe(Apply(tokens, e, steps[0]), e, steps[1..], agent))
  }

  /** Over any serial run the cap holds throughout exactly when no login evicts an expired token while at the cap. */
  lemma {:induction false} RunCapIff(tokens: Tokens, e: Env, steps: seq<Step>, agent: string, cap: int, now: real)
    requires IsRun(tokens, e, steps) && Serial(steps, cap, now) && cap >= 1 && WithinCap(tokens, agent, cap, now)
    ensures Capped(tokens, e, steps, agent, cap) <==> LoginsSafe(tokens, e, steps, agent)
    decreases |steps|
  {
    if steps != [] {
      StepCapIff(tokens, e, steps[0], agent, cap, now);
      if LoginSafe(tokens, agent, steps[0]) {
        RunCapIff(Apply(tokens, e, steps[0]), e, steps[1..], agent, cap, End(steps[0]));
      }
    }
  }

  lemma StepFirst(tokens: Tokens, e: Env, step: Step, rest: seq<Step>)
    requires Enabled(tokens, e, step) && IsRun(Apply(tokens, e, step), e, rest)
    ensures IsRun(tokens, e, [step] + rest) && Run(tokens, e, [step] + rest) == Run(Apply(tokens, e, step), e, rest)
  {
    assert ([step] + rest)[1..] == rest;
  }

  lemma {:induction false} LastCapped(tokens: Tokens, e: Env, steps: seq<Step>, agent: string, cap: int)
    requires IsRun(tokens, e, steps) && steps != [] && Capped(tokens, e, steps, agent, cap)
    ensures WithinCap(Run(tokens, e, steps), agent, cap, End(steps[|steps| - 1]))
    decreases |steps|
  {
    if |steps| > 1 { LastCapped(Apply(tokens, e, steps[0]), e, steps[1..], agent, cap); }
  }

  /** A login at some moment, its token good for ten seconds, under a cap of one. */
  function LoginAt(now: real, n: Byte): Mint {
    Mint(now, 10.0, 1, seq(16, _ => n), [])
  }

  lemma LoginIds()
    ensures LoginAt(0.0, 0).id != LoginAt(20.0, 1).id && LoginAt(0.0, 0).id != LoginAt(25.0, 2).id && LoginAt(20.0, 1).id != LoginAt(25.0, 2).id
  {
    assert LoginAt(0.0, 0).id[0] == 0 && LoginAt(20.0, 1).id[0] == 1 && LoginAt(25.0, 2).id[0] == 2;
  }

  /** The cap of one is broken by three logins: the third evicts the first token, which has expired, and not the second. */
  lemma CapBroken(e: Env) returns (steps: seq<Step>)
    ensures IsRun(map[], e, steps) && Serial(steps, 1, 0.0) && WithinCap(map[], "x", 1, 0.0)
    ensures !Capped(map[], e, steps, "x", 1) && !LoginsSafe(map[], e, steps, "x")
  {
    var a, b, c := LoginAt(0.0, 0), LoginAt(20.0, 1), LoginAt(25.0, 2);
    LoginIds();
    var first, second, third := Login("x", a, None), Login("x", b, None), Login("x", c, Some(a.id));
    assert ActiveOf(map[], "x", 0.0) == {} && ActiveOf(map[], "x", 20.0) == {};
    var t1 := Apply(map[], e, first);
    assert ActiveOf(t1, "x", 20.0) == {};
    var t2 := Apply(t1, e, second);
    assert ActiveOf(t2, "x", 25.0) == {b.id} && UnrevokedOf(t2, "x") == {a.id, b.id};
    var t3 := Apply(t2, e, third);
    assert ActiveOf(t3, "x", 25.0) == {b.id, c.id};
    StepFirst(t2, e, third, []);
    StepFirst(t1, e, second, [third] + []);
    steps := [first] + ([second] + ([third] + []));
    StepFirst(map[], e, first, [second] + ([third] + []));
    SerialLogins(first, second, third);
    if Capped(map[], e, steps, "x", 1) { LastCapped(map[], e, steps, "x", 1); }
    RunCapIff(map[], e, steps, "x", 1, 0.0);
  }

  lemma SerialLogins(a: Step, b: Step, c: Step)
    requires a.Login? && b.Login? && c.Login? && Configured(a, 1) && Configured(b, 1) && Configured(c, 1)
    requires 0.0 <= Begin(a) <= Begin(b) <= Begin(c)
    ensures Serial([a] + ([b] + ([c] + [])), 1, 0.0)
  {
    var bc, abc := [b] + ([c] + []), [a] + ([b] + ([c] + []));
    assert bc[1..] == [c] && abc[1..] == bc;
    assert Serial([c], 1, Begin(b));
    assert Serial(bc, 1, Begin(a));
  }

  // ---------- What a reused token does to the committed rows ----------

  /** Where a refusal is rolled back, presenting a reused token leaves its agent without sessions exactly if it had none. */
  lemma CommittedReuseIff(tokens: Tokens, e: Env, step: Step)
    requires e.rollsBack && step.Rotate? && Enabled(tokens, e, step)
    requires Check(tokens, e.agents, step.id, step.secret, step.now) == Some(Reused)
    ensures UnrevokedOf(Apply(tokens, e, step), tokens[step.id].agent) == {} <==> UnrevokedOf(tokens, tokens[step.id].agent) == {}
  {
  }

  /** A login, a rotation, and the old token again: it is refused as reused, and the new token stays good. */
  lemma ReuseLeavesSession(agents: set<string>) returns (steps: seq<Step>, replay: Step)
    requires "x" in agents
    ensures var e := Env(agents, true);
            && IsRun(map[], e, steps) && replay.Rotate?
            && var t := Run(map[], e, steps);
               && Enabled(t, e, replay) && Check(t, agents, replay.id, replay.secret, replay.now) == Some(Reused)
               && UnrevokedOf(Apply(t, e, replay), "x") != {}
  {
    var e, a, b, c := Env(agents, true), LoginAt(0.0, 0), LoginAt(1.0, 1), LoginAt(2.0, 2);
    assert a.id[0] == 0 && b.id[0] == 1 && c.id[0] == 2;
    var login, rotate := Login("x", a, None), Rotate(a.id, [], 1.0, 1.0, b, None);
    replay := Rotate(a.id, [], 2.0, 2.0, c, None);
    assert ActiveOf(map[], "x", 0.0) == {};
    var t1 := Apply(map[], e, login);
    assert ActiveOf(Revoke(t1, a.id, 1.0), "x", 1.0) == {};
    var t2 := Apply(t1, e, rotate);
    StepFirst(t1, e, rotate, []);
    steps := [login] + ([rotate] + []);
    StepFirst(map[], e, login, [rotate] + []);
    assert b.id in UnrevokedOf(t2, "x") && Apply(t2, e, replay) == t2;
  }

  // ---------- Who is let in ----------

  /** A presented token is accepted exactly if its row is unrevoked, unexpired, has that secret and belongs to an agent. */
  lemma AcceptedIff(tokens: Tokens, agents: set<string>, id: Uuid, secret: seq<Byte>, now: real)
    ensures Check(tokens, agents, id, secret, now).None? <==>
              && id in tokens && tokens[id].revokedAt.None? && tokens[id].expiresAt > now
              && tokens[id].hash.secret == secret && tokens[id].agent in agents
  {
  }

  /** Otherwise the first test that fails is the answer: unknown, revoked, expired, wrong secret, agent gone. */
  lemma DenialIs(tokens: Tokens, agents: set<string>, id: Uuid, secret: seq<Byte>, now: real)
    ensures var d := Check(tokens, agents, id, secret, now);
            && (d == Some(UnknownToken) <==> id !in tokens)
            && (id in tokens ==>
                  var t := tokens[id];
                  && (d == Some(Reused) <==> t.revokedAt.Some?)
                  && (d == Some(Expired) <==> t.revokedAt.None? && t.expiresAt <= now)
                  && (d == Some(BadSecret) <==> t.revokedAt.None? && t.expiresAt > now && t.hash.secret != secret)
                  && (d == Some(AgentMissing) <==> t.revokedAt.None? && t.expiresAt > now && t.hash.secret == secret && t.agent !in agents))
  {
  }

  /** What a refusal leaves in the session: a reused token's agent loses every unrevoked row, a missing agent's token its own, else nothing. */
  lemma DeniedRows(tokens: Tokens, agents: set<string>, id: Uuid, secret: seq<Byte>, now: real, at: real)
    requires Check(tokens, agents, id, secret, now).Some?
    ensures var after := AfterDenial(tokens, id, Check(tokens, agents, id, secret, now).value, at);
            && after.Keys == tokens.Keys
            && forall x :: x in tokens ==>
                 after[x] ==
                 if tokens[x].revokedAt.None? && id in tokens
                    && (if tokens[id].revokedAt.Some? then tokens[x].agent == tokens[id].agent
                        else x == id && tokens[id].expiresAt > now && tokens[id].hash.secret == secret)
                 then tokens[x].(revokedAt := Some(at)) else tokens[x]
  {
  }

  /** After a mint every secret but its own is refused, and presenting one changes no row, in a session or committed. */
  lemma WrongSecretRefused(tokens: Tokens, e: Env, agent: string, m: Mint, from: Option<Uuid>, victim: Option<Uuid>, step: Step)
    requires m.id !in tokens && step.Rotate? && step.id == m.id && step.secret != m.secret && step.now < m.now + m.ttl
    requires Enabled(Minted(tokens, agent, m, from, victim), e, step)
    ensures var after := Minted(tokens, agent, m, from, victim);
            Check(after, e.agents, step.id, step.secret, step.now) == Some(BadSecret) && Apply(after, e, step) == after
  {
    AcceptedIff(Minted(tokens, agent, m, from, victim), e.agents, step.id, step.secret, step.now);
  }

  /** What a mint writes: the new row, the victim's stamp, and nothing else. */
  lemma MintedRows(tokens: Tokens, agent: string, m: Mint, from: Option<Uuid>, victim: Option<Uuid>)
    requires m.id !in tokens && VictimOk(tokens, agent, m, victim)
    ensures var after := Minted(tokens, agent, m, from, victim);
            && after.Keys == tokens.Keys + {m.id}
            && after[m.id].agent == agent && after[m.id].hash.secret == m.secret && after[m.id].rotatedFrom == from
            && after[m.id].createdAt == m.now && after[m.id].expiresAt == m.now + m.ttl && after[m.id].revokedAt == None
            && (forall x :: x in tokens && Some(x) != victim ==> after[x] == tokens[x])
            && (victim.Some? ==> victim.value in tokens && after[victim.value] == tokens[victim.value].(revokedAt := Some(m.now)))
  {
  }

  /** Who is evicted: with as many unrevoked, unexpired tokens as the cap or more, an oldest unrevoked one of the agent. */
  lemma VictimIs(tokens: Tokens, agent: string, m: Mint, victim: Option<Uuid>)
    requires VictimOk(tokens, agent, m, victim)
    ensures var active := set x | x in tokens && tokens[x].agent == agent && tokens[x].revokedAt.None? && tokens[x].expiresAt > m.now;
            victim.Some? <==> |active| >= m.maxActive && exists x :: x in tokens && tokens[x].agent == agent && tokens[x].revokedAt.None?
    ensures victim.Some? ==>
              var v := victim.value;
              && v in tokens && tokens[v].agent == agent && tokens[v].revokedAt.None?
              && forall x :: x in tokens && tokens[x].agent == agent && tokens[x].revokedAt.None? ==> tokens[v].createdAt <= tokens[x].createdAt
  {
    assert ActiveOf(tokens, agent, m.now) == set x | x in tokens && tokens[x].agent == agent && tokens[x].revokedAt.None? && tokens[x].expiresAt > m.now;
    assert forall x :: x in tokens && tokens[x].agent == agent && tokens[x].revokedAt.None? ==> x in UnrevokedOf(tokens, agent);
  }

  /** What revoking writes: a stamp where there was none. */
  lemma RevokedRows(tokens: Tokens, id: Uuid, agent: string, now: real)
    ensures var one, all := Revoke(tokens, id, now), RevokeAll(tokens, agent, now);
            && one.Keys == tokens.Keys && all.Keys == tokens.Keys
            && forall x :: x in tokens ==>
                 && one[x] == (if x == id && tokens[x].revokedAt.None? then tokens[x].(revokedAt := Some(now)) else tokens[x])
                 && all[x] == (if tokens[x].agent == agent && tokens[x].revokedAt.None? then tokens[x].(revokedAt := Some(now)) else tokens[x])
  {
  }

  // ---------- What a printed token is good for ----------

  /** The token a mint prints is accepted until it expires. */
  lemma MintedIsAccepted(tokens: Tokens, agents: set<string>, agent: string, m: Mint, from: Option<Uuid>, victim: Option<Uuid>, now: real)
    requires m.id !in tokens && agent in agents && |m.secret| >= MIN_SECRET
    ensures Parse(Print(m.id, m.secret)) == Some((m.id, m.secret))
    ensures Check(Minted(tokens, agent, m, from, victim), agents, m.id, m.secret, now) == if now < m.now + m.ttl then None else Some(Expired)
  {
    ParsePrint(m.id, m.secret);
  }

  /** After a rotation the old token is refused as reused, and that revokes every session of its agent and no one else's. */
  lemma ReuseEndsAllSessions(tokens: Tokens, agents: set<string>, id: Uuid, secret: seq<Byte>, at: real, m: Mint, victim: Option<Uuid>, now: real)
    requires id in tokens && tokens[id].revokedAt.None? && m.id !in tokens
    ensures var rotated := Rotated(tokens, id, at, m, victim);
            && Check(rotated, agents, id, secret, now) == Some(Reused)
            && var after := AfterDenial(rotated, id, Reused, now);
               && UnrevokedOf(after, tokens[id].agent) == {}
               && forall x :: x in rotated && rotated[x].agent != tokens[id].agent ==> x in after && after[x] == rotated[x]
  {
  }
}
