/**
  The database-backed work queue of textlake: the task table, the workers that lease tasks from it
  (queue/worker.py), enqueueing (handlers/enqueue.py) and the scheduler's recovery of parked tasks
  (queue/scheduler.py), as a state machine over their transactions. Times are seconds.
 */
module WorkQueue {
  import opened Options

  const LEASE_SECONDS: real := 300.0
  const RETRY_DELAY: real := 300.0
  const PARK_SECONDS: real := 2592000.0
  const PARKED_RECOVERY_AFTER: real := 3600.0
  const DEFAULT_MAX_ATTEMPTS: nat := 5

  /** The key that deduplicates tasks: what kind of work on which parameters. */
  datatype DedupeKey = DedupeKey(kind: string, params: string)

  datatype Task = Task(
    kind: string,
    dedupe: DedupeKey,
    priority: int,
    createdAt: real,
    attempts: nat,
    maxAttempts: nat,
    notBefore: Option<real>,
    lockedBy: Option<string>,
    lockedUntil: Option<real>,
    updatedAt: real)

  type Tasks = map<string, Task>

  function Pow2(n: nat): nat {
    if n == 0 then 1 else 2 * Pow2(n - 1)
  }

  function BackoffSeconds(attempts: nat): nat {
    if Pow2(attempts) <= 3600 then Pow2(attempts) else 3600
  }

  // ---------- Statements on the task table ----------

  predicate Claimable(t: Task, now: real) {
    && t.attempts < t.maxAttempts
    && (t.notBefore.None? || t.notBefore.value <= now)
    && (t.lockedUntil.None? || t.lockedUntil.value < now)
  }

  /** `a` is served before `b`, or as soon. */
  predicate NotAfter(a: Task, b: Task) {
    a.priority > b.priority || (a.priority == b.priority && a.createdAt <= b.createdAt)
  }

  /** The task the claim query may return: claimable, not row-locked by another claim, and first in order. */
  predicate FirstClaimable(tasks: Tasks, skipped: set<string>, now: real, id: string) {
    && id in tasks && id !in skipped && Claimable(tasks[id], now)
    && forall other :: other in tasks && other !in skipped && Claimable(tasks[other], now) ==> NotAfter(tasks[id], tasks[other])
  }

  function Locked(tasks: Tasks, id: string, w: string, now: real): Tasks
    requires id in tasks
  {
    tasks[id := tasks[id].(lockedBy := Some(w), lockedUntil := Some(now + LEASE_SECONDS))]
  }

  function Released(t: Task, notBefore: real, now: real): Task {
    t.(attempts := t.attempts + 1, notBefore := Some(notBefore), lockedBy := None, lockedUntil := None, updatedAt := now)
  }

  /** A transient failure of a task claimed at `now`. */
  function AfterTransient(tasks: Tasks, id: string, now: real, resetAt: Option<real>): Tasks {
    if id !in tasks then tasks
    else tasks[id := Released(tasks[id], if resetAt.Some? then resetAt.value else now + RETRY_DELAY, now)]
  }

  /** Any other failure of a task claimed at `now`: back off, or park once the attempts are used up. */
  function AfterFailure(tasks: Tasks, id: string, now: real): Tasks {
    if id !in tasks then tasks
    else
      var attempts := tasks[id].attempts + 1;
      var delay := if attempts >= tasks[id].maxAttempts then PARK_SECONDS else BackoffSeconds(attempts) as real;
      tasks[id := Released(tasks[id], now + delay, now)]
  }

  predicate Parked(t: Task) {
    t.attempts >= t.maxAttempts
  }

  function RecoveredTask(t: Task, now: real): Task {
    if Parked(t) && t.updatedAt < now - PARKED_RECOVERY_AFTER then t.(attempts := 0, notBefore := Some(now), updatedAt := now) else t
  }

  function Recovered(tasks: Tasks, now: real): Tasks {
    map id | id in tasks :: RecoveredTask(tasks[id], now)
  }

  predicate HasKey(tasks: Tasks, key: DedupeKey) {
    exists id :: id in tasks && tasks[id].dedupe == key
  }

  function Enqueued(tasks: Tasks, id: string, key: DedupeKey, priority: int, now: real): Tasks {
    if HasKey(tasks, key) then tasks
    else tasks[id := Task(key.kind, key, priority, now, 0, DEFAULT_MAX_ATTEMPTS, None, None, None, now)]
  }

  // ---------- The protocol ----------

  /** A worker between claims, or at work on the task it claimed at `now` under a lease. */
  datatype Worker = Idle | Running(id: string, kind: string, now: real, lease: real, committed: bool)

  /**
    `used` gives the kind of every task ever enqueued, `done` the tasks whose handler has committed, and
    `fails` the claim times of a task's ordinary failures since it was last recovered or failed transiently:
    a record of the run that no step reads.
   */
  datatype State = State(
    clock: real,
    tasks: Tasks,
    workers: map<string, Worker>,
    handlers: set<string>,
    used: map<string, string>,
    done: set<string>,
    fails: map<string, seq<real>>)

  datatype Step =
    | Tick(to: real)
    | Enqueue(id: string, key: DedupeKey, priority: int)
    | Claim(w: string, task: string, now: real, skipped: set<string>)
    | DropUnhandled(w: string)
    | Commit(w: string)
    | Finish(w: string)
    | FailTransient(w: string, resetAt: Option<real>)
    | Fail(w: string)
    | Crash(w: string)
    | Recover(now: real)

  predicate IsRunning(s: State, w: string) {
    w in s.workers && s.workers[w].Running?
  }

  /** The step can happen. A claim and a recovery act on a clock read at or before the moment they run. */
  predicate Enabled(s: State, step: Step) {
    match step
    case Tick(to) => s.clock <= to
    case Enqueue(id, _, _) => id !in s.used
    case Claim(w, id, now, skipped) => w in s.workers && s.workers[w].Idle? && now <= s.clock && FirstClaimable(s.tasks, skipped, now, id)
    case DropUnhandled(w) => IsRunning(s, w) && s.workers[w].kind !in s.handlers
    case Commit(w) => IsRunning(s, w) && s.workers[w].kind in s.handlers && !s.workers[w].committed
    case Finish(w) => IsRunning(s, w) && s.workers[w].committed
    case FailTransient(w, _) => IsRunning(s, w) && s.workers[w].kind in s.handlers
    case Fail(w) => IsRunning(s, w) && s.workers[w].kind in s.handlers
    case Crash(w) => IsRunning(s, w)
    case Recover(now) => now <= s.clock
  }

  function FailsOf(s: State, id: string): seq<real> {
    if id in s.fails then s.fails[id] else []
  }

  function Stopped(s: State, w: string): map<string, Worker> {
    s.workers[w := Idle]
  }

  function Apply(s: State, step: Step): State
    requires Enabled(s, step)
  {
    match step
    case Tick(to) => s.(clock := to)
    case Enqueue(id, key, priority) =>
      var tasks := Enqueued(s.tasks, id, key, priority, s.clock);
      if HasKey(s.tasks, key) then s else s.(tasks := tasks, used := s.used[id := key.kind])
    case Claim(w, id, now, _) =>
      s.(tasks := Locked(s.tasks, id, w, now),
         workers := s.workers[w := Running(id, s.tasks[id].kind, now, now + LEASE_SECONDS, false)])
    case DropUnhandled(w) => s.(tasks := s.tasks - {s.workers[w].id}, workers := Stopped(s, w))
    case Commit(w) => s.(workers := s.workers[w := s.workers[w].(committed := true)], done := s.done + {s.workers[w].id})
    case Finish(w) => s.(tasks := s.tasks - {s.workers[w].id}, workers := Stopped(s, w))
    case FailTransient(w, resetAt) =>
      var r := s.workers[w];
      s.(tasks := AfterTransient(s.tasks, r.id, r.now, resetAt), workers := Stopped(s, w), fails := s.fails[r.id := []])
    case Fail(w) =>
      var r := s.workers[w];
      s.(tasks := AfterFailure(s.tasks, r.id, r.now), workers := Stopped(s, w),
         fails := if r.id in s.tasks then s.fails[r.id := FailsOf(s, r.id) + [r.now]] else s.fails)
    case Crash(w) => s.(workers := Stopped(s, w))
    case Recover(now) =>
      s.(tasks := Recovered(s.tasks, now),
         fails := map id | id in s.fails :: if id in s.tasks && RecoveredTask(s.tasks[id], now) != s.tasks[id] then [] else s.fails[id])
  }

  ghost predicate IsRun(s: State, steps: seq<Step>)
    decreases |steps|
  {
    steps == [] || (Enabled(s, steps[0]) && IsRun(Apply(s, steps[0]), steps[1..]))
  }

  function Run(s: State, steps: seq<Step>): State
    requires IsRun(s, steps)
    decreases |steps|
  {
    if steps == [] then s else Run(Apply(s, steps[0]), steps[1..])
  }

  /** No worker is still at work when its lease has passed: it ended or crashed before. */
  predicate WithinLeases(s: State) {
    forall w :: w in s.workers && s.workers[w].Running? ==> s.clock <= s.workers[w].lease
  }

  ghost predicate FencedRun(s: State, steps: seq<Step>)
    requires IsRun(s, steps)
    decreases |steps|
  {
    WithinLeases(s) && (steps == [] || FencedRun(Apply(s, steps[0]), steps[1..]))
  }

  /** Idle workers and any table. */
  function StartWith(clock: real, tasks: Tasks, workers: set<string>, handlers: set<string>): State {
    State(clock, tasks, map w | w in workers :: Idle, handlers, map id | id in tasks :: tasks[id].kind, {}, map[])
  }

  /** An empty table and idle workers. */
  function Start(workers: set<string>, handlers: set<string>): State {
    StartWith(0.0, map[], workers, handlers)
  }

  /** How the work on a claimed task turned out. */
  datatype Outcome = NoHandler | Done | Transient(resetAt: Option<real>) | Failed

  function StepOf(w: string, outcome: Outcome): Step {
    match outcome
    case NoHandler => DropUnhandled(w)
    case Done => Finish(w)
    case Transient(resetAt) => FailTransient(w, resetAt)
    case Failed => Fail(w)
  }
}
