/**
  Safety of the work queue over every run.
 */
module WorkQueueProofs {
  import opened Options
  import opened WorkQueue

  // ---------- No task is lost ----------

  /** A task is still in the table, or its handler has committed, or there is no handler for its kind. */
  ghost predicate Kept(s: State) {
    && (forall id :: id in s.used ==> id in s.tasks || id in s.done || s.used[id] !in s.handlers)
    && (forall id :: id in s.tasks ==> id in s.used && s.used[id] == s.tasks[id].kind)
    && (forall w :: IsRunning(s, w) ==> s.workers[w].id in s.used && s.used[s.workers[w].id] == s.workers[w].kind)
    && (forall w :: IsRunning(s, w) && s.workers[w].committed ==> s.workers[w].id in s.done)
  }

  /** A worker ends: its task stays, or is done, or has no handler. */
  lemma EndKeeps(s: State, step: Step)
    requires Kept(s) && Enabled(s, step) && (step.DropUnhandled? || step.Finish? || step.Crash?)
    ensures Kept(Apply(s, step))
  {
    assert IsRunning(s, step.w);
  }

  lemma FailKeeps(s: State, step: Step)
    requires Kept(s) && Enabled(s, step) && (step.FailTransient? || step.Fail?)
    ensures Kept(Apply(s, step))
  {
    var s' := Apply(s, step);
    assert s'.tasks.Keys == s.tasks.Keys && forall id :: id in s.tasks ==> s'.tasks[id].kind == s.tasks[id].kind;
  }

  lemma EnqueueKeeps(s: State, id: string, key: DedupeKey, priority: int)
    requires Kept(s) && Enabled(s, Enqueue(id, key, priority))
    ensures Kept(Apply(s, Enqueue(id, key, priority)))
  {
  }

  lemma ClaimKeeps(s: State, w: string, id: string, now: real, skipped: set<string>)
    requires Kept(s) && Enabled(s, Claim(w, id, now, skipped))
    ensures Kept(Apply(s, Claim(w, id, now, skipped)))
  {
  }

  lemma CommitKeeps(s: State, w: string)
    requires Kept(s) && Enabled(s, Commit(w))
    ensures Kept(Apply(s, Commit(w)))
  {
  }

  lemma RecoverKeeps(s: State, now: real)
    requires Kept(s) && Enabled(s, Recover(now))
    ensures Kept(Apply(s, Recover(now)))
  {
  }

  lemma StepKeeps(s: State, step: Step)
    requires Kept(s) && Enabled(s, step)
    ensures Kept(Apply(s, step))
  {
    match step
    case Tick(_) =>
    case Enqueue(id, key, priority) => EnqueueKeeps(s, id, key, priority);
    case Claim(w, id, now, skipped) => ClaimKeeps(s, w, id, now, skipped);
    case Commit(w) => CommitKeeps(s, w);
    case DropUnhandled(_) => EndKeeps(s, step);
    case Finish(_) => EndKeeps(s, step);
    case Crash(_) => EndKeeps(s, step);
    case FailTransient(_, _) => FailKeeps(s, step);
    case Fail(_) => FailKeeps(s, step);
    case Recover(now) => RecoverKeeps(s, now);
  }

  /** Whatever the workers do, on time or late, crashing or not, no task leaves the table undone. */
  lemma {:induction false} NothingLost(s: State, steps: seq<Step>)
    requires Kept(s) && IsRun(s, steps)
    ensures Kept(Run(s, steps))
    decreases |steps|
  {
    if steps != [] {
      StepKeeps(s, steps[0]);
      NothingLost(Apply(s, steps[0]), steps[1..]);
    }
  }

  // ---------- One task per key ----------

  ghost predicate KeysUnique(tasks: Tasks) {
    forall a, b :: a in tasks && b in tasks && a != b ==> tasks[a].dedupe != tasks[b].dedupe
  }

  lemma DedupeStays(s: State, step: Step, id: string)
    requires Enabled(s, step) && !step.Enqueue? && id in Apply(s, step).tasks
    ensures id in s.tasks && Apply(s, step).tasks[id].dedupe == s.tasks[id].dedupe
  {
  }

  lemma StepKeepsKeys(s: State, step: Step)
    requires KeysUnique(s.tasks) && Enabled(s, step)
    ensures KeysUnique(Apply(s, step).tasks)
  {
    if !step.Enqueue? {
      var tasks := Apply(s, step).tasks;
      forall a, b | a in tasks && b in tasks && a != b ensures tasks[a].dedupe != tasks[b].dedupe {
        DedupeStays(s, step, a);
        DedupeStays(s, step, b);
      }
    }
  }

  lemma {:induction false} KeysStayUnique(s: State, steps: seq<Step>)
    requires KeysUnique(s.tasks) && IsRun(s, steps)
    ensures KeysUnique(Run(s, steps).tasks)
    decreases |steps|
  {
    if steps != [] {
      StepKeepsKeys(s, steps[0]);
      KeysStayUnique(Apply(s, steps[0]), steps[1..]);
    }
  }

  // ---------- Mutual exclusion ----------

  /** Each running worker holds the lock of its task, and its lease has not passed. */
  ghost predicate Exclusive(s: State) {
    && (forall w :: IsRunning(s, w) ==> Holds(s, w))
    && (forall id :: id in s.tasks ==> s.tasks[id].attempts <= s.tasks[id].maxAttempts && 0 < s.tasks[id].maxAttempts)
  }

  ghost predicate Holds(s: State, w: string)
    requires IsRunning(s, w)
  {
    var r := s.workers[w];
    && r.id in s.tasks && s.tasks[r.id].lockedBy == Some(w) && s.tasks[r.id].lockedUntil == Some(r.lease)
    && s.tasks[r.id].attempts < s.tasks[r.id].maxAttempts
  }

  /** A claim made past the lease of a worker that is still running on the claimed task. */
  ghost predicate TakesOver(s: State, step: Step) {
    step.Claim? && exists w :: IsRunning(s, w) && s.workers[w].id == step.task && s.workers[w].lease < step.now
  }

  /** A worker's task can be claimed only past that worker's lease. */
  lemma TakeoverIsOverrun(s: State, step: Step, w: string)
    requires Exclusive(s) && Enabled(s, step) && step.Claim? && IsRunning(s, w) && s.workers[w].id == step.task
    ensures s.workers[w].lease < step.now <= s.clock
  {
    assert Holds(s, w);
  }

  /** A worker that ends stops holding its task, and no other worker holds it. */
  lemma EndExclusive(s: State, step: Step, w: string)
    requires Exclusive(s) && Enabled(s, step)
    requires step.DropUnhandled? || step.Finish? || step.FailTransient? || step.Fail? || step.Crash?
    requires IsRunning(Apply(s, step), w)
    ensures Holds(Apply(s, step), w)
  {
    assert IsRunning(s, w) && w != step.w;
    assert Holds(s, w) && Holds(s, step.w);
  }

  lemma StepHolds(s: State, step: Step, w: string)
    requires Exclusive(s) && Kept(s) && Enabled(s, step) && !TakesOver(s, step)
    requires IsRunning(Apply(s, step), w)
    ensures Holds(Apply(s, step), w)
  {
    if IsRunning(s, w) { assert Holds(s, w); }
    match step
    case Tick(_) =>
    case Enqueue(_, _, _) =>
    case Claim(c, id, now, _) => if w != c && s.workers[w].id == id { TakeoverIsOverrun(s, step, w); }
    case Commit(_) =>
    case Recover(_) =>
    case DropUnhandled(_) => EndExclusive(s, step, w);
    case Finish(_) => EndExclusive(s, step, w);
    case FailTransient(_, _) => EndExclusive(s, step, w);
    case Fail(_) => EndExclusive(s, step, w);
    case Crash(_) => EndExclusive(s, step, w);
  }

  /** Only a running worker that holds its task fails it, so attempts stay within the maximum. */
  lemma StepAttempts(s: State, step: Step, id: string)
    requires Exclusive(s) && Enabled(s, step) && id in Apply(s, step).tasks
    ensures Apply(s, step).tasks[id].attempts <= Apply(s, step).tasks[id].maxAttempts && 0 < Apply(s, step).tasks[id].maxAttempts
  {
    if step.FailTransient? || step.Fail? { assert Holds(s, step.w); }
  }

  lemma StepExclusive(s: State, step: Step)
    requires Exclusive(s) && Kept(s) && Enabled(s, step) && !TakesOver(s, step)
    ensures Exclusive(Apply(s, step))
  {
    var s' := Apply(s, step);
    forall w | IsRunning(s', w) ensures Holds(s', w) { StepHolds(s, step, w); }
    forall id | id in s'.tasks ensures s'.tasks[id].attempts <= s'.tasks[id].maxAttempts && 0 < s'.tasks[id].maxAttempts {
      StepAttempts(s, step, id);
    }
  }

  /** No two workers are at work on the same task. */
  ghost predicate Unshared(s: State) {
    forall v, w :: IsRunning(s, v) && IsRunning(s, w) && v != w ==> s.workers[v].id != s.workers[w].id
  }

  ghost predicate UnsharedThroughout(s: State, steps: seq<Step>)
    requires IsRun(s, steps)
    decreases |steps|
  {
    Unshared(s) && (steps == [] || UnsharedThroughout(Apply(s, steps[0]), steps[1..]))
  }

  ghost predicate NoTakeover(s: State, steps: seq<Step>)
    requires IsRun(s, steps)
    decreases |steps|
  {
    steps == [] || (!TakesOver(s, steps[0]) && NoTakeover(Apply(s, steps[0]), steps[1..]))
  }

  lemma ExclusiveUnshared(s: State)
    requires Exclusive(s)
    ensures Unshared(s)
  {
    forall v, w | IsRunning(s, v) && IsRunning(s, w) && v != w ensures s.workers[v].id != s.workers[w].id {
      assert Holds(s, v) && Holds(s, w);
    }
  }

  lemma TakeoverShares(s: State, step: Step)
    requires Enabled(s, step) && TakesOver(s, step)
    ensures !Unshared(Apply(s, step))
  {
    var w :| IsRunning(s, w) && s.workers[w].id == step.task && s.workers[w].lease < step.now;
    var s' := Apply(s, step);
    assert IsRunning(s', w) && IsRunning(s', step.w) && w != step.w;
  }

  /** Over any run no two workers are ever on the same task exactly when no claim is made past the lease of a worker still on it. */
  lemma {:induction false} ExclusionIff(s: State, steps: seq<Step>)
    requires Exclusive(s) && Kept(s) && IsRun(s, steps)
    ensures UnsharedThroughout(s, steps) <==> NoTakeover(s, steps)
    ensures NoTakeover(s, steps) ==> Exclusive(Run(s, steps)) && Kept(Run(s, steps))
    decreases |steps|
  {
    ExclusiveUnshared(s);
    if steps != [] {
      if TakesOver(s, steps[0]) {
        TakeoverShares(s, steps[0]);
      } else {
        StepKeeps(s, steps[0]);
        StepExclusive(s, steps[0]);
        ExclusionIff(Apply(s, steps[0]), steps[1..]);
      }
    }
  }

  lemma {:induction false} FencedHasNoTakeover(s: State, steps: seq<Step>)
    requires Exclusive(s) && Kept(s) && IsRun(s, steps) && FencedRun(s, steps)
    ensures NoTakeover(s, steps)
    decreases |steps|
  {
    if steps != [] {
      assert !TakesOver(s, steps[0]);
      StepKeeps(s, steps[0]);
      StepExclusive(s, steps[0]);
      FencedHasNoTakeover(Apply(s, steps[0]), steps[1..]);
    }
  }

  /** In a run where every worker ends or crashes within its lease, no two workers ever work on the same task. */
  lemma MutualExclusion(s: State, steps: seq<Step>)
    requires Exclusive(s) && Kept(s) && IsRun(s, steps) && FencedRun(s, steps)
    ensures UnsharedThroughout(s, steps)
    ensures var e := Run(s, steps);
            && Exclusive(e) && Kept(e)
            && (forall id :: id in e.tasks ==> 0 <= e.tasks[id].attempts <= e.tasks[id].maxAttempts)
  {
    FencedHasNoTakeover(s, steps);
    ExclusionIff(s, steps);
  }

  /** Any table of rows with attempts to spare is a start, whatever each row's maximum is. */
  lemma StartWithOk(clock: real, tasks: Tasks, workers: set<string>, handlers: set<string>)
    requires forall id :: id in tasks ==> tasks[id].attempts <= tasks[id].maxAttempts && 0 < tasks[id].maxAttempts
    ensures var s := StartWith(clock, tasks, workers, handlers); Kept(s) && Exclusive(s) && Spaced(s)
  {
  }

  lemma SharedAtEnd(s: State, steps: seq<Step>)
    requires Exclusive(s) && Kept(s) && IsRun(s, steps) && !Unshared(Run(s, steps))
    ensures !UnsharedThroughout(s, steps) && !NoTakeover(s, steps)
  {
    if UnsharedThroughout(s, steps) { LastUnshared(s, steps); }
    ExclusionIff(s, steps);
  }

  lemma StepFirst(s: State, step: Step, rest: seq<Step>)
    requires Enabled(s, step) && IsRun(Apply(s, step), rest)
    ensures IsRun(s, [step] + rest) && Run(s, [step] + rest) == Run(Apply(s, step), rest)
  {
    assert ([step] + rest)[1..] == rest;
  }

  /** The lease is what excludes: from an empty table, a worker that overruns it shares its task with the next claimant. */
  lemma OverrunShares() returns (steps: seq<Step>)
    ensures var s := Start({"a", "b"}, {"poll"});
            IsRun(s, steps) && !NoTakeover(s, steps) && !UnsharedThroughout(s, steps) && !Unshared(Run(s, steps))
  {
    var s := Start({"a", "b"}, {"poll"});
    var enqueue, claimA, wait, claimB := Enqueue("t", DedupeKey("poll", ""), 0), Claim("a", "t", 0.0, {}), Tick(301.0), Claim("b", "t", 301.0, {});
    var s1 := Apply(s, enqueue);
    var s2 := Apply(s1, claimA);
    var s3 := Apply(s2, wait);
    assert FirstClaimable(s3.tasks, {}, 301.0, "t");
    var s4 := Apply(s3, claimB);
    assert IsRunning(s4, "a") && IsRunning(s4, "b");
    StepFirst(s3, claimB, []);
    StepFirst(s2, wait, [claimB] + []);
    StepFirst(s1, claimA, [wait] + ([claimB] + []));
    steps := [enqueue] + ([claimA] + ([wait] + ([claimB] + [])));
    StepFirst(s, enqueue, [claimA] + ([wait] + ([claimB] + [])));
    StartWithOk(0.0, map[], {"a", "b"}, {"poll"});
    SharedAtEnd(s, steps);
  }

  lemma {:induction false} LastUnshared(s: State, steps: seq<Step>)
    requires IsRun(s, steps) && UnsharedThroughout(s, steps)
    ensures Unshared(Run(s, steps))
    decreases |steps|
  {
    if steps != [] { LastUnshared(Apply(s, steps[0]), steps[1..]); }
  }

  // ---------- Backoff ----------

  lemma {:induction false} Pow2Grows(m: nat, n: nat)
    requires m <= n
    ensures Pow2(m) <= Pow2(n)
    decreases n
  {
    if m < n { Pow2Grows(m, n - 1); }
  }

  lemma BackoffGrows(m: nat, n: nat)
    requires m <= n
    ensures BackoffSeconds(m) <= BackoffSeconds(n) <= 3600
  {
    Pow2Grows(m, n);
  }

  /** The earliest next claim of a task whose failing claims are `f`. */
  function NextAfter(f: seq<real>): real
    requires f != []
  {
    f[|f| - 1] + BackoffSeconds(|f|) as real
  }

  ghost predicate SpacedFails(f: seq<real>) {
    forall j :: 0 < j < |f| ==> f[j - 1] + BackoffSeconds(j) as real <= f[j]
  }

  ghost predicate SpacedTask(s: State, id: string) {
    var f := FailsOf(s, id);
    && SpacedFails(f)
    && (id in s.fails ==> id in s.used)
    && (f != [] && id in s.tasks ==>
          && s.tasks[id].attempts >= |f|
          && s.tasks[id].notBefore.Some? && s.tasks[id].notBefore.value >= NextAfter(f))
    && (forall w :: IsRunning(s, w) && s.workers[w].id == id && f != [] ==> s.workers[w].now >= NextAfter(f))
  }

  ghost predicate Spaced(s: State) {
    forall id :: SpacedTask(s, id)
  }

  lemma FailSpaced(s: State, w: string, id: string)
    requires Spaced(s) && Exclusive(s) && Kept(s) && Enabled(s, Fail(w)) && s.workers[w].id == id
    ensures SpacedTask(Apply(s, Fail(w)), id)
  {
    var s', f := Apply(s, Fail(w)), FailsOf(s, id);
    assert Holds(s, w) && SpacedTask(s, id);
    var f' := FailsOf(s', id);
    assert f' == f + [s.workers[w].now];
    BackoffGrows(|f'|, s.tasks[id].attempts + 1);
    forall v | IsRunning(s', v) ensures s'.workers[v].id != id { assert IsRunning(s, v) && Holds(s, v); }
  }

  lemma StepSpaced(s: State, step: Step)
    requires Spaced(s) && Exclusive(s) && Kept(s) && Enabled(s, step)
    ensures Spaced(Apply(s, step))
  {
    var s' := Apply(s, step);
    forall id ensures SpacedTask(s', id) {
      assert SpacedTask(s, id);
      match step
      case Fail(w) => if s.workers[w].id == id { FailSpaced(s, w, id); }
      case Recover(now) =>
        forall w | IsRunning(s, w) && s.workers[w].id == id ensures Holds(s, w) {}
      case Claim(w, t, now, _) =>
      case _ =>
    }
  }

  lemma {:induction false} RunSpaced(s: State, steps: seq<Step>)
    requires Spaced(s) && Exclusive(s) && Kept(s) && IsRun(s, steps) && NoTakeover(s, steps)
    ensures Spaced(Run(s, steps))
    decreases |steps|
  {
    if steps != [] {
      StepSpaced(s, steps[0]);
      StepKeeps(s, steps[0]);
      StepExclusive(s, steps[0]);
      RunSpaced(Apply(s, steps[0]), steps[1..]);
    }
  }

  /** min(2, 3600) + min(4, 3600) + ... + min(2^n, 3600). */
  function BackoffSum(n: nat): nat {
    if n == 0 then 0 else BackoffSum(n - 1) + BackoffSeconds(n)
  }

  lemma {:induction false} SpacedSum(f: seq<real>, k: nat)
    requires SpacedFails(f) && k < |f|
    ensures f[k] - f[0] >= BackoffSum(k) as real
  {
    if k > 0 { SpacedSum(f, k - 1); }
  }

  lemma {:induction false} BackoffSumIs(n: nat)
    requires n <= 11
    ensures BackoffSum(n) == Pow2(n + 1) - 2
  {
    if n > 0 {
      BackoffSumIs(n - 1);
      Pow2Grows(n, 11);
      assert Pow2(11) == 2 * Pow2(10) == 4 * Pow2(9) == 8 * Pow2(8) == 16 * Pow2(7);
      assert Pow2(7) == 2 * Pow2(6) == 4 * Pow2(5) == 8 * Pow2(4) == 128;
    }
  }

  /**
    The k-th failing claim of a task comes at least the sum of the backoffs after the first: 2^k - 2 seconds up to
    the twelfth. For every row, whatever its maximum of attempts.
   */
  lemma BackoffOverRun(s: State, steps: seq<Step>, id: string, k: nat)
    requires Spaced(s) && Exclusive(s) && Kept(s) && IsRun(s, steps) && NoTakeover(s, steps)
    requires 1 <= k <= |FailsOf(Run(s, steps), id)|
    ensures var f := FailsOf(Run(s, steps), id);
            && f[k - 1] - f[0] >= BackoffSum(k - 1) as real
            && (k <= 12 ==> f[k - 1] - f[0] >= (Pow2(k) - 2) as real)
  {
    RunSpaced(s, steps);
    var e := Run(s, steps);
    assert SpacedTask(e, id);
    SpacedSum(FailsOf(e, id), k - 1);
    if k <= 12 { BackoffSumIs(k - 1); }
  }

  /**
    A failure of either kind that uses up a task's attempts parks it for an hour from its claim: no worker is on
    it in any later run until the clock is past that.
   */
  lemma ParkedAfterFailure(s: State, step: Step, steps: seq<Step>)
    requires Exclusive(s) && Kept(s) && Enabled(s, step) && (step.Fail? || step.FailTransient?)
    requires var r := s.workers[step.w]; r.id in s.tasks && s.tasks[r.id].attempts + 1 >= s.tasks[r.id].maxAttempts
    requires IsRun(Apply(s, step), steps) && NoTakeover(Apply(s, step), steps)
    requires Run(Apply(s, step), steps).clock <= s.workers[step.w].now + 3600.0
    ensures var r, e := s.workers[step.w], Run(Apply(s, step), steps);
            && r.id in e.tasks && e.tasks[r.id].attempts >= e.tasks[r.id].maxAttempts
            && forall w :: IsRunning(e, w) ==> e.workers[w].id != r.id
  {
    FailKeeps(s, step);
    assert !TakesOver(s, step);
    StepExclusive(s, step);
    StaysParked(Apply(s, step), steps, s.workers[step.w].id, s.workers[step.w].now);
  }

  // ---------- What each statement writes ----------

  /** Every other row stays as it is. */
  ghost predicate OnlyChanged(tasks: Tasks, tasks': Tasks, id: string) {
    tasks'.Keys == tasks.Keys && forall x :: x in tasks && x != id ==> tasks'[x] == tasks[x]
  }

  /** Both failures count an attempt, unlock the row and stamp it with the claim's clock. */
  lemma FailureRow(tasks: Tasks, id: string, now: real, resetAt: Option<real>)
    requires id in tasks
    ensures var t, f, r := tasks[id], AfterFailure(tasks, id, now)[id], AfterTransient(tasks, id, now, resetAt)[id];
            && f.attempts == t.attempts + 1 && f.updatedAt == now && f.lockedBy == None && f.lockedUntil == None
            && r.attempts == t.attempts + 1 && r.updatedAt == now && r.lockedBy == None && r.lockedUntil == None
            && (f.kind, f.dedupe, f.priority, f.createdAt, f.maxAttempts) == (t.kind, t.dedupe, t.priority, t.createdAt, t.maxAttempts)
            && (r.kind, r.dedupe, r.priority, r.createdAt, r.maxAttempts) == (t.kind, t.dedupe, t.priority, t.createdAt, t.maxAttempts)
            && f.notBefore == Some(now + if t.attempts + 1 >= t.maxAttempts then 30.0 * 86400.0 else BackoffSeconds(t.attempts + 1) as real)
            && r.notBefore == Some(if resetAt.Some? then resetAt.value else now + 300.0)
  {
  }

  /** The backoff doubles from two seconds on and stops at an hour. */
  lemma BackoffIs(n: nat)
    ensures BackoffSeconds(1) == 2 && BackoffSeconds(11) == 2048
    ensures 1 <= n <= 10 ==> BackoffSeconds(n + 1) == 2 * BackoffSeconds(n)
    ensures n >= 12 ==> BackoffSeconds(n) == 3600
  {
    BackoffValues();
    if n <= 10 { Pow2Grows(n + 1, 11); }
    if n >= 12 { Pow2Grows(12, n); }
  }

  lemma BackoffValues()
    ensures Pow2(1) == 2 && Pow2(11) == 2048 && Pow2(12) == 4096
  {
    assert Pow2(4) == 16;
    assert Pow2(8) == 2 * Pow2(7) == 4 * Pow2(6) == 8 * Pow2(5) == 16 * Pow2(4);
    assert Pow2(12) == 2 * Pow2(11) == 4 * Pow2(10) == 8 * Pow2(9) == 16 * Pow2(8);
  }

  /** A claim locks the row for five minutes from its clock and changes nothing else. */
  lemma ClaimedRow(tasks: Tasks, id: string, w: string, now: real)
    requires id in tasks
    ensures var t, after := tasks[id], Locked(tasks, id, w, now);
            && OnlyChanged(tasks, after, id)
            && after[id] == t.(lockedBy := Some(w), lockedUntil := Some(now + 300.0))
  {
  }

  /** What may be claimed, and what is served first: higher priority, then older. */
  lemma ServedFirst(tasks: Tasks, skipped: set<string>, now: real, id: string)
    requires FirstClaimable(tasks, skipped, now, id)
    ensures var t := tasks[id];
            && t.attempts < t.maxAttempts && (t.notBefore.Some? ==> t.notBefore.value <= now) && (t.lockedUntil.Some? ==> t.lockedUntil.value < now)
    ensures forall x :: x in tasks && x !in skipped && tasks[x].attempts < tasks[x].maxAttempts
                        && (tasks[x].notBefore.Some? ==> tasks[x].notBefore.value <= now)
                        && (tasks[x].lockedUntil.Some? ==> tasks[x].lockedUntil.value < now) ==>
              && tasks[x].priority <= tasks[id].priority
              && (tasks[x].priority == tasks[id].priority ==> tasks[id].createdAt <= tasks[x].createdAt)
  {
    forall x | x in tasks && x !in skipped && tasks[x].attempts < tasks[x].maxAttempts
               && (tasks[x].notBefore.Some? ==> tasks[x].notBefore.value <= now)
               && (tasks[x].lockedUntil.Some? ==> tasks[x].lockedUntil.value < now)
      ensures tasks[x].priority <= tasks[id].priority && (tasks[x].priority == tasks[id].priority ==> tasks[id].createdAt <= tasks[x].createdAt)
    {
      assert Claimable(tasks[x], now);
    }
  }

  /** A fresh task: no attempts of five, no lock, claimable at once. */
  lemma EnqueuedRow(tasks: Tasks, id: string, key: DedupeKey, priority: int, now: real)
    requires id !in tasks
    ensures var after := Enqueued(tasks, id, key, priority, now);
            if exists x :: x in tasks && tasks[x].dedupe == key then after == tasks
            else
              && after.Keys == tasks.Keys + {id} && (forall x :: x in tasks ==> after[x] == tasks[x])
              && after[id].kind == key.kind && after[id].dedupe == key && after[id].priority == priority
              && after[id].createdAt == now && after[id].updatedAt == now && after[id].attempts == 0 && after[id].maxAttempts == 5
              && after[id].notBefore == None && after[id].lockedBy == None && after[id].lockedUntil == None
  {
  }

  /** A recovery: rows out of attempts and untouched for over an hour start again from none; the others stay as they are. */
  lemma RecoveredRow(tasks: Tasks, now: real, id: string)
    requires id in tasks
    ensures var t, after := tasks[id], Recovered(tasks, now);
            && after.Keys == tasks.Keys
            && after[id] == if t.attempts >= t.maxAttempts && t.updatedAt < now - 3600.0
                            then t.(attempts := 0, notBefore := Some(now), updatedAt := now) else t
  {
  }

  // ---------- When a task is next claimable ----------

  /** After a failure the task can be claimed exactly from its backoff on, and never once its attempts are used up. */
  lemma FailureRetry(tasks: Tasks, id: string, now: real, at: real)
    requires id in tasks
    ensures var t, after := tasks[id], AfterFailure(tasks, id, now);
            && OnlyChanged(tasks, after, id)
            && (Parked(after[id]) <==> t.attempts + 1 >= t.maxAttempts)
            && (Claimable(after[id], at) <==> !Parked(after[id]) && at >= now + BackoffSeconds(t.attempts + 1) as real)
  {
  }

  /** After a transient failure: from the given moment, or five minutes on. */
  lemma TransientRetry(tasks: Tasks, id: string, now: real, resetAt: Option<real>, at: real)
    requires id in tasks
    ensures var t, after := tasks[id], AfterTransient(tasks, id, now, resetAt);
            && OnlyChanged(tasks, after, id)
            && (Claimable(after[id], at) <==> t.attempts + 1 < t.maxAttempts && at >= if resetAt.Some? then resetAt.value else now + 300.0)
  {
  }

  /** A recovery leaves parked exactly what was parked within the hour, and makes the rest of the parked claimable again. */
  lemma RecoveryExact(tasks: Tasks, now: real, id: string, at: real)
    requires id in tasks && 0 < tasks[id].maxAttempts
    ensures var t, after := tasks[id], Recovered(tasks, now)[id];
            && (Parked(after) <==> Parked(t) && t.updatedAt >= now - 3600.0)
            && (Parked(t) == Parked(after) ==> after == t)
            && (Parked(t) != Parked(after) ==> (Claimable(after, at) <==> at >= now && (t.lockedUntil.Some? ==> t.lockedUntil.value < at)))
  {
  }

  // ---------- Parking ----------

  ghost predicate ParkedSince(s: State, id: string, since: real) {
    id in s.tasks && Parked(s.tasks[id]) && s.tasks[id].updatedAt == since
  }

  lemma StepStaysParked(s: State, step: Step, id: string, since: real)
    requires Exclusive(s) && Kept(s) && Enabled(s, step) && ParkedSince(s, id, since) && s.clock <= since + PARKED_RECOVERY_AFTER
    ensures ParkedSince(Apply(s, step), id, since)
  {
    forall w | IsRunning(s, w) ensures s.workers[w].id != id { assert Holds(s, w); }
  }

  /** Once its attempts are used up a task stays parked, unclaimed, until more than an hour past its last update. */
  lemma {:induction false} StaysParked(s: State, steps: seq<Step>, id: string, since: real)
    requires Exclusive(s) && Kept(s) && IsRun(s, steps) && NoTakeover(s, steps) && ParkedSince(s, id, since)
    requires Run(s, steps).clock <= since + PARKED_RECOVERY_AFTER
    ensures var e := Run(s, steps); ParkedSince(e, id, since) && forall w :: IsRunning(e, w) ==> e.workers[w].id != id
    decreases |steps|
  {
    if steps == [] {
      forall w | IsRunning(s, w) ensures s.workers[w].id != id { assert Holds(s, w); }
    } else {
      ClockOnlyGrows(Apply(s, steps[0]), steps[1..]);
      StepStaysParked(s, steps[0], id, since);
      StepKeeps(s, steps[0]);
      StepExclusive(s, steps[0]);
      StaysParked(Apply(s, steps[0]), steps[1..], id, since);
    }
  }

  lemma {:induction false} ClockOnlyGrows(s: State, steps: seq<Step>)
    requires IsRun(s, steps)
    ensures s.clock <= Run(s, steps).clock
    decreases |steps|
  {
    if steps != [] { ClockOnlyGrows(Apply(s, steps[0]), steps[1..]); }
  }
}
