/**
  The statements of the worker, the scheduler and the enqueue helper on the task table, updated in
  place. Each method is tied to the statement's function in WorkQueue.
 */
module WorkQueueDb {
  import opened Options
  import opened WorkQueue

  /** Among finitely many tasks one is first in serving order. */
  lemma {:induction false} FirstOf(tasks: Tasks, ids: set<string>) returns (first: string)
    requires ids != {} && forall id :: id in ids ==> id in tasks
    ensures first in ids && forall id :: id in ids ==> NotAfter(tasks[first], tasks[id])
    decreases ids
  {
    first :| first in ids;
    if ids != {first} {
      var rest := FirstOf(tasks, ids - {first});
      if !NotAfter(tasks[first], tasks[rest]) { first := rest; }
    }
  }

  class TaskTable {
    var tasks: Tasks

    /**
      Claim the first claimable task that no other claim holds row-locked: highest priority, then oldest.
      Nothing is claimed only when nothing can be.
     */
    method ClaimNext(w: string, now: real, skipped: set<string>) returns (claimed: Option<string>)
      modifies this
      ensures claimed.Some? ==> FirstClaimable(old(tasks), skipped, now, claimed.value)
                                && tasks == Locked(old(tasks), claimed.value, w, now)
      ensures claimed.None? ==> tasks == old(tasks) && forall id :: id in tasks && id !in skipped ==> !Claimable(tasks[id], now)
    {
      claimed := None;
      if id :| id in tasks && FirstClaimable(tasks, skipped, now, id) {
        claimed := Some(id);
        tasks := tasks[id := tasks[id].(lockedBy := Some(w), lockedUntil := Some(now + LEASE_SECONDS))];
      } else {
        forall id | id in tasks && id !in skipped ensures !Claimable(tasks[id], now) {
          if Claimable(tasks[id], now) {
            var candidates := set x | x in tasks && x !in skipped && Claimable(tasks[x], now);
            assert id in candidates;
            var first := FirstOf(tasks, candidates);
            assert FirstClaimable(tasks, skipped, now, first);
          }
        }
      }
    }

    method Delete(id: string)
      modifies this
      ensures tasks == old(tasks) - {id}
    {
      tasks := tasks - {id};
    }

    /** The handler was refused or rate limited: try again when told to, or in five minutes. */
    method FailTransient(id: string, now: real, resetAt: Option<real>)
      modifies this
      ensures tasks == AfterTransient(old(tasks), id, now, resetAt)
    {
      if id in tasks {
        var notBefore := now + RETRY_DELAY;
        if resetAt.Some? {
          notBefore := resetAt.value;
        }
        var t := tasks[id];
        tasks := tasks[id := t.(attempts := t.attempts + 1, notBefore := Some(notBefore), lockedBy := None, lockedUntil := None, updatedAt := now)];
      }
    }

    /** The handler failed: back off exponentially, or park. */
    method Fail(id: string, now: real)
      modifies this
      ensures tasks == AfterFailure(old(tasks), id, now)
    {
      if id !in tasks {
        return;
      }
      var t := tasks[id];
      var newAttempts := t.attempts + 1;
      var notBefore := now + BackoffSeconds(newAttempts) as real;
      if newAttempts >= t.maxAttempts {
        notBefore := now + PARK_SECONDS;
      }
      tasks := tasks[id := t.(attempts := newAttempts, notBefore := Some(notBefore), lockedBy := None, lockedUntil := None, updatedAt := now)];
    }

    /** Settle a claimed task by its outcome, which is what the protocol's step does to the table. */
    method Settle(ghost s: State, w: string, id: string, now: real, outcome: Outcome)
      requires s.tasks == tasks && Enabled(s, StepOf(w, outcome))
      requires IsRunning(s, w) && s.workers[w].id == id && s.workers[w].now == now
      modifies this
      ensures tasks == Apply(s, StepOf(w, outcome)).tasks
    {
      match outcome {
        case NoHandler => Delete(id);
        case Done => Delete(id);
        case Transient(resetAt) => FailTransient(id, now, resetAt);
        case Failed => Fail(id, now);
      }
    }

    /** The scheduler's update of every task parked for more than an hour. */
    method RecoverParked(now: real)
      modifies this
      ensures tasks == Recovered(old(tasks), now)
    {
      tasks := map id | id in tasks ::
        if tasks[id].attempts >= tasks[id].maxAttempts && tasks[id].updatedAt < now - PARKED_RECOVERY_AFTER
        then tasks[id].(attempts := 0, notBefore := Some(now), updatedAt := now) else tasks[id];
    }

    /** Insert a task unless one with its key is there already. */
    method EnqueueTask(id: string, key: DedupeKey, priority: int, now: real)
      requires id !in tasks
      modifies this
      ensures tasks == Enqueued(old(tasks), id, key, priority, now)
      ensures HasKey(tasks, key)
    {
      if exists t :: t in tasks && tasks[t].dedupe == key {
        return;
      }
      tasks := tasks[id := Task(key.kind, key, priority, now, 0, DEFAULT_MAX_ATTEMPTS, None, None, None, now)];
      assert tasks[id].dedupe == key;
    }
  }
}
