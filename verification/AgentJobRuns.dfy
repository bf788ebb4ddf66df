/** A background agent job over restarts: it is started at most once, one asked to cancel never completes, and what it
    ended as stays. */
module AgentJobRuns {
  import opened AgentJobs

  // `queue` is what a worker may be handed, the ids still to be put back after a restart included. `working` are the
  // jobs a worker has started and not ended. `asked` are those a cancel of this process has found under way: such a
  // cancel records the interruption itself if it then finds no worker.
  datatype State = State(records: map<JobId, Status>, queue: seq<JobId>, working: set<JobId>, asked: set<JobId>)

  datatype Step =
    | Create(id: JobId)
    | Enqueue(id: JobId)
    | Take(at: nat)
    | Finish(id: JobId, ended: Status)
    | Stop(id: JobId, userCancelled: bool)
    | Die(id: JobId)
    | CancelEnds(id: JobId)
    | RequestCancel(id: JobId)
    | InterruptQueued(id: JobId)
    | Discard(id: JobId)
    | FailUnqueued(id: JobId)
    | LateWrite(id: JobId, status: Status)
    | Restart(requeued: seq<JobId>)

  /** Enqueue may put any id, however often; a record refused by a full queue is written failed over
      whatever it had become; a thread whose caller was cancelled may land its write late, never `queued`. A worker
      may end without its last write, which failed. */
  predicate Enabled(s: State, step: Step) {
    match step
    case Create(id) => id !in s.records
    case Enqueue(id) => true
    case Take(at) => at < |s.queue|
    case Finish(id, ended) => id in s.records && id in s.working && ended in {Completed, Failed}
    case Stop(id, _) => id in s.records && id in s.working
    case Die(id) => id in s.working
    case CancelEnds(id) => id in s.records && id in s.asked && id !in s.working
    case RequestCancel(id) => id in s.records
    case InterruptQueued(id) => id in s.records
    case Discard(id) => id in s.records
    case FailUnqueued(id) => id in s.records
    case LateWrite(id, status) => id in s.records && status != Queued
    case Restart(requeued) => forall id | id in requeued :: id in s.records && s.records[id] == Queued
  }

  /** Whether the step starts the job: the store answered start_queued with a record. */
  predicate Starts(s: State, step: Step, id: JobId) {
    step.Take? && step.at < |s.queue| && s.queue[step.at] == id && id in s.records && s.records[id] == Queued
  }

  function Set(s: State, id: JobId, status: Status): State {
    s.(records := s.records[id := status])
  }

  function Apply(s: State, step: Step): State
    requires Enabled(s, step)
  {
    match step
    case Create(id) => Set(s, id, Queued)
    case Enqueue(id) => s.(queue := s.queue + [id])
    case Take(at) =>
      var id := s.queue[at];
      var taken := s.(queue := s.queue[..at] + s.queue[at + 1..]);
      if id in s.records && s.records[id] == Queued then Set(taken, id, Running).(working := s.working + {id}) else taken
    case Finish(id, ended) => Set(s, id, Finished(s.records[id], ended)).(working := s.working - {id})
    case Stop(id, userCancelled) => Set(s, id, Stopped(userCancelled)).(working := s.working - {id})
    case Die(id) => s.(working := s.working - {id})
    case CancelEnds(id) => Set(s, id, Stopped(false))
    case RequestCancel(id) =>
      var status := CancelRequested(s.records[id]).0;
      Set(s, id, status).(asked := if status == Cancelling then s.asked + {id} else s.asked)
    case InterruptQueued(id) => Set(s, id, QueuedInterrupted(s.records[id]).0)
    case Discard(id) => Set(s, id, DiscardRequested(s.records[id]).0)
    case FailUnqueued(id) => Set(s, id, Failed)
    case LateWrite(id, status) => Set(s, id, status)
    case Restart(requeued) => State(AllRestarted(s.records), requeued, {}, {})
  }

  predicate IsRun(states: seq<State>, steps: seq<Step>) {
    && |states| == |steps| + 1
    && forall i | 0 <= i < |steps| :: Enabled(states[i], steps[i]) && states[i + 1] == Apply(states[i], steps[i])
  }

  predicate Left(s: State, id: JobId) {
    id in s.records && s.records[id] != Queued
  }

  /** No step ever returns a record to queued, a restart included. */
  lemma {:induction false} NeverQueuedAgain(states: seq<State>, steps: seq<Step>, i: nat, j: nat, id: JobId)
    requires IsRun(states, steps) && i <= j < |states| && Left(states[i], id)
    ensures Left(states[j], id)
  {
    if i == j {
    } else {
      NeverQueuedAgain(states, steps, i, j - 1, id);
      assert Enabled(states[j - 1], steps[j - 1]);
    }
  }

  /** Each job is started at most once, whatever restarts, duplicate queue entries, cancels,
      withdrawals, discards and late writes come between. */
  lemma StartedAtMostOnce(states: seq<State>, steps: seq<Step>, i: nat, j: nat, id: JobId)
    requires IsRun(states, steps) && i < j < |steps|
    requires Starts(states[i], steps[i], id)
    ensures !Starts(states[j], steps[j], id)
  {
    assert Enabled(states[i], steps[i]) && states[i + 1] == Apply(states[i], steps[i]);
    NeverQueuedAgain(states, steps, i + 1, j, id);
  }

  /** Only a start makes a job running, and a late write of a start whose caller was cancelled. */
  lemma OnlyAStartRuns(s: State, step: Step, id: JobId)
    requires Enabled(s, step) && !step.LateWrite?
    requires id in Apply(s, step).records && Apply(s, step).records[id] == Running
    ensures (id in s.records && s.records[id] == Running) || Starts(s, step, id)
  {
  }

  // ---- How a job ends -------------------------------------------------------------------------------------------

  predicate WritesLate(step: Step, id: JobId) {
    (step.LateWrite? && step.id == id) || step == FailUnqueued(id)
  }

  predicate NoLateWrite(steps: seq<Step>, i: nat, j: nat, id: JobId)
    requires i <= j <= |steps|
  {
    forall k | i <= k < j :: !WritesLate(steps[k], id)
  }

  /** A job asked to cancel while it ran: its worker, if it has one still, has not written its end. */
  predicate IsCancelled(s: State, id: JobId) {
    && id in s.records && s.records[id] in {Cancelling, Cancelled, Interrupted, Discarded}
    && (id in s.working ==> s.records[id] == Cancelling)
  }

  lemma StepKeepsCancelled(s: State, step: Step, id: JobId)
    requires Enabled(s, step) && IsCancelled(s, id) && !WritesLate(step, id)
    ensures IsCancelled(Apply(s, step), id)
  {
  }

  /** A running job that is asked to cancel ends cancelled or interrupted, and may then be discarded: it never
      completes or fails, whatever its worker reports, and never runs again. */
  lemma {:induction false} CancelledJobNeverCompletes(states: seq<State>, steps: seq<Step>, i: nat, j: nat, id: JobId)
    requires IsRun(states, steps) && i < j < |states| && NoLateWrite(steps, i, j, id)
    requires steps[i] == RequestCancel(id) && states[i].records[id] == Running
    ensures IsCancelled(states[j], id)
  {
    assert Enabled(states[j - 1], steps[j - 1]) && states[j] == Apply(states[j - 1], steps[j - 1]);
    if j == i + 1 {
    } else {
      CancelledJobNeverCompletes(states, steps, i, j - 1, id);
      StepKeepsCancelled(states[j - 1], steps[j - 1], id);
    }
  }

  /** Without a late write, a worker is on jobs that are under way only, and a cancel finds only those. */
  predicate Tidy(s: State, id: JobId) {
    && (id in s.working ==> id in s.records && s.records[id] in {Running, Cancelling})
    && (id in s.asked ==> IsCancelled(s, id))
  }

  lemma {:induction false} RunIsTidy(states: seq<State>, steps: seq<Step>, n: nat, id: JobId)
    requires IsRun(states, steps) && n < |states| && NoLateWrite(steps, 0, n, id)
    requires states[0] == State(map[], [], {}, {})
    ensures Tidy(states[n], id)
  {
    if n == 0 {
    } else {
      RunIsTidy(states, steps, n - 1, id);
      assert Enabled(states[n - 1], steps[n - 1]) && states[n] == Apply(states[n - 1], steps[n - 1]);
      StepIsTidy(states[n - 1], steps[n - 1], id);
    }
  }

  lemma StepIsTidy(s: State, step: Step, id: JobId)
    requires Enabled(s, step) && Tidy(s, id) && !WritesLate(step, id)
    ensures Tidy(Apply(s, step), id)
  {
  }

  /** What a job has completed or failed as stays, over restarts, until it is discarded. */
  lemma {:induction false} OutcomeStays(states: seq<State>, steps: seq<Step>, i: nat, j: nat, id: JobId)
    requires IsRun(states, steps) && i <= j < |states| && NoLateWrite(steps, 0, j, id)
    requires states[0] == State(map[], [], {}, {})
    requires id in states[i].records && states[i].records[id] in {Completed, Failed}
    ensures id in states[j].records && states[j].records[id] in {states[i].records[id], Discarded}
    ensures id !in states[j].working && id !in states[j].asked
  {
    if i == j {
      RunIsTidy(states, steps, i, id);
    } else {
      OutcomeStays(states, steps, i, j - 1, id);
      assert Enabled(states[j - 1], steps[j - 1]) && states[j] == Apply(states[j - 1], steps[j - 1]);
      assert !WritesLate(steps[j - 1], id);
    }
  }

  /** A restart leaves nothing under way: what ran is interrupted, what was being cancelled is cancelled, and every
      other record is as it was. */
  lemma RestartEndsWhatRan(s: State, requeued: seq<JobId>, id: JobId)
    requires Enabled(s, Restart(requeued)) && id in s.records
    ensures
      var t := Apply(s, Restart(requeued));
      && id in t.records && t.records[id] !in {Running, Cancelling} && t.working == {}
      && (s.records[id] == Running ==> t.records[id] == Interrupted)
      && (s.records[id] == Cancelling ==> t.records[id] == Cancelled)
      && (s.records[id] !in {Running, Cancelling} ==> t.records[id] == s.records[id])
  {
  }
}
