/** A cron job's run, from its trigger through the job queue to the close of its session.

    The trigger, the worker that takes the job, and operators act between each other's await points.
    Each run creates a session (named here by the run's number), puts one agent job on the queue with
    a callback that releases the run, and releases the run itself when queuing fails.
 */
module CronRuns {
  import opened Wrappers
  import opened AgentJobs

  type CronId = nat
  type RunId = nat

  // Where the trigger is. FullQueue: the queue refused the job, its record is being failed.
  // Withdrawing, Judging, Stopping: the enqueue failed after the job was on the queue, and the job is
  // taken back: its record is about to be read, has been read as not queued, its task is being stopped.
  datatype Trigger =
    | CreatingSession | WritingRecord | RecordLanded | FullQueue | Auditing
    | Withdrawing | Judging(seen: Status) | Stopping | Releasing | Done

  // Where the job is in memory. Taken: its task exists and has not run a step. Closing: it runs its
  // finish callback. Lost: its task was cancelled before its first step, so it never ran its finally.
  datatype Worker = Absent | OnQueue | Taken | Begun | Closing | Ended | Lost

  // `callback`: the job's finish callback is registered. `made` (its session was), `closes`, `withdrawn`: history.
  // `asking`: operators' cancels that wrote or found `cancelling` and have yet to look for the job's task.
  // `missed`: those that found no task, and have yet to record the job as interrupted.
  datatype Run = Run(
    cron: CronId, trigger: Trigger, worker: Worker, status: Option<Status>, callback: bool,
    made: bool, closes: nat, withdrawn: bool, asking: nat, missed: nat)

  // A cron job's slot: None while its session is being created (the source's ""), then the run it hosts.
  type Slots = map<CronId, Option<RunId>>

  datatype State = State(slots: Slots, runs: seq<Run>)

  // ---- The slot -------------------------------------------------------------------------------------------

  /** A release acts only while the slot hosts its run. */
  predicate Hosts(slots: Slots, cron: CronId, run: RunId) {
    cron in slots && slots[cron] == Some(run)
  }

  function WithoutSlot(slots: Slots, cron: CronId): Slots {
    slots - {cron}
  }

  // ---- Steps ----------------------------------------------------------------------------------------------

  datatype Step =
    | Fire(cron: CronId)
    | SessionFails(r: RunId)
    | SessionOpens(r: RunId)
    | RecordLands(r: RunId)
    | CreateFails(r: RunId, left: Option<Status>)
    | PutOnQueue(r: RunId)
    | QueueIsFull(r: RunId)
    | FailureRecorded(r: RunId, ok: bool)
    | Audited(r: RunId)
    | AuditFails(r: RunId)
    | WithdrawReads(r: RunId)
    | WithdrawJudges(r: RunId)
    | WithdrawEnds(r: RunId)
    | TriggerReleases(r: RunId)
    | Take(r: RunId)
    | Begin(r: RunId)
    | StartQueued(r: RunId)
    | Record(r: RunId, status: Status)
    | Exit(r: RunId)
    | Closed(r: RunId)
    | CancelAsks(r: RunId)
    | CancelLooks(r: RunId)
    | CancelEnds(r: RunId)
    | Discard(r: RunId)

  function Put(s: State, r: RunId, run: Run): State
    requires r < |s.runs|
  {
    s.(runs := s.runs[r := run])
  }

  /** Release run `r` of state `s`, whose fields have become `run`. */
  function Release(s: State, r: RunId, run: Run): State
    requires r < |s.runs|
  {
    if Hosts(s.slots, run.cron, r) then
      State(WithoutSlot(s.slots, run.cron), s.runs[r := run.(closes := run.closes + 1)])
    else Put(s, r, run)
  }

  /** What cancelling the job's task does: before its first step the task never runs its finally. */
  function TaskCancelled(worker: Worker): Worker {
    if worker == Taken then Lost else worker
  }

  predicate HasTask(worker: Worker) {
    worker in {Taken, Begun, Closing}
  }

  predicate Enabled(s: State, step: Step) {
    if step.Fire? then step.cron !in s.slots
    else
      step.r < |s.runs| &&
      var run := s.runs[step.r];
      match step
      case SessionFails(_) => run.trigger.CreatingSession?
      case SessionOpens(_) => run.trigger.CreatingSession?
      case RecordLands(_) => run.trigger.WritingRecord?
      case CreateFails(_, left) =>
        (run.trigger.WritingRecord? || run.trigger.RecordLanded?) && left != Some(Running) && left != Some(Cancelling)
      case PutOnQueue(_) => run.trigger.RecordLanded?
      case QueueIsFull(_) => run.trigger.RecordLanded?
      case FailureRecorded(_, _) => run.trigger.FullQueue?
      case Audited(_) => run.trigger.Auditing?
      case AuditFails(_) => run.trigger.Auditing?
      case WithdrawReads(_) => run.trigger.Withdrawing? && run.status.Some?
      case WithdrawJudges(_) => run.trigger.Judging?
      case WithdrawEnds(_) => run.trigger.Withdrawing? || run.trigger.Judging? || run.trigger.Stopping?
      case TriggerReleases(_) => run.trigger.Releasing?
      case Take(_) => run.worker == OnQueue
      case Begin(_) => run.worker == Taken
      case StartQueued(_) => run.worker == Begun && run.status == Some(Queued)
      case Record(_, status) => run.worker in {Begun, Closing, Ended} && run.status.Some? && status != Queued
      case Exit(_) => run.worker == Begun
      case Closed(_) => run.worker == Closing
      case CancelAsks(_) => run.status.Some?
      case CancelLooks(_) => run.asking > 0
      case CancelEnds(_) => run.missed > 0 && run.status.Some?
      case Discard(_) => run.status.Some?
      case Fire(_) => false
  }

  function Withdrawn(run: Run): Run {
    run.(trigger := Releasing, callback := false, withdrawn := true)
  }

  /** A cancel writes its request, and goes on only if the record then says `cancelling`. */
  function CancelAsked(run: Run): Run
    requires run.status.Some?
  {
    var status := CancelRequested(run.status.value).0;
    run.(status := Some(status), asking := if status == Cancelling then run.asking + 1 else run.asking)
  }

  /** It then cancels the job's task, if there still is one. */
  function CancelLooked(run: Run): Run
    requires run.asking > 0
  {
    var looked := run.(asking := run.asking - 1);
    if HasTask(run.worker) then looked.(worker := TaskCancelled(run.worker)) else looked.(missed := run.missed + 1)
  }

  function Apply(s: State, step: Step): State
    requires Enabled(s, step)
  {
    if step.Fire? then
      State(s.slots[step.cron := None],
            s.runs + [Run(step.cron, CreatingSession, Absent, None, false, false, 0, false, 0, 0)])
    else
      var r := step.r;
      var run := s.runs[r];
      match step
      case SessionFails(_) => Put(s, r, run.(trigger := Done)).(slots := WithoutSlot(s.slots, run.cron))
      case SessionOpens(_) =>
        Put(s, r, run.(trigger := WritingRecord, made := true)).(slots := s.slots[run.cron := Some(r)])
      case RecordLands(_) => Put(s, r, run.(trigger := RecordLanded, status := Some(Queued)))
      case CreateFails(_, left) => Put(s, r, run.(trigger := Releasing, status := left))
      case PutOnQueue(_) => Put(s, r, run.(trigger := Auditing, worker := OnQueue, callback := true))
      case QueueIsFull(_) => Put(s, r, run.(trigger := FullQueue))
      case FailureRecorded(_, ok) => Put(s, r, run.(trigger := Releasing, status := if ok then Some(Failed) else run.status))
      case Audited(_) => Put(s, r, run.(trigger := Done))
      case AuditFails(_) => Put(s, r, run.(trigger := Withdrawing))
      case WithdrawReads(_) =>
        if run.status == Some(Queued) then Put(s, r, run.(trigger := Stopping, status := Some(Interrupted)))
        else Put(s, r, run.(trigger := Judging(run.status.value)))
      case WithdrawJudges(_) =>
        if run.worker in {Taken, Begun} && run.trigger.seen in {Running, Cancelling} then
          Put(s, r, run.(trigger := Stopping, worker := TaskCancelled(run.worker)))
        else Put(s, r, Withdrawn(run))
      case WithdrawEnds(_) => Put(s, r, Withdrawn(run))
      case TriggerReleases(_) => Release(s, r, run.(trigger := Done))
      case Take(_) => Put(s, r, run.(worker := Taken))
      case Begin(_) => Put(s, r, run.(worker := Begun))
      case StartQueued(_) => Put(s, r, run.(status := Some(Running)))
      case Record(_, status) => Put(s, r, run.(status := Some(status)))
      case Exit(_) =>
        var closing := run.(worker := Closing, callback := false);
        if run.callback then Release(s, r, closing) else Put(s, r, closing)
      case Closed(_) => Put(s, r, run.(worker := Ended))
      case CancelAsks(_) => Put(s, r, CancelAsked(run))
      case CancelLooks(_) => Put(s, r, CancelLooked(run))
      case CancelEnds(_) => Put(s, r, run.(missed := run.missed - 1, status := Some(Stopped(false))))
      case Discard(_) => Put(s, r, run.(status := Some(DiscardRequested(run.status.value).0)))
  }

  predicate IsRun(states: seq<State>, steps: seq<Step>) {
    && |states| == |steps| + 1
    && states[0] == State(map[], [])
    && forall i | 0 <= i < |steps| :: Enabled(states[i], steps[i]) && states[i + 1] == Apply(states[i], steps[i])
  }

  // ---- What every step keeps ----------------------------------------------------------------------------

  predicate OnTheQueue(run: Run) {
    run.trigger.Auditing? || run.trigger.Withdrawing? || run.trigger.Judging? || run.trigger.Stopping?
  }

  predicate Live(run: Run) {
    run.worker in {OnQueue, Taken, Begun}
  }

  predicate UnderWay(status: Option<Status>) {
    status == Some(Running) || status == Some(Cancelling)
  }

  /** A run on its own: who still has to release it, and that its task is never lost. */
  predicate GoodRun(run: Run) {
    && run.closes <= 1
    && (!run.made ==> !run.withdrawn && run.closes == 0 && (run.trigger.CreatingSession? || run.trigger.Done?) && run.worker == Absent)
    && (run.trigger.CreatingSession? ==> !run.made)
    && (run.callback ==> Live(run) && !run.withdrawn && (OnTheQueue(run) || run.trigger.Done?) && run.closes == 0)
    && (run.made && !run.callback && run.closes == 0 ==>
          || run.trigger.WritingRecord? || run.trigger.RecordLanded? || run.trigger.FullQueue? || run.trigger.Releasing?)
    && (run.trigger.WritingRecord? || run.trigger.RecordLanded? || run.trigger.FullQueue? ==>
          run.made && run.worker == Absent && run.closes == 0 && !run.withdrawn)
    && (OnTheQueue(run) ==> run.worker != Absent && !run.withdrawn)
    && (Live(run) && !run.withdrawn ==> run.callback)
    && (Live(run) && run.trigger.Releasing? ==> run.closes == 0)
    && (run.worker in {Absent, OnQueue, Taken} ==> !UnderWay(run.status))
    && (run.trigger.Judging? && run.trigger.seen in {Running, Cancelling} ==> run.worker in {Begun, Closing, Ended})
    && (run.asking > 0 ==> run.worker in {Begun, Closing, Ended})
    && run.worker != Lost
  }

  predicate GoodRuns(runs: seq<Run>) {
    forall r | 0 <= r < |runs| :: GoodRun(runs[r])
  }

  /** A slot that hosts a run hosts an open session of its cron job; an open session is hosted; a slot
      being created is its only creating run's. */
  predicate GoodSlots(s: State) {
    && (forall cron | cron in s.slots && s.slots[cron].Some? ::
          var r := s.slots[cron].value;
          r < |s.runs| && s.runs[r].cron == cron && s.runs[r].made && s.runs[r].closes == 0)
    && (forall r | 0 <= r < |s.runs| ::
          s.runs[r].made && s.runs[r].closes == 0 ==> Hosts(s.slots, s.runs[r].cron, r))
    && (forall r | 0 <= r < |s.runs| && s.runs[r].trigger.CreatingSession? ::
          s.runs[r].cron in s.slots && s.slots[s.runs[r].cron] == None)
    && (forall q, r | 0 <= q < r < |s.runs| ::
          s.runs[q].trigger.CreatingSession? && s.runs[r].trigger.CreatingSession? ==> s.runs[q].cron != s.runs[r].cron)
  }

  predicate Inv(s: State) {
    GoodRuns(s.runs) && GoodSlots(s)
  }

  /** A step that changes only its own run, and not what the slots depend on. */
  lemma QuietStepKeepsInv(s: State, r: RunId, run: Run)
    requires Inv(s) && r < |s.runs| && GoodRun(run)
    requires run.cron == s.runs[r].cron && run.made == s.runs[r].made && run.closes == s.runs[r].closes
    requires run.trigger.CreatingSession? ==> s.runs[r].trigger.CreatingSession?
    ensures Inv(Put(s, r, run))
  {
  }

  /** Releasing a run closes its session and frees its slot, or does nothing. */
  lemma ReleaseKeepsInv(s: State, r: RunId, run: Run)
    requires Inv(s) && r < |s.runs|
    requires run.cron == s.runs[r].cron && run.made == s.runs[r].made && run.closes == s.runs[r].closes
    requires !run.trigger.CreatingSession? && !s.runs[r].trigger.CreatingSession?
    requires Hosts(s.slots, run.cron, r) ==> GoodRun(run.(closes := run.closes + 1))
    requires !Hosts(s.slots, run.cron, r) ==> GoodRun(run)
    ensures Inv(Release(s, r, run))
  {
  }

  lemma FireKeepsInv(s: State, cron: CronId)
    requires Inv(s) && Enabled(s, Fire(cron))
    ensures Inv(Apply(s, Fire(cron)))
  {
    var t := Apply(s, Fire(cron));
    forall r | 0 <= r < |s.runs| && (s.runs[r].trigger.CreatingSession? || (s.runs[r].made && s.runs[r].closes == 0))
      ensures s.runs[r].cron != cron
    {
      assert GoodRun(s.runs[r]);
    }
  }

  lemma SessionStepKeepsInv(s: State, step: Step)
    requires Inv(s) && Enabled(s, step) && (step.SessionFails? || step.SessionOpens?)
    ensures Inv(Apply(s, step))
  {
  }

  lemma TriggerReleasesKeepsInv(s: State, r: RunId)
    requires Inv(s) && Enabled(s, TriggerReleases(r))
    ensures Inv(Apply(s, TriggerReleases(r)))
  {
    assert GoodRun(s.runs[r]);
    ReleaseKeepsInv(s, r, s.runs[r].(trigger := Done));
  }

  lemma EnqueueStepKeepsInv(s: State, step: Step)
    requires Inv(s) && Enabled(s, step)
    requires || step.RecordLands? || step.CreateFails? || step.PutOnQueue? || step.QueueIsFull? || step.FailureRecorded?
             || step.Audited? || step.AuditFails?
    ensures Inv(Apply(s, step))
  {
    hide GoodSlots;
    assert GoodRun(s.runs[step.r]);
    QuietStepKeepsInv(s, step.r, Apply(s, step).runs[step.r]);
  }

  lemma WithdrawStepKeepsInv(s: State, step: Step)
    requires Inv(s) && Enabled(s, step)
    requires step.WithdrawReads? || step.WithdrawJudges? || step.WithdrawEnds?
    ensures Inv(Apply(s, step))
  {
    hide GoodSlots;
    assert GoodRun(s.runs[step.r]);
    QuietStepKeepsInv(s, step.r, Apply(s, step).runs[step.r]);
  }

  lemma WorkerStepKeepsInv(s: State, step: Step)
    requires Inv(s) && Enabled(s, step)
    requires step.Take? || step.Begin? || step.StartQueued? || step.Record? || step.Closed? || step.Discard?
    ensures Inv(Apply(s, step))
  {
    hide GoodSlots;
    assert GoodRun(s.runs[step.r]);
    QuietStepKeepsInv(s, step.r, Apply(s, step).runs[step.r]);
  }

  lemma CancelStepKeepsInv(s: State, step: Step)
    requires Inv(s) && Enabled(s, step) && (step.CancelAsks? || step.CancelLooks? || step.CancelEnds?)
    ensures Inv(Apply(s, step))
  {
    hide GoodSlots;
    assert GoodRun(s.runs[step.r]);
    QuietStepKeepsInv(s, step.r, Apply(s, step).runs[step.r]);
  }

  lemma ExitKeepsInv(s: State, r: RunId)
    requires Inv(s) && Enabled(s, Exit(r))
    ensures Inv(Apply(s, Exit(r)))
  {
    var run := s.runs[r];
    assert GoodRun(run);
    var closing := run.(worker := Closing, callback := false);
    if run.callback {
      ReleaseKeepsInv(s, r, closing);
    } else {
      QuietStepKeepsInv(s, r, closing);
    }
  }

  lemma StepKeepsInv(s: State, step: Step)
    requires Inv(s) && Enabled(s, step)
    ensures Inv(Apply(s, step))
  {
    hide *;
    match step
    case Fire(cron) => FireKeepsInv(s, cron);
    case SessionFails(_) => SessionStepKeepsInv(s, step);
    case SessionOpens(_) => SessionStepKeepsInv(s, step);
    case TriggerReleases(r) => TriggerReleasesKeepsInv(s, r);
    case RecordLands(_) => EnqueueStepKeepsInv(s, step);
    case CreateFails(_, _) => EnqueueStepKeepsInv(s, step);
    case PutOnQueue(_) => EnqueueStepKeepsInv(s, step);
    case QueueIsFull(_) => EnqueueStepKeepsInv(s, step);
    case FailureRecorded(_, _) => EnqueueStepKeepsInv(s, step);
    case Audited(_) => EnqueueStepKeepsInv(s, step);
    case AuditFails(_) => EnqueueStepKeepsInv(s, step);
    case WithdrawReads(_) => WithdrawStepKeepsInv(s, step);
    case WithdrawJudges(_) => WithdrawStepKeepsInv(s, step);
    case WithdrawEnds(_) => WithdrawStepKeepsInv(s, step);
    case Exit(r) => ExitKeepsInv(s, r);
    case CancelAsks(_) => CancelStepKeepsInv(s, step);
    case CancelLooks(_) => CancelStepKeepsInv(s, step);
    case CancelEnds(_) => CancelStepKeepsInv(s, step);
    case _ => WorkerStepKeepsInv(s, step);
  }

  lemma {:induction false} RunKeepsInv(states: seq<State>, steps: seq<Step>, n: nat)
    requires IsRun(states, steps) && n < |states|
    ensures Inv(states[n])
  {
    hide Apply, Enabled;
    if n == 0 {
    } else {
      RunKeepsInv(states, steps, n - 1);
      assert Enabled(states[n - 1], steps[n - 1]);
      StepKeepsInv(states[n - 1], steps[n - 1]);
    }
  }

  // ---- What a run promises ------------------------------------------------------------------------------

  /** The job is over in memory: never put on the queue, or its task has ended. */
  predicate JobOver(run: Run) {
    run.worker in {Absent, Ended}
  }

  /** A session made for a run is closed at most once, and exactly once by the time its trigger and its
      job are over: after success, failure, a cancel, a full queue, an audit failure or a withdrawal. */
  lemma SessionClosedExactlyOnce(states: seq<State>, steps: seq<Step>, n: nat, r: RunId)
    requires IsRun(states, steps) && n < |states| && r < |states[n].runs|
    ensures
      var run := states[n].runs[r];
      && run.closes <= 1
      && (run.made && run.trigger.Done? && JobOver(run) ==> run.closes == 1)
      && (!run.made ==> run.closes == 0)
  {
    RunKeepsInv(states, steps, n);
    assert GoodRun(states[n].runs[r]);
  }

  /** At most one session of a cron job is open, and it is the one its slot hosts. */
  lemma OneOpenSessionPerCronJob(states: seq<State>, steps: seq<Step>, n: nat, q: RunId, r: RunId)
    requires IsRun(states, steps) && n < |states| && q < |states[n].runs| && r < |states[n].runs|
    requires states[n].runs[q].cron == states[n].runs[r].cron
    requires states[n].runs[q].made && states[n].runs[q].closes == 0
    requires states[n].runs[r].made && states[n].runs[r].closes == 0
    ensures q == r && Hosts(states[n].slots, states[n].runs[r].cron, r)
  {
    RunKeepsInv(states, steps, n);
  }

  /** A slot is only ever taken from the run it hosts by closing that run's session: a release never
      clears a newer run's slot. */
  lemma SlotFreedOnlyByItsOwnClose(s: State, step: Step, cron: CronId, r: RunId)
    requires Inv(s) && Enabled(s, step) && Hosts(s.slots, cron, r) && !Hosts(Apply(s, step).slots, cron, r)
    ensures
      var t := Apply(s, step);
      && cron !in t.slots
      && r < |t.runs| && t.runs[r].closes == s.runs[r].closes + 1
      && (step == Exit(r) || step == TriggerReleases(r))
  {
  }

  /** The task of a queued job is never cancelled before its first step, which would skip the callback: neither
      a withdrawal nor a cancel looks for a task before the record has said that the job runs. */
  lemma NoTaskIsLost(states: seq<State>, steps: seq<Step>, n: nat, r: RunId)
    requires IsRun(states, steps) && n < |states| && r < |states[n].runs|
    ensures states[n].runs[r].worker != Lost
  {
    RunKeepsInv(states, steps, n);
    assert GoodRun(states[n].runs[r]);
  }

  /** What that rules out: a task cancelled before its first step is lost, and while it is no step runs its callback,
      which nothing but its trigger's withdrawal then takes away. */
  lemma LostTaskNeverRunsItsCallback(s: State, step: Step, r: RunId)
    requires Enabled(s, step) && r < |s.runs| && !s.runs[r].trigger.RecordLanded?
    ensures step == CancelLooks(r) && s.runs[r].worker == Taken ==> Apply(s, step).runs[r].worker == Lost
    ensures s.runs[r].worker == Lost ==>
              && step != Exit(r) && Apply(s, step).runs[r].worker == Lost
              && (s.runs[r].callback && !Apply(s, step).runs[r].callback ==> Apply(s, step).runs[r].withdrawn)
  {
  }

  /** A queued or running job's run has lost its slot, so that a fire may start beside it, exactly if its trigger
      failed, took the job back, and has since released the run. */
  lemma LiveJobHoldsItsSlot(states: seq<State>, steps: seq<Step>, n: nat, q: RunId)
    requires IsRun(states, steps) && n < |states| && q < |states[n].runs| && Live(states[n].runs[q])
    ensures
      var run := states[n].runs[q];
      && (Hosts(states[n].slots, run.cron, q) <==> !(run.withdrawn && run.trigger.Done?))
      && (Enabled(states[n], Fire(run.cron)) ==> run.withdrawn && run.trigger.Done?)
  {
    RunKeepsInv(states, steps, n);
    assert GoodRun(states[n].runs[q]);
  }

  /** A cron job's older runs are over: no session of theirs is being created, or open. */
  predicate OlderRunsAreOver(s: State) {
    forall q, r | 0 <= q < r < |s.runs| && s.runs[q].cron == s.runs[r].cron ::
      !s.runs[q].trigger.CreatingSession? && (s.runs[q].made ==> s.runs[q].closes == 1)
  }

  lemma StepKeepsOlderOver(s: State, step: Step)
    requires Inv(s) && Enabled(s, step) && OlderRunsAreOver(s)
    ensures OlderRunsAreOver(Apply(s, step))
  {
    if step.Fire? {
      forall q | 0 <= q < |s.runs| && s.runs[q].cron == step.cron
        ensures !s.runs[q].trigger.CreatingSession? && (s.runs[q].made ==> s.runs[q].closes == 1)
      {
        assert GoodRun(s.runs[q]);
      }
    } else {
      StepMoves(s, step);
    }
  }

  /** A step moves one run, keeps its cron job, and neither creates its session anew nor reopens it. */
  lemma StepMoves(s: State, step: Step)
    requires Inv(s) && Enabled(s, step) && !step.Fire?
    ensures
      var t, r := Apply(s, step), step.r;
      && |t.runs| == |s.runs| && t.runs == s.runs[r := t.runs[r]] && t.runs[r].cron == s.runs[r].cron
      && (t.runs[r].trigger.CreatingSession? ==> s.runs[r].trigger.CreatingSession?)
      && (t.runs[r].made ==> s.runs[r].made || s.runs[r].trigger.CreatingSession?)
      && s.runs[r].closes <= t.runs[r].closes <= 1
  {
    hide GoodSlots;
    assert GoodRun(s.runs[step.r]);
    StepKeepsInv(s, step);
    assert GoodRun(Apply(s, step).runs[step.r]);
  }

  lemma {:induction false} OlderAreOver(states: seq<State>, steps: seq<Step>, n: nat)
    requires IsRun(states, steps) && n < |states|
    ensures OlderRunsAreOver(states[n])
  {
    hide Apply, Enabled, OlderRunsAreOver;
    if n == 0 {
      NoneOlder();
    } else {
      OlderAreOver(states, steps, n - 1);
      RunKeepsInv(states, steps, n - 1);
      assert Enabled(states[n - 1], steps[n - 1]);
      StepKeepsOlderOver(states[n - 1], steps[n - 1]);
    }
  }

  lemma NoneOlder()
    ensures OlderRunsAreOver(State(map[], []))
  {
  }

  /** Of two jobs of one cron job that are queued or running at once, it is the older that was withdrawn and
      released; while a job is not, it is its cron job's only one. */
  lemma OneLiveJobPerCronJob(states: seq<State>, steps: seq<Step>, n: nat, q: RunId, r: RunId)
    requires IsRun(states, steps) && n < |states| && q < r < |states[n].runs|
    requires states[n].runs[q].cron == states[n].runs[r].cron
    requires Live(states[n].runs[q]) && Live(states[n].runs[r])
    ensures states[n].runs[q].withdrawn && states[n].runs[q].trigger.Done?
  {
    RunKeepsInv(states, steps, n);
    OlderAreOver(states, steps, n);
    assert GoodRun(states[n].runs[q]);
  }

  // ---- That a withdrawn job does run beside another --------------------------------------------------------

  ghost predicate Reachable(s: State) {
    exists states: seq<State>, steps: seq<Step> :: IsRun(states, steps) && states[|steps|] == s
  }

  lemma ReachInitially()
    ensures Reachable(State(map[], []))
  {
    var states, steps: seq<Step> := [State(map[], [])], [];
    assert IsRun(states, steps) && states[|steps|] == State(map[], []);
  }

  lemma Reach(s: State, step: Step, next: State)
    requires Reachable(s) && Enabled(s, step) && next == Apply(s, step)
    ensures Reachable(next)
  {
    hide Apply, Enabled;
    var states, steps :| IsRun(states, steps) && states[|steps|] == s;
    var states', steps' := states + [next], steps + [step];
    forall i | 0 <= i < |steps'| ensures Enabled(states'[i], steps'[i]) && states'[i + 1] == Apply(states'[i], steps'[i]) {
      if i < |steps| {
        assert states'[i] == states[i] && steps'[i] == steps[i];
      }
    }
    assert IsRun(states', steps') && states'[|steps'|] == next;
  }

  function Hosting(run: Run): State {
    State(map[0 := Some(0)], [run])
  }

  const STARTED_RUN := Run(0, Auditing, Begun, Some(Running), true, true, 0, false, 0, 0)

  lemma FirstJobRuns()
    ensures Reachable(Hosting(STARTED_RUN))
  {
    hide Reachable;
    var run := Run(0, CreatingSession, Absent, None, false, false, 0, false, 0, 0);
    ReachInitially();
    Reach(State(map[], []), Fire(0), State(map[0 := None], [run]));
    var recorded := run.(trigger := RecordLanded, made := true, status := Some(Queued));
    Reach(State(map[0 := None], [run]), SessionOpens(0), Hosting(run.(trigger := WritingRecord, made := true)));
    Reach(Hosting(run.(trigger := WritingRecord, made := true)), RecordLands(0), Hosting(recorded));
    var onQueue := recorded.(trigger := Auditing, worker := OnQueue, callback := true);
    Reach(Hosting(recorded), PutOnQueue(0), Hosting(onQueue));
    Reach(Hosting(onQueue), Take(0), Hosting(onQueue.(worker := Taken)));
    Reach(Hosting(onQueue.(worker := Taken)), Begin(0), Hosting(onQueue.(worker := Begun)));
    Reach(Hosting(onQueue.(worker := Begun)), StartQueued(0), Hosting(STARTED_RUN));
  }

  const RELEASED_RUN := STARTED_RUN.(trigger := Done, callback := false, closes := 1, withdrawn := true)

  lemma FirstRunIsReleased()
    ensures Reachable(State(map[], [RELEASED_RUN]))
  {
    hide Reachable;
    FirstJobRuns();
    var run := STARTED_RUN;
    Reach(Hosting(run), AuditFails(0), Hosting(run.(trigger := Withdrawing)));
    Reach(Hosting(run.(trigger := Withdrawing)), WithdrawReads(0), Hosting(run.(trigger := Judging(Running))));
    Reach(Hosting(run.(trigger := Judging(Running))), WithdrawJudges(0), Hosting(run.(trigger := Stopping)));
    var withdrawn := run.(trigger := Releasing, callback := false, withdrawn := true);
    Reach(Hosting(run.(trigger := Stopping)), WithdrawEnds(0), Hosting(withdrawn));
    Reach(Hosting(withdrawn), TriggerReleases(0), State(map[], [RELEASED_RUN]));
  }

  predicate RunsTwoJobs(s: State) {
    && |s.runs| == 2 && s.runs[0].cron == s.runs[1].cron
    && s.runs[0].worker == Begun && s.runs[0].status == Some(Running) && Live(s.runs[1])
  }

  /** A trigger whose enqueue audit fails stops waiting for the job's task after five seconds, releases the
      run, and the next fire starts while the first job still runs. */
  lemma WithdrawnJobMayOutliveItsSlot()
    ensures exists s :: Reachable(s) && RunsTwoJobs(s)
  {
    hide Reachable;
    FirstRunIsReleased();
    var next := Run(0, CreatingSession, Absent, None, false, false, 0, false, 0, 0);
    Reach(State(map[], [RELEASED_RUN]), Fire(0), State(map[0 := None], [RELEASED_RUN, next]));
    var writing := next.(trigger := WritingRecord, made := true);
    Reach(State(map[0 := None], [RELEASED_RUN, next]), SessionOpens(1), State(map[0 := Some(1)], [RELEASED_RUN, writing]));
    var recorded := writing.(trigger := RecordLanded, status := Some(Queued));
    Reach(State(map[0 := Some(1)], [RELEASED_RUN, writing]), RecordLands(1), State(map[0 := Some(1)], [RELEASED_RUN, recorded]));
    var onQueue := recorded.(trigger := Auditing, worker := OnQueue, callback := true);
    Reach(State(map[0 := Some(1)], [RELEASED_RUN, recorded]), PutOnQueue(1), State(map[0 := Some(1)], [RELEASED_RUN, onQueue]));
    assert RunsTwoJobs(State(map[0 := Some(1)], [RELEASED_RUN, onQueue]));
  }

  // ---- The service --------------------------------------------------------------------------------------------

  /** The steps lead from one state of the runs to the other. */
  predicate Leads(s: State, steps: seq<Step>, t: State)
    decreases |steps|
  {
    if steps == [] then s == t else Enabled(s, steps[0]) && Leads(Apply(s, steps[0]), steps[1..], t)
  }

  lemma {:induction false} LeadsOn(s: State, first: seq<Step>, t: State, more: seq<Step>, u: State)
    requires Leads(s, first, t) && Leads(t, more, u)
    ensures Leads(s, first + more, u)
    decreases |first|
  {
    if first == [] {
      assert first + more == more;
    } else {
      LeadsOn(Apply(s, first[0]), first[1..], t, more, u);
      assert (first + more)[1..] == first[1..] + more;
    }
  }

  lemma LeadsByOne(s: State, step: Step)
    requires Enabled(s, step)
    ensures Leads(s, [step], Apply(s, step))
  {
  }

  lemma {:induction false} LeadsKeepInv(s: State, steps: seq<Step>, t: State)
    requires Inv(s) && Leads(s, steps, t)
    ensures Inv(t)
    decreases |steps|
  {
    hide Inv, Enabled, Apply;
    if steps == [] {
    } else {
      StepKeepsInv(s, steps[0]);
      LeadsKeepInv(Apply(s, steps[0]), steps[1..], t);
    }
  }

  /** The same slots, and every session closed as often. */
  predicate SameSessions(s: State, t: State) {
    t.slots == s.slots && |t.runs| == |s.runs| && forall r | 0 <= r < |s.runs| :: t.runs[r].closes == s.runs[r].closes
  }

  /** The service over the runs it stands for: each of its methods is a step of theirs. */
  class CronService {
    var activeRuns: Slots
    // The sessions close_session was called for, in order.
    var closed: seq<RunId>
    ghost var state: State

    /** The slots are the runs' slots, and a session was closed as often as its run counts. */
    ghost predicate Valid()
      reads this
    {
      && Inv(state) && activeRuns == state.slots
      && (forall r | r in closed :: r < |state.runs|)
      && (forall r | 0 <= r < |state.runs| :: multiset(closed)[r] == state.runs[r].closes)
    }

    constructor ()
      ensures Valid() && state == State(map[], []) && activeRuns == map[] && closed == []
    {
      activeRuns, closed, state := map[], [], State(map[], []);
    }

    /** The runs take steps of the queue's, which touch neither a slot nor a session. */
    ghost method Follow(steps: seq<Step>, t: State)
      requires Valid() && Leads(state, steps, t) && SameSessions(state, t)
      modifies this`state
      ensures Valid() && state == t
    {
      LeadsKeepInv(state, steps, t);
      state := t;
    }

    /** A trigger takes its cron job's slot, unless a run of the job is in flight. */
    method ClaimSlot(cron: CronId) returns (claimed: bool)
      requires Valid()
      modifies this`activeRuns, this`state
      ensures Valid()
      ensures claimed <==> Enabled(old(state), Fire(cron))
      ensures state == if claimed then Apply(old(state), Fire(cron)) else old(state)
    {
      if cron in activeRuns {
        return false;
      }
      NotClosedYet(closed, |state.runs|);
      StepKeepsInv(state, Fire(cron));
      activeRuns, state := activeRuns[cron := None], Apply(state, Fire(cron));
      return true;
    }

    method SessionMade(cron: CronId, run: RunId)
      requires Valid() && Enabled(state, SessionOpens(run)) && cron == state.runs[run].cron
      modifies this`activeRuns, this`state
      ensures Valid() && state == Apply(old(state), SessionOpens(run))
    {
      StepKeepsInv(state, SessionOpens(run));
      activeRuns, state := activeRuns[cron := Some(run)], Apply(state, SessionOpens(run));
    }

    method SessionNotMade(cron: CronId, run: RunId)
      requires Valid() && Enabled(state, SessionFails(run)) && cron == state.runs[run].cron
      modifies this`activeRuns, this`state
      ensures Valid() && state == Apply(old(state), SessionFails(run))
    {
      StepKeepsInv(state, SessionFails(run));
      activeRuns, state := activeRuns - {cron}, Apply(state, SessionFails(run));
    }

    /** Release a run, for its trigger or from its job's finish callback: only the first to find the run in the
        slot frees it and closes the session. */
    method ReleaseRun(cron: CronId, run: RunId, ghost step: Step)
      requires Valid() && Enabled(state, step) && (step == TriggerReleases(run) || step == Exit(run))
      requires cron == state.runs[run].cron && (step.Exit? ==> state.runs[run].callback)
      modifies this
      ensures Valid() && state == Apply(old(state), step)
      ensures closed == if Hosts(old(activeRuns), cron, run) then old(closed) + [run] else old(closed)
    {
      StepKeepsInv(state, step);
      state := Apply(state, step);
      if cron !in activeRuns || activeRuns[cron] != Some(run) {
        return;
      }
      activeRuns := activeRuns - {cron};
      closed := closed + [run];
    }
  }

  lemma NotClosedYet(closed: seq<RunId>, n: nat)
    requires forall r | r in closed :: r < n
    ensures multiset(closed)[n] == 0
  {
    assert n !in closed;
  }

  /** So no session is ever closed twice. */
  lemma ClosedAtMostOnce(closed: seq<RunId>, s: State, i: nat, j: nat)
    requires Inv(s) && (forall r | r in closed :: r < |s.runs|)
    requires forall r | 0 <= r < |s.runs| :: multiset(closed)[r] == s.runs[r].closes
    requires i < j < |closed|
    ensures closed[i] != closed[j]
  {
    assert closed[i] in closed;
    assert GoodRun(s.runs[closed[i]]);
    assert closed == closed[..j] + closed[j..];
    assert closed[..j][i] == closed[i] && closed[j..][0] == closed[j];
  }
}
