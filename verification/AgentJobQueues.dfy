/** The in-memory side of the job queue: the queue itself, the finish callbacks, and the marks of running and
    finishing jobs, over the job store and the cron service whose runs the callbacks release.

    Each method is what happens with nothing else in between. For the job of a cron run it is shown to be
    a sequence of the steps that CronRuns interleaves.
 */
module AgentJobQueues {
  import opened Wrappers
  import opened AgentJobs
  import opened CronRuns

  const MAX_QUEUED := 100

  // How the work of a job that was started ends.
  datatype Work = Reported(ended: Status) | Stops(userCancelled: bool)

  function EndOf(work: Work): Status {
    if work.Reported? then work.ended else Stopped(work.userCancelled)
  }

  datatype Withdrawal = NoRecord | TakenBack | TaskStopped | AlreadyFinished

  // The run a finish callback releases.
  datatype Callback = Callback(cron: CronId, run: RunId)

  /** What the task of the job of run r does, its record found queued or not. */
  function Task(r: RunId, queued: bool, work: Work): seq<Step> {
    [Begin(r)] + (if queued then [StartQueued(r), Record(r, EndOf(work))] else []) + [Exit(r)]
  }

  /** A worker's turn: it makes the task, and waits for its end. */
  function Turn(r: RunId, queued: bool, work: Work): seq<Step> {
    [Take(r)] + Task(r, queued, work) + [Closed(r)]
  }

  /** What taking a job back is, by how it was found. */
  function TakingBack(r: RunId, withdrawal: Withdrawal): seq<Step> {
    match withdrawal
    case TakenBack => [WithdrawReads(r), WithdrawEnds(r)]
    case TaskStopped => [WithdrawReads(r), WithdrawJudges(r), WithdrawEnds(r)]
    case AlreadyFinished => [WithdrawReads(r), WithdrawJudges(r)]
    case NoRecord => []
  }

  class AgentJobQueue {
    const store: AgentJobStore
    const cron: CronService
    var queue: seq<JobId>
    var onFinish: map<JobId, Callback>
    var runningTasks: set<JobId>
    var finishing: set<JobId>
    // The tasks that were cancelled, in order.
    var cancelled: seq<JobId>

    ghost predicate Valid()
      reads this
    {
      |queue| <= MAX_QUEUED && finishing <= runningTasks
    }

    /** The job stands for run r: its record, its callback and where it is in memory are what the run says. */
    ghost predicate Mirrors(id: JobId, r: RunId)
      reads this, store, cron
    {
      && cron.Valid() && r < |cron.state.runs|
      && var run := cron.state.runs[r];
         && (id in onFinish <==> run.callback) && (run.callback ==> onFinish[id] == Callback(run.cron, r))
         && run.status == (if id in store.records then Some(store.records[id]) else None)
         && (run.worker == OnQueue <==> id in queue)
         && (HasTask(run.worker) <==> id in runningTasks)
         && (run.worker == Closing <==> id in finishing)
    }

    constructor (store: AgentJobStore, cron: CronService)
      ensures Valid() && this.store == store && this.cron == cron
      ensures queue == [] && onFinish == map[] && runningTasks == {} && finishing == {} && cancelled == []
    {
      this.store, this.cron := store, cron;
      queue, onFinish, runningTasks, finishing, cancelled := [], map[], {}, {}, [];
    }

    /** Either the job and its callback are both there, or neither is and the record has failed. */
    method PutOnQueue(id: JobId, callback: Option<Callback>) returns (ok: bool)
      requires Valid()
      requires callback.Some? ==>
                 && Mirrors(id, callback.value.run) && Enabled(cron.state, CronRuns.PutOnQueue(callback.value.run))
                 && callback.value.cron == cron.state.runs[callback.value.run].cron
      modifies this, store, cron
      ensures Valid() && runningTasks == old(runningTasks) && finishing == old(finishing) && cancelled == old(cancelled)
      ensures ok <==> |old(queue)| < MAX_QUEUED
      ensures ok ==>
                && queue == old(queue) + [id] && store.records == old(store.records)
                && onFinish == if callback.Some? then old(onFinish)[id := callback.value] else old(onFinish)
      ensures !ok ==>
                && queue == old(queue) && store.records == old(store.records)[id := Failed]
                && onFinish == old(onFinish) - {id}
      ensures callback.Some? ==>
                var r := callback.value.run;
                && Mirrors(id, r)
                && Leads(old(cron.state), if ok then [CronRuns.PutOnQueue(r)] else [QueueIsFull(r), FailureRecorded(r, true)], cron.state)
      ensures callback.None? ==> cron.state == old(cron.state)
      ensures cron.activeRuns == old(cron.activeRuns) && cron.closed == old(cron.closed)
    {
      hide Inv, Apply, Enabled, Leads;
      ghost var s := cron.state;
      if callback.Some? {
        Queues(s, callback.value.run);
        onFinish := onFinish[id := callback.value];
      }
      if |queue| == MAX_QUEUED {
        onFinish := onFinish - {id};
        store.records := store.records[id := Failed];
        if callback.Some? {
          cron.Follow([QueueIsFull(callback.value.run), FailureRecorded(callback.value.run, true)], NotQueued(s, callback.value.run));
        }
        return false;
      }
      queue := queue + [id];
      if callback.Some? {
        cron.Follow([CronRuns.PutOnQueue(callback.value.run)], OnQueueNow(s, callback.value.run));
      }
      return true;
    }

    /** The job's callback is forgotten before it runs, so it runs once. */
    method RunFinishCallback(id: JobId)
      requires Valid() && cron.Valid()
      requires id in onFinish ==>
                 && Enabled(cron.state, Exit(onFinish[id].run)) && cron.state.runs[onFinish[id].run].callback
                 && onFinish[id].cron == cron.state.runs[onFinish[id].run].cron
      modifies this`onFinish, cron
      ensures Valid() && cron.Valid()
      ensures onFinish == old(onFinish) - {id}
      ensures cron.state == if id in old(onFinish) then Apply(old(cron.state), Exit(old(onFinish)[id].run)) else old(cron.state)
      ensures cron.closed ==
              if id in old(onFinish) && Hosts(old(cron.activeRuns), old(onFinish)[id].cron, old(onFinish)[id].run)
              then old(cron.closed) + [old(onFinish)[id].run] else old(cron.closed)
    {
      hide Inv;
      if id in onFinish {
        var callback := onFinish[id];
        onFinish := onFinish - {id};
        cron.ReleaseRun(callback.cron, callback.run, Exit(callback.run));
      }
    }

    /** Start the job if its record is still queued, and record how its work ended. */
    method ProcessInner(id: JobId, work: Work) returns (started: bool)
      requires work.Reported? ==> work.ended in {Completed, Failed}
      modifies store
      ensures started <==> id in old(store.records) && old(store.records)[id] == Queued
      ensures store.records == if started then old(store.records)[id := EndOf(work)] else old(store.records)
    {
      var reply := store.StartQueued(id);
      started := reply == Changed;
      if started {
        match work {
          case Reported(ended) => reply := store.Finish(id, ended);
          case Stops(userCancelled) => reply := store.FinishCancelled(id, userCancelled);
        }
        assert store.records == old(store.records)[id := EndOf(work)];
      }
    }

    /** The job's task: its work, and then its callback, whatever happened. */
    method ProcessJob(id: JobId, work: Work) returns (started: bool)
      requires Valid() && cron.Valid() && id in runningTasks
      requires work.Reported? ==> work.ended in {Completed, Failed}
      requires id in onFinish ==> Mirrors(id, onFinish[id].run) && cron.state.runs[onFinish[id].run].worker == Taken
      modifies this`onFinish, this`finishing, store, cron
      ensures Valid() && cron.Valid()
      ensures started <==> id in old(store.records) && old(store.records)[id] == Queued
      ensures store.records == if started then old(store.records)[id := EndOf(work)] else old(store.records)
      ensures onFinish == old(onFinish) - {id} && finishing == old(finishing) + {id}
      ensures id in old(onFinish) ==>
                var r := old(onFinish)[id].run;
                && Mirrors(id, r) && cron.state.runs[r].worker == Closing
                && Leads(old(cron.state), Task(r, started, work), cron.state)
      ensures id !in old(onFinish) ==> cron.state == old(cron.state) && cron.closed == old(cron.closed)
    {
      hide Inv, Apply, Enabled, Leads, Worked, Task, SameSessions, Hosts;
      ghost var tracked := id in onFinish;
      ghost var r := if tracked then onFinish[id].run else 0;
      ghost var s := cron.state;
      started := ProcessInner(id, work);
      finishing := finishing + {id};
      if tracked {
        TaskLeads(s, r, started, work);
        cron.Follow(Working(r, started, work), Worked(s, r, started, work));
      }
      RunFinishCallback(id);
    }

    /** A worker's turn with the oldest job. */
    method ProcessNext(work: Work) returns (started: bool)
      requires Valid() && cron.Valid() && queue != []
      requires work.Reported? ==> work.ended in {Completed, Failed}
      requires queue[0] in onFinish ==> Mirrors(queue[0], onFinish[queue[0]].run) && queue[0] !in queue[1..]
      modifies this, store, cron
      ensures Valid() && cron.Valid() && queue == old(queue)[1..]
      ensures started <==> old(queue)[0] in old(store.records) && old(store.records)[old(queue)[0]] == Queued
      ensures store.records == if started then old(store.records)[old(queue)[0] := EndOf(work)] else old(store.records)
      ensures onFinish == old(onFinish) - {old(queue)[0]}
      ensures runningTasks == old(runningTasks) - {old(queue)[0]} && finishing == old(finishing) - {old(queue)[0]}
      ensures old(queue)[0] in old(onFinish) ==>
                var r := old(onFinish)[old(queue)[0]].run;
                && Mirrors(old(queue)[0], r)
                && Leads(old(cron.state), Turn(r, started, work), cron.state)
      ensures old(queue)[0] !in old(onFinish) ==> cron.state == old(cron.state) && cron.closed == old(cron.closed)
    {
      hide Inv, Apply, Enabled, Leads, Task, Turn, SameSessions, Hosts, MovedTo;
      var id := queue[0];
      ghost var tracked := id in onFinish;
      ghost var r := if tracked then onFinish[id].run else 0;
      ghost var s := cron.state;
      queue, runningTasks, finishing := queue[1..], runningTasks + {id}, finishing - {id};
      ghost var taken := if tracked then MovedTo(s, r, Taken) else s;
      if tracked {
        Moves(s, r);
        cron.Follow([Take(r)], taken);
      }
      started := ProcessJob(id, work);
      runningTasks, finishing := runningTasks - {id}, finishing - {id};
      if tracked {
        ghost var closing := cron.state;
        Moves(closing, r);
        cron.Follow([Closed(r)], MovedTo(closing, r, Ended));
        TurnLeads(s, taken, closing, cron.state, r, started, work);
      }
    }

    /** Mark a queued record interrupted, or stop a running job's task, but never one that is in its finish
        callback. */
    method Withdraw(id: JobId) returns (withdrawal: Withdrawal)
      requires Valid()
      modifies this`cancelled, store
      ensures Valid()
      ensures withdrawal == NoRecord <==> id !in old(store.records)
      ensures withdrawal == TakenBack <==> id in old(store.records) && old(store.records)[id] == Queued
      ensures store.records == if withdrawal == TakenBack then old(store.records)[id := Interrupted] else old(store.records)
      ensures withdrawal == TaskStopped <==>
                && id in old(store.records) && old(store.records)[id] in {Running, Cancelling}
                && id in runningTasks && id !in finishing
      ensures cancelled == if withdrawal == TaskStopped then old(cancelled) + [id] else old(cancelled)
    {
      var reply := store.InterruptQueued(id);
      if reply == NotFound {
        return NoRecord;
      }
      assert store.records == if reply == Changed then old(store.records)[id := Interrupted] else old(store.records);
      if reply == Changed {
        return TakenBack;
      }
      if id !in runningTasks || id in finishing || store.records[id] !in {Running, Cancelling} {
        return AlreadyFinished;
      }
      cancelled := cancelled + [id];
      return TaskStopped;
    }

    /** A trigger that failed after its job was queued takes the job back, and its callback with it: the
        trigger releases the run itself. */
    method TakeBack(id: JobId) returns (withdrawal: Withdrawal)
      requires Valid() && id in onFinish && Mirrors(id, onFinish[id].run)
      requires Enabled(cron.state, WithdrawReads(onFinish[id].run))
      modifies this`cancelled, this`onFinish, store, cron`state
      ensures Valid() && onFinish == old(onFinish) - {id}
      ensures withdrawal != NoRecord
      ensures
        var r := old(onFinish)[id].run;
        && Mirrors(id, r)
        && Leads(old(cron.state), TakingBack(r, withdrawal), cron.state)
        && cron.state.runs[r].withdrawn && cron.state.runs[r].trigger.Releasing?
    {
      hide Inv, Apply, Enabled, Leads;
      ghost var r, s := onFinish[id].run, cron.state;
      HasARecord(s, r);
      withdrawal := Withdraw(id);
      onFinish := onFinish - {id};
      TakesBack(s, r, withdrawal);
      cron.Follow(TakingBack(r, withdrawal), TakenBackNow(s, r, withdrawal));
    }
  }

  // ---- What those steps make of the run -------------------------------------------------------------------------

  function OnQueueNow(s: State, r: RunId): State
    requires r < |s.runs|
  {
    Put(s, r, s.runs[r].(trigger := Auditing, worker := OnQueue, callback := true))
  }

  function NotQueued(s: State, r: RunId): State
    requires r < |s.runs|
  {
    Put(s, r, s.runs[r].(trigger := Releasing, status := Some(Failed)))
  }

  lemma Queues(s: State, r: RunId)
    requires Inv(s) && Enabled(s, PutOnQueue(r))
    ensures r < |s.runs| && !s.runs[r].callback && s.runs[r].worker == Absent
    ensures Leads(s, [PutOnQueue(r)], OnQueueNow(s, r))
    ensures Leads(s, [QueueIsFull(r), FailureRecorded(r, true)], NotQueued(s, r))
  {
    assert GoodRun(s.runs[r]);
    LeadsByOne(s, PutOnQueue(r));
    var full := Apply(s, QueueIsFull(r));
    LeadsByOne(s, QueueIsFull(r));
    LeadsByOne(full, FailureRecorded(r, true));
    LeadsOn(s, [QueueIsFull(r)], full, [FailureRecorded(r, true)], NotQueued(s, r));
    assert [QueueIsFull(r)] + [FailureRecorded(r, true)] == [QueueIsFull(r), FailureRecorded(r, true)];
  }

  function MovedTo(s: State, r: RunId, worker: Worker): State
    requires r < |s.runs|
  {
    Put(s, r, s.runs[r].(worker := worker))
  }

  /** Taking a job off the queue, and the end of its task. */
  lemma Moves(s: State, r: RunId)
    requires r < |s.runs|
    ensures forall worker ::
              |MovedTo(s, r, worker).runs| == |s.runs| && MovedTo(s, r, worker).runs[r] == s.runs[r].(worker := worker)
    ensures s.runs[r].worker == OnQueue ==> Leads(s, [Take(r)], MovedTo(s, r, Taken)) && SameSessions(s, MovedTo(s, r, Taken))
    ensures s.runs[r].worker == Closing ==> Leads(s, [Closed(r)], MovedTo(s, r, Ended)) && SameSessions(s, MovedTo(s, r, Ended))
  {
    if s.runs[r].worker == OnQueue {
      LeadsByOne(s, Take(r));
    } else if s.runs[r].worker == Closing {
      LeadsByOne(s, Closed(r));
    }
  }

  lemma TurnLeads(s: State, taken: State, closing: State, ended: State, r: RunId, queued: bool, work: Work)
    requires Leads(s, [Take(r)], taken) && Leads(taken, Task(r, queued, work), closing) && Leads(closing, [Closed(r)], ended)
    ensures Leads(s, Turn(r, queued, work), ended)
  {
    hide Leads, Task;
    LeadsOn(s, [Take(r)], taken, Task(r, queued, work), closing);
    LeadsOn(s, [Take(r)] + Task(r, queued, work), closing, [Closed(r)], ended);
  }

  // A task's steps up to the end of its work.
  function Working(r: RunId, queued: bool, work: Work): seq<Step> {
    [Begin(r)] + if queued then [StartQueued(r), Record(r, EndOf(work))] else []
  }

  function Worked(s: State, r: RunId, queued: bool, work: Work): State
    requires r < |s.runs|
  {
    Put(s, r, s.runs[r].(worker := Begun, status := if queued then Some(EndOf(work)) else s.runs[r].status))
  }

  lemma Works(s: State, r: RunId, queued: bool, work: Work)
    requires r < |s.runs| && s.runs[r].worker == Taken && (queued <==> s.runs[r].status == Some(Queued))
    requires work.Reported? ==> work.ended in {Completed, Failed}
    ensures Leads(s, Working(r, queued, work), Worked(s, r, queued, work))
  {
    hide Leads;
    var begun := MovedTo(s, r, Begun);
    LeadsByOne(s, Begin(r));
    if queued {
      RecordsWork(begun, r, work);
      assert Put(begun, r, begun.runs[r].(status := Some(EndOf(work)))) == Worked(s, r, queued, work);
      LeadsOn(s, [Begin(r)], begun, [StartQueued(r), Record(r, EndOf(work))], Worked(s, r, queued, work));
    } else {
      assert [Begin(r)] + [] == [Begin(r)];
    }
  }

  lemma RecordsWork(s: State, r: RunId, work: Work)
    requires r < |s.runs| && s.runs[r].worker == Begun && s.runs[r].status == Some(Queued)
    requires work.Reported? ==> work.ended in {Completed, Failed}
    ensures Leads(s, [StartQueued(r), Record(r, EndOf(work))], Put(s, r, s.runs[r].(status := Some(EndOf(work)))))
  {
    hide Leads;
    var started := Apply(s, StartQueued(r));
    LeadsByOne(s, StartQueued(r));
    LeadsByOne(started, Record(r, EndOf(work)));
    assert Apply(started, Record(r, EndOf(work))) == Put(s, r, s.runs[r].(status := Some(EndOf(work))));
    LeadsOn(s, [StartQueued(r)], started, [Record(r, EndOf(work))], Put(s, r, s.runs[r].(status := Some(EndOf(work)))));
    assert [StartQueued(r)] + [Record(r, EndOf(work))] == [StartQueued(r), Record(r, EndOf(work))];
  }

  /** A job's task, step by step: leaving it, a job whose callback is registered calls it. */
  lemma TaskLeads(s: State, r: RunId, queued: bool, work: Work)
    requires r < |s.runs| && s.runs[r].worker == Taken && (queued <==> s.runs[r].status == Some(Queued))
    requires work.Reported? ==> work.ended in {Completed, Failed}
    ensures
      var worked := Worked(s, r, queued, work);
      && Leads(s, Working(r, queued, work), worked) && SameSessions(s, worked)
      && worked.runs[r].callback == s.runs[r].callback && worked.runs[r].cron == s.runs[r].cron
      && Enabled(worked, Exit(r))
      && var exited := Apply(worked, Exit(r));
         && Leads(s, Task(r, queued, work), exited)
         && r < |exited.runs|
         && exited.runs[r] == s.runs[r].(worker := Closing, callback := false, closes := exited.runs[r].closes,
                                         status := if queued then Some(EndOf(work)) else s.runs[r].status)
  {
    hide Leads;
    var worked := Worked(s, r, queued, work);
    Works(s, r, queued, work);
    LeadsByOne(worked, Exit(r));
    LeadsOn(s, Working(r, queued, work), worked, [Exit(r)], Apply(worked, Exit(r)));
  }

  lemma HasARecord(s: State, r: RunId)
    requires Enabled(s, WithdrawReads(r))
    ensures r < |s.runs| && s.runs[r].status.Some?
  {
  }

  function TakenBackNow(s: State, r: RunId, withdrawal: Withdrawal): State
    requires r < |s.runs|
  {
    Put(s, r, Withdrawn(s.runs[r].(status := if withdrawal == TakenBack then Some(Interrupted) else s.runs[r].status)))
  }

  /** Reading the record and judging it ends the same whatever is found: the trigger then releases the run. */
  lemma TakesBack(s: State, r: RunId, withdrawal: Withdrawal)
    requires Inv(s) && Enabled(s, WithdrawReads(r)) && withdrawal != NoRecord
    requires withdrawal == TakenBack <==> s.runs[r].status == Some(Queued)
    requires withdrawal == TaskStopped <==>
               UnderWay(s.runs[r].status) && HasTask(s.runs[r].worker) && s.runs[r].worker != Closing
    ensures Leads(s, TakingBack(r, withdrawal), TakenBackNow(s, r, withdrawal))
  {
    hide Leads;
    assert GoodRun(s.runs[r]);
    var read, t := Apply(s, WithdrawReads(r)), TakenBackNow(s, r, withdrawal);
    LeadsByOne(s, WithdrawReads(r));
    if withdrawal == TakenBack {
      LeadsByOne(read, WithdrawEnds(r));
      assert Apply(read, WithdrawEnds(r)) == t;
      LeadsOn(s, [WithdrawReads(r)], read, [WithdrawEnds(r)], t);
      assert [WithdrawReads(r)] + [WithdrawEnds(r)] == TakingBack(r, withdrawal);
    } else {
      JudgesRead(s, r, withdrawal);
    }
  }

  lemma JudgesRead(s: State, r: RunId, withdrawal: Withdrawal)
    requires Inv(s) && Enabled(s, WithdrawReads(r)) && s.runs[r].status != Some(Queued)
    requires withdrawal in {TaskStopped, AlreadyFinished}
    requires withdrawal == TaskStopped <==>
               UnderWay(s.runs[r].status) && HasTask(s.runs[r].worker) && s.runs[r].worker != Closing
    ensures Leads(s, TakingBack(r, withdrawal), TakenBackNow(s, r, withdrawal))
  {
    hide Leads, Apply;
    Judges(s, r);
    var judged := Judged(s, r);
    if withdrawal == TaskStopped {
      StopsWaiting(judged, r);
      assert Put(judged, r, Withdrawn(judged.runs[r])) == TakenBackNow(s, r, withdrawal);
      LeadsOn(s, [WithdrawReads(r), WithdrawJudges(r)], judged, [WithdrawEnds(r)], TakenBackNow(s, r, withdrawal));
      assert [WithdrawReads(r), WithdrawJudges(r)] + [WithdrawEnds(r)] == TakingBack(r, withdrawal);
    }
  }

  function Judged(s: State, r: RunId): State
    requires r < |s.runs|
  {
    var run := s.runs[r];
    Put(s, r, if UnderWay(run.status) && run.worker == Begun then run.(trigger := Stopping) else Withdrawn(run))
  }

  lemma Judges(s: State, r: RunId)
    requires Inv(s) && Enabled(s, WithdrawReads(r)) && s.runs[r].status != Some(Queued)
    ensures Leads(s, [WithdrawReads(r), WithdrawJudges(r)], Judged(s, r))
    ensures UnderWay(s.runs[r].status) ==> s.runs[r].worker != Taken && s.runs[r].worker != OnQueue
  {
    hide Leads;
    assert GoodRun(s.runs[r]);
    var read := Apply(s, WithdrawReads(r));
    LeadsByOne(s, WithdrawReads(r));
    LeadsByOne(read, WithdrawJudges(r));
    assert Apply(read, WithdrawJudges(r)) == Judged(s, r);
    LeadsOn(s, [WithdrawReads(r)], read, [WithdrawJudges(r)], Judged(s, r));
    assert [WithdrawReads(r)] + [WithdrawJudges(r)] == [WithdrawReads(r), WithdrawJudges(r)];
  }

  lemma StopsWaiting(s: State, r: RunId)
    requires r < |s.runs| && s.runs[r].trigger.Stopping?
    ensures Leads(s, [WithdrawEnds(r)], Put(s, r, Withdrawn(s.runs[r])))
  {
    LeadsByOne(s, WithdrawEnds(r));
  }
}
