/** What the records and the holds of a run owe to its steps: who decided a record and until when it may be
    claimed, and what has happened under a hold before its block ends. */
module ApprovalHistory {
  import opened Wrappers
  import opened ApprovalModel
  import opened ApprovalStartup
  import opened ApprovalProtocol
  import opened ApprovalInvariant
  import opened ApprovalTheorems
  import opened ApprovalDecisions
  import opened ApprovalClaims
  import opened ApprovalEndings

  // ---- Where records come from ------------------------------------------------------------------------------

  /** The record is in a store, or is being written. */
  predicate Has(s: State, record: Record) {
    || (record.id in s.disk.file && s.disk.file[record.id] == record)
    || (record.id in s.disk.sqlite && s.disk.sqlite[record.id] == record)
    || (s.run.Up? && s.run.lock.Held? && s.run.lock.record == record)
  }

  /** A step makes a new record only where an operation begins. */
  lemma StepRecords(s: State, step: Step, record: Record)
    requires Inv(s) && Enabled(s, step) && Has(Apply(s, step), record)
    ensures
      || Has(s, record)
      || (step.BeginCreate? && record == NewRecord(step.id, step.request, s.clock))
      || (step.BeginClaim? && record == ClaimedRecord(Shown(s)[step.id], s.clock))
      || (step.BeginDecision?
          && record == DecidedRecord(Shown(s)[step.id], step.verdict, step.decider, step.comment, s.clock, step.ttl))
      || (step.BeginGiveBack?
          && var hold := s.run.holds[step.ref].hold;
             record == GivenBackRecord(Shown(s)[hold.approval], hold.rejection, s.clock)
             && (hold.rejection.Some? || hold.givesBackOnItsOwn))
  {
    hide Inv, Has, NewRecord, ClaimedRecord, DecidedRecord, GivenBackRecord;
    if IsBegin(step) {
      BeginRecords(s, step, record);
    } else if step.Start? || step.StartDies? || step.WriteFile? || step.WriteSqlite? || step.PutFileBack? {
      WriteRecords(s, step, record);
    } else {
      OtherRecords(s, step, record);
    }
  }

  lemma BeginRecords(s: State, step: Step, record: Record)
    requires Inv(s) && Enabled(s, step) && IsBegin(step) && Has(Apply(s, step), record)
    ensures Has(s, record) || (Apply(s, step).run.Up? && Apply(s, step).run.lock.Held? && record == Apply(s, step).run.lock.record)
    ensures step.BeginGiveBack? && !Has(s, record) ==>
              s.run.holds[step.ref].hold.rejection.Some? || s.run.holds[step.ref].hold.givesBackOnItsOwn
  {
    hide Inv;
  }

  lemma WriteRecords(s: State, step: Step, record: Record)
    requires Inv(s) && Enabled(s, step) && Has(Apply(s, step), record)
    requires step.Start? || step.StartDies? || step.WriteFile? || step.WriteSqlite? || step.PutFileBack?
    ensures Has(s, record)
  {
    hide AtMostOnce, EffectsAreSpent, GoodRun, Undoes;
  }

  lemma OtherRecords(s: State, step: Step, record: Record)
    requires Inv(s) && Enabled(s, step) && Has(Apply(s, step), record) && !IsBegin(step)
    requires !(step.Start? || step.StartDies? || step.WriteFile? || step.WriteSqlite? || step.PutFileBack?)
    ensures Has(s, record)
  {
    hide Inv;
    if Within(s, step) && !IsStoreStep(step) {
      OwnerStepSparesStores(s, step);
    }
  }

  // ---- Who decided a record ------------------------------------------------------------------------------------

  /** The step decides the record, at or after the clock and later than the record as it was; an approve says how
      long it may be claimed. */
  predicate Decides(s: State, step: Step, record: Record) {
    && step.BeginDecision? && Enabled(s, step) && step.id == record.id
    && record.comment == step.comment && record.decidedVia == Some(step.decider)
    && record.decidedAt.Some? && s.clock <= record.decidedAt.value && Shown(s)[step.id].updatedAt < record.decidedAt.value
    && match step.verdict
       case Approve => record.status in {Approved, Executed} && record.expiresAt == Some(record.decidedAt.value + step.ttl)
       case Reject => record.status == Rejected && record.expiresAt == None
  }

  /** The step is an operator's reject of the approval's claim. */
  predicate Defers(s: State, step: Step, id: Id, rejection: Rejection) {
    && Enabled(s, step) && step == DecisionOnClaim(id, Reject, rejection.decider, rejection.comment)
    && rejection.decider == Operator
  }

  /** The record has been decided, by that step or by a reject that waited on its claim. */
  predicate DecidedBy(s: State, step: Step, record: Record) {
    || Decides(s, step, record)
    || (&& record.status == Rejected && record.decidedVia == Some(Operator) && record.expiresAt == None
        && Defers(s, step, record.id, Rejection(record.comment, Operator)))
  }

  /** What was asked for is what was asked at its creation, and every decision on it was made. */
  ghost predicate Traced(states: seq<State>, steps: seq<Step>, n: nat, record: Record)
    requires |states| == |steps| + 1 && n < |states|
  {
    && (exists k | 0 <= k < n :: steps[k] == BeginCreate(record.id, record.request))
    && (record.status != Pending ==> exists k | 0 <= k < n :: DecidedBy(states[k], steps[k], record))
  }

  ghost predicate TracedHold(states: seq<State>, steps: seq<Step>, n: nat, hold: Hold)
    requires |states| == |steps| + 1 && n < |states|
  {
    hold.rejection.Some? ==> exists k | 0 <= k < n :: Defers(states[k], steps[k], hold.approval, hold.rejection.value)
  }

  ghost predicate AllTraced(states: seq<State>, steps: seq<Step>, n: nat)
    requires |states| == |steps| + 1 && n < |states|
  {
    && (forall record | Has(states[n], record) :: Traced(states, steps, n, record))
    && (states[n].run.Up? ==> forall r | 0 <= r < |states[n].run.holds| :: TracedHold(states, steps, n, states[n].run.holds[r].hold))
  }

  /** What was traced stays so. */
  lemma StillTraced(states: seq<State>, steps: seq<Step>, n: nat, record: Record)
    requires |states| == |steps| + 1 && n + 1 < |states| && Traced(states, steps, n, record)
    ensures Traced(states, steps, n + 1, record)
  {
    hide DecidedBy;
  }

  lemma StillTracedHold(states: seq<State>, steps: seq<Step>, n: nat, hold: Hold)
    requires |states| == |steps| + 1 && n + 1 < |states| && TracedHold(states, steps, n, hold)
    ensures TracedHold(states, steps, n + 1, hold)
  {
    hide Defers;
  }

  /** A claim spends a record that was approved, and keeps its decision. */
  lemma ClaimedIsTraced(states: seq<State>, steps: seq<Step>, n: nat)
    requires |states| == |steps| + 1 && n < |steps| && AllTraced(states, steps, n) && Inv(states[n])
    requires steps[n].BeginClaim? && Enabled(states[n], steps[n])
    ensures Traced(states, steps, n, ClaimedRecord(Shown(states[n])[steps[n].id], states[n].clock))
  {
    hide Inv, Decides, Defers;
    var before := Shown(states[n])[steps[n].id];
    ShownIsHad(states[n], steps[n].id);
    var k :| 0 <= k < n && DecidedBy(states[k], steps[k], before);
    KeepsDecision(states[k], steps[k], before, ClaimedRecord(before, states[n].clock));
  }

  lemma KeepsDecision(s: State, step: Step, before: Record, after: Record)
    requires DecidedBy(s, step, before) && before.status in {Approved, Executed} && after.status in {Approved, Executed}
    requires after == before.(status := after.status, updatedAt := after.updatedAt, executedAt := after.executedAt)
    ensures DecidedBy(s, step, after)
  {
  }

  lemma ShownIsHad(s: State, id: Id)
    requires Inv(s) && s.run.Up? && id in Shown(s)
    ensures Has(s, Shown(s)[id]) && Shown(s)[id].id == id
  {
    hide AtMostOnce, EffectsAreSpent, GoodRun;
  }

  /** A give-back either keeps the approve of the record it turns back, or carries the reject that waited. */
  lemma GivenBackIsTraced(states: seq<State>, steps: seq<Step>, n: nat)
    requires |states| == |steps| + 1 && n < |steps| && AllTraced(states, steps, n) && Inv(states[n])
    requires steps[n].BeginGiveBack? && Enabled(states[n], steps[n])
    ensures
      var hold := states[n].run.holds[steps[n].ref].hold;
      Traced(states, steps, n, GivenBackRecord(Shown(states[n])[hold.approval], hold.rejection, states[n].clock))
  {
    hide AtMostOnce, EffectsAreSpent, GoodRecords, GoodContexts, GoodLock, Decides, Defers, Undoes;
    var s, r := states[n], steps[n].ref;
    var hold := s.run.holds[r].hold;
    assert IsOpen(s.run.holds[r]) && !BeingGivenBack(s.run.lock, r);
    var before := Shown(s)[hold.approval];
    ShownIsHad(s, hold.approval);
    var after := GivenBackRecord(before, hold.rejection, s.clock);
    if hold.rejection.None? {
      var k :| 0 <= k < n && DecidedBy(states[k], steps[k], before);
      KeepsDecision(states[k], steps[k], before, after);
    } else {
      assert TracedHold(states, steps, n, hold);
      var k :| 0 <= k < n && Defers(states[k], steps[k], hold.approval, hold.rejection.value);
      DeferredIsOperators(states[k], steps[k], hold.approval, hold.rejection.value);
      assert DecidedBy(states[k], steps[k], after);
    }
  }

  lemma DeferredIsOperators(s: State, step: Step, id: Id, rejection: Rejection)
    requires Defers(s, step, id, rejection)
    ensures rejection == Rejection(rejection.comment, Operator)
  {
  }

  lemma DecisionIsTraced(states: seq<State>, steps: seq<Step>, n: nat)
    requires |states| == |steps| + 1 && n < |steps| && AllTraced(states, steps, n) && Inv(states[n])
    requires steps[n].BeginDecision? && Enabled(states[n], steps[n])
    ensures
      var step := steps[n];
      Traced(states, steps, n + 1,
             DecidedRecord(Shown(states[n])[step.id], step.verdict, step.decider, step.comment, states[n].clock, step.ttl))
  {
    hide Inv, MayDecide, Defers;
    var step := steps[n];
    var before := Shown(states[n])[step.id];
    ShownIsHad(states[n], step.id);
    assert Traced(states, steps, n, before);
    var after := DecidedRecord(before, step.verdict, step.decider, step.comment, states[n].clock, step.ttl);
    assert Decides(states[n], step, after);
    assert DecidedBy(states[n], steps[n], after);
  }

  lemma RecordStepIsTraced(states: seq<State>, steps: seq<Step>, n: nat, record: Record)
    requires |states| == |steps| + 1 && n < |steps| && AllTraced(states, steps, n) && Inv(states[n])
    requires StepsTo(states[n], steps[n], states[n + 1]) && Has(states[n + 1], record)
    ensures Traced(states, steps, n + 1, record)
  {
    hide Inv, Apply, Enabled, Traced, Has, TracedHold, DecidedRecord, ClaimedRecord, GivenBackRecord;
    StepRecords(states[n], steps[n], record);
    if Has(states[n], record) {
      StillTraced(states, steps, n, record);
    } else if steps[n].BeginCreate? {
      CreatedIsTraced(states, steps, n, record);
    } else if steps[n].BeginClaim? {
      ClaimedIsTraced(states, steps, n);
      StillTraced(states, steps, n, record);
    } else if steps[n].BeginDecision? {
      DecisionIsTraced(states, steps, n);
    } else {
      GivenBackIsTraced(states, steps, n);
      StillTraced(states, steps, n, record);
    }
  }

  lemma CreatedIsTraced(states: seq<State>, steps: seq<Step>, n: nat, record: Record)
    requires |states| == |steps| + 1 && n < |steps| && steps[n].BeginCreate?
    requires record == NewRecord(steps[n].id, steps[n].request, states[n].clock)
    ensures Traced(states, steps, n + 1, record)
  {
    assert steps[n] == BeginCreate(record.id, record.request);
  }

  /** Only an operator's reject of the claim puts a rejection there. */
  lemma StepHolds(s: State, step: Step, r: Ref)
    requires Inv(s) && Enabled(s, step) && ValidRef(Apply(s, step).run, r)
    ensures
      var hold := Apply(s, step).run.holds[r].hold;
      hold.rejection.Some? ==>
        || (ValidRef(s.run, r) && s.run.holds[r].hold.rejection == hold.rejection && s.run.holds[r].hold.approval == hold.approval)
        || Defers(s, step, hold.approval, hold.rejection.value)
  {
    hide Inv, Apply, Enabled;
    if Within(s, step) && ValidRef(s.run, r) {
      StepFollows(s, step, r);
      if DecidesOn(s, step, r) {
        DecisionDefers(s, step, r);
      } else {
        StepKeepsRejection(s, step, r);
      }
    } else {
      NewHoldsWaitForNothing(s, step, r);
    }
  }

  lemma NewHoldsWaitForNothing(s: State, step: Step, r: Ref)
    requires Enabled(s, step) && !(Within(s, step) && ValidRef(s.run, r)) && ValidRef(Apply(s, step).run, r)
    ensures step.FinishWrite? && s.run.Up? && s.run.lock.Held? && s.run.lock.op.Claim? && r == |s.run.holds|
    ensures
      Apply(s, step).run.holds[r]
      == Claimed(NewHold(s.run.lock.record.id, s.run.lock.record.request.origin, s.run.lock.op.mayGiveBack, step.cancelled),
                 s.run.lock.op.task, Running)
  {
    hide Undoes;
  }

  lemma DecisionDefers(s: State, step: Step, r: Ref)
    requires Inv(s) && Within(s, step) && ValidRef(s.run, r) && DecidesOn(s, step, r)
    ensures
      var t := Apply(s, step);
      && ValidRef(t.run, r) && s.run.holds[r].hold.approval == t.run.holds[r].hold.approval == step.id
      && (t.run.holds[r].hold.rejection.Some? ==>
            || t.run.holds[r].hold.rejection == s.run.holds[r].hold.rejection
            || Defers(s, step, step.id, t.run.holds[r].hold.rejection.value))
  {
    hide AtMostOnce, EffectsAreSpent, GoodRecords, GoodContexts, GoodLock, OpenBlocksAreSpent, Undoes;
  }

  lemma {:induction false} RunIsTraced(states: seq<State>, steps: seq<Step>, n: nat)
    requires IsRun(states, steps) && ClaimsOutlast(states, steps) && Initial(states[0])
    requires n < |states|
    ensures AllTraced(states, steps, n)
  {
    hide Apply, Enabled, Inv, Has, Traced, TracedHold, ClaimsOutlast;
    if n == 0 {
      NothingToTrace(states, steps);
    } else {
      RunIsTraced(states, steps, n - 1);
      RunKeepsInv(states, steps, n - 1);
      assert StepsTo(states[n - 1], steps[n - 1], states[n]);
      forall record | Has(states[n], record) ensures Traced(states, steps, n, record) {
        RecordStepIsTraced(states, steps, n - 1, record);
      }
      if states[n].run.Up? {
        forall r | 0 <= r < |states[n].run.holds| ensures TracedHold(states, steps, n, states[n].run.holds[r].hold) {
          HoldStepIsTraced(states, steps, n - 1, r);
        }
      }
    }
  }

  lemma HoldStepIsTraced(states: seq<State>, steps: seq<Step>, n: nat, r: Ref)
    requires |states| == |steps| + 1 && n < |steps| && AllTraced(states, steps, n) && Inv(states[n])
    requires StepsTo(states[n], steps[n], states[n + 1]) && ValidRef(states[n + 1].run, r)
    ensures TracedHold(states, steps, n + 1, states[n + 1].run.holds[r].hold)
  {
    hide Inv, Apply, Enabled, Has, Defers;
    StepHolds(states[n], steps[n], r);
    if ValidRef(states[n].run, r) {
      assert TracedHold(states, steps, n, states[n].run.holds[r].hold);
    }
  }

  lemma NothingToTrace(states: seq<State>, steps: seq<Step>)
    requires |states| == |steps| + 1 && Initial(states[0])
    ensures AllTraced(states, steps, 0)
  {
  }

  // ---- Until when an approval may be claimed --------------------------------------------------------------------

  /** An approved record was approved by a step of the run, and may be claimed exactly until that decision is as old
      as the step allowed, by a task that does not hold it: a give-back does not make it last longer. */
  lemma ApprovalExpires(states: seq<State>, steps: seq<Step>, n: nat, id: Id, task: TaskId, mayGiveBack: bool)
    requires IsRun(states, steps) && ClaimsOutlast(states, steps) && Initial(states[0])
    requires n < |states| && states[n].run.Up? && states[n].run.lock.Free? && !ActiveIn(states[n].run, task, id)
    requires id in Shown(states[n]) && Shown(states[n])[id].status == Approved
    ensures
      var record := Shown(states[n])[id];
      exists k | 0 <= k < n && Decides(states[k], steps[k], record) ::
        && steps[k].verdict == Approve
        && (Enabled(states[n], BeginClaim(task, id, mayGiveBack)) <==> states[n].clock < record.decidedAt.value + steps[k].ttl)
  {
    hide Inv, ClaimsOutlast, Initial, Decides, Defers;
    RunKeepsInv(states, steps, n);
    RunIsTraced(states, steps, n);
    var record := Shown(states[n])[id];
    ShownIsHad(states[n], id);
    var k :| 0 <= k < n && DecidedBy(states[k], steps[k], record);
    ApprovedSays(states[k], steps[k], record);
  }

  lemma ApprovedSays(s: State, step: Step, record: Record)
    requires DecidedBy(s, step, record) && record.status in {Approved, Executed}
    ensures Decides(s, step, record) && step.verdict == Approve
    ensures record.decidedAt.Some? && record.expiresAt == Some(record.decidedAt.value + step.ttl)
  {
  }

  /** An approve that is what a store shows unchanged says until when itself: stamped at the clock, or just past the
      record where the clock has not moved past it. */
  lemma ApproveIsStamped(s: State, step: Step)
    requires Enabled(s, step) && step.BeginDecision? && step.verdict == Approve
    ensures
      var record, before := Apply(s, step).run.lock.record, Shown(s)[step.id];
      && record.decidedAt.Some? && record.expiresAt == Some(record.decidedAt.value + step.ttl)
      && (if before.updatedAt < s.clock then record.decidedAt == Some(s.clock)
          else record.decidedAt == Some(before.updatedAt + 1))
  {
    hide MayDecide;
  }

  // ---- What has happened under a hold ---------------------------------------------------------------------------

  /** A task that carries the hold, active and with no effect, is refused before its action. */
  predicate RefusesUnder(s: State, step: Step, r: Ref) {
    && step.RefusedBefore? && Enabled(s, step) && ValidRef(s.run, r) && r in ContextOf(s.run, step.task).Values
    && s.run.holds[r].hold.active && !s.run.holds[r].hold.effect
  }

  /** The last refusal under the hold in steps i up to j. */
  function LastRefusal(states: seq<State>, steps: seq<Step>, i: nat, j: nat, r: Ref): Option<Exn>
    requires i <= j < |states| && |states| == |steps| + 1
  {
    if i == j then None
    else if RefusesUnder(states[j - 1], steps[j - 1], r) then Some(steps[j - 1].exn)
    else LastRefusal(states, steps, i, j - 1, r)
  }

  ghost predicate ActsUnder(states: seq<State>, steps: seq<Step>, i: nat, j: nat, r: Ref)
    requires i <= j < |states| && |states| == |steps| + 1
  {
    exists k | i <= k < j :: StartsWith(states[k], steps[k], r)
  }

  /** An action is refused for the rejection that waits on the hold, still active. */
  predicate StopsUnder(s: State, step: Step, r: Ref) {
    && step.EffectRefused? && Enabled(s, step) && ValidRef(s.run, r)
    && ContextOf(s.run, step.task)[step.refuser] == r && s.run.holds[r].hold.active && s.run.holds[r].hold.rejection.Some?
  }

  ghost predicate StoppedUnder(states: seq<State>, steps: seq<Step>, i: nat, j: nat, r: Ref)
    requires i <= j < |states| && |states| == |steps| + 1
  {
    exists k | i <= k < j :: StopsUnder(states[k], steps[k], r)
  }

  /** What the step changes of the hold's refusal, effect and stop. */
  predicate TellsStep(s: State, step: Step, r: Ref, a: Hold, b: Hold) {
    && b.refusal == (if RefusesUnder(s, step, r) then Some(step.exn) else a.refusal)
    && (b.effect <==> a.effect || StartsWith(s, step, r))
    && (b.stopped <==> a.stopped || StopsUnder(s, step, r))
  }

  lemma StepUnderHold(s: State, step: Step, r: Ref)
    requires Within(s, step) && ValidRef(s.run, r)
    ensures ValidRef(Apply(s, step).run, r) && TellsStep(s, step, r, s.run.holds[r].hold, Apply(s, step).run.holds[r].hold)
  {
    hide Apply;
    if IsStoreStep(step) {
      StoreStepFollows(s, step, r);
    } else if step.RefusedBefore? || step.EffectStarted? {
      CarriedStepUnderHold(s, step, r);
    } else if step.EndBlock? || step.ReleaseHold? {
      EndStepUnderHold(s, step, r);
    } else {
      OwnerStepUnderHold(s, step, r);
    }
  }

  lemma EndStepUnderHold(s: State, step: Step, r: Ref)
    requires Within(s, step) && ValidRef(s.run, r) && (step.EndBlock? || step.ReleaseHold?)
    ensures ValidRef(Apply(s, step).run, r) && TellsStep(s, step, r, s.run.holds[r].hold, Apply(s, step).run.holds[r].hold)
  {
    hide EndOf, Release;
    if step.EndBlock? {
      EndSparesWhatHappened(s.run, step.ref, step.ended, r);
    } else {
      ReleaseSparesWhatHappened(s.run, step.ref, r);
    }
  }

  /** The refusal, the effect and the stop of a hold are the same. */
  predicate SameSoFar(a: Hold, b: Hold) {
    b.refusal == a.refusal && b.effect == a.effect && b.stopped == a.stopped
  }

  lemma ReleaseSparesWhatHappened(run: Run, ref: Ref, r: Ref)
    requires ValidRef(run, ref) && ValidRef(run, r)
    ensures ValidRef(Release(run, ref), r) && SameSoFar(run.holds[r].hold, Release(run, ref).holds[r].hold)
  {
  }

  lemma EndSparesWhatHappened(run: Run, ref: Ref, ended: Ending, r: Ref)
    requires ValidRef(run, ref) && ValidRef(run, r)
    ensures ValidRef(EndOf(run, ref, ended), r) && SameSoFar(run.holds[r].hold, EndOf(run, ref, ended).holds[r].hold)
  {
    hide Release, GivesBack, GivesBackOnItsOwn;
    ReleaseSparesWhatHappened(run, ref, r);
  }

  lemma CarriedStepUnderHold(s: State, step: Step, r: Ref)
    requires Within(s, step) && ValidRef(s.run, r) && (step.RefusedBefore? || step.EffectStarted?)
    ensures ValidRef(Apply(s, step).run, r) && TellsStep(s, step, r, s.run.holds[r].hold, Apply(s, step).run.holds[r].hold)
  {
  }

  lemma OwnerStepUnderHold(s: State, step: Step, r: Ref)
    requires Within(s, step) && ValidRef(s.run, r) && (step.Spawn? || step.DecisionOnClaim? || step.EffectRefused?)
    ensures ValidRef(Apply(s, step).run, r) && TellsStep(s, step, r, s.run.holds[r].hold, Apply(s, step).run.holds[r].hold)
  {
  }

  /** From its claim on, a hold's fields are what has happened under it. */
  lemma {:induction false} HoldTellsItsRun(states: seq<State>, steps: seq<Step>, i: nat, j: nat, r: Ref)
    requires IsRun(states, steps) && i <= j < |states| && OneProcess(states, steps, i, j) && ValidRef(states[i].run, r)
    requires
      var hold := states[i].run.holds[r].hold;
      hold.refusal.None? && !hold.effect && !hold.stopped
    ensures ValidRef(states[j].run, r)
    ensures
      var a, b := states[i].run.holds[r].hold, states[j].run.holds[r].hold;
      && b.refusal == LastRefusal(states, steps, i, j, r)
      && (b.effect <==> ActsUnder(states, steps, i, j, r))
      && (b.stopped <==> StoppedUnder(states, steps, i, j, r))
      && b.mayGiveBack == a.mayGiveBack && b.approval == a.approval
  {
    hide Apply, Enabled, RefusesUnder, StartsWith, StopsUnder;
    if i == j {
    } else {
      HoldTellsItsRun(states, steps, i, j - 1, r);
      assert Within(states[j - 1], steps[j - 1]) && StepsTo(states[j - 1], steps[j - 1], states[j]);
      StepUnderHold(states[j - 1], steps[j - 1], r);
      StepFollows(states[j - 1], steps[j - 1], r);
    }
  }

  // ---- How a claim ends ------------------------------------------------------------------------------------------

  /** The step makes hold r: a claim whose write has landed. */
  predicate MakesHold(s: State, step: Step, r: Ref) {
    && Within(s, step) && step.FinishWrite? && s.run.lock.op.Claim? && s.run.lock.phase == Landed && r == |s.run.holds|
  }

  lemma MadeHold(s: State, step: Step, r: Ref)
    requires MakesHold(s, step, r)
    ensures
      var t := Apply(s, step);
      && ValidRef(t.run, r) && t.run.holds[r].block.Running?
      && t.run.holds[r].hold
         == NewHold(s.run.lock.record.id, s.run.lock.record.request.origin, s.run.lock.op.mayGiveBack, step.cancelled)
  {
  }

  /** From then on the claim is that hold, its task carries it, and what else a task carries is as it was. */
  lemma ClaimIsCarried(s: State, step: Step, r: Ref, task: TaskId)
    requires MakesHold(s, step, r)
    ensures
      var t, id, owner := Apply(s, step), s.run.lock.record.id, s.run.lock.op.task;
      && t.run.Up? && id in t.run.claims && t.run.claims[id] == r
      && id in ContextOf(t.run, owner) && ContextOf(t.run, owner)[id] == r
      && (forall other | other in ContextOf(s.run, task) && !(task == owner && other == id) ::
            other in ContextOf(t.run, task) && ContextOf(t.run, task)[other] == ContextOf(s.run, task)[other])
  {
  }

  /** A task acts under exactly the approvals that the task it was made by would act under then. */
  lemma ChildActsUnderTheSame(s: State, parent: TaskId, child: TaskId, id: Id)
    requires s.run.Up? && Enabled(s, Spawn(parent, child))
    ensures
      StartsUnder(Apply(s, Spawn(parent, child)), EffectStarted(child), id) <==> StartsUnder(s, EffectStarted(parent), id)
  {
  }

  /** A killed block gives nothing back, whatever waits on its hold: it is released, and the stores stay as they are. */
  lemma KilledBlockGivesNothingBack(s: State, r: Ref)
    requires Enabled(s, EndBlock(r, Killed))
    ensures
      var t := Apply(s, EndBlock(r, Killed));
      && ValidRef(t.run, r) && t.run.holds[r].block.Released? && !t.run.holds[r].hold.active
      && t.disk == s.disk && t.run.primary == s.run.primary && t.run.lock == s.run.lock
  {
  }

  /** A block that is released leaves no claim, and nothing its task carries. */
  lemma ReleasedLeavesNothing(s: State, step: Step, r: Ref)
    requires Within(s, step) && ValidRef(s.run, r) && !s.run.holds[r].block.Released?
    requires ValidRef(Apply(s, step).run, r) && Apply(s, step).run.holds[r].block.Released?
    ensures
      var t, c := Apply(s, step), s.run.holds[r];
      && !t.run.holds[r].hold.active
      && (c.hold.approval in t.run.claims ==> t.run.claims[c.hold.approval] != r)
      && (c.hold.approval in ContextOf(t.run, c.owner) ==> ContextOf(t.run, c.owner)[c.hold.approval] != r)
  {
    hide GivesBack, GivesBackOnItsOwn, Release;
    ReleasedByWhat(s, step, r);
    ReleaseLeavesNothing(s.run, r);
  }

  lemma ReleasedByWhat(s: State, step: Step, r: Ref)
    requires Within(s, step) && ValidRef(s.run, r) && !s.run.holds[r].block.Released?
    requires ValidRef(Apply(s, step).run, r) && Apply(s, step).run.holds[r].block.Released?
    ensures Apply(s, step).run == Release(s.run, r)
  {
    if IsStoreStep(step) {
      StoreStepFollows(s, step, r);
    }
  }

  lemma ReleaseLeavesNothing(run: Run, r: Ref)
    requires ValidRef(run, r)
    ensures
      var after, c := Release(run, r), run.holds[r];
      && ValidRef(after, r) && !after.holds[r].hold.active
      && (c.hold.approval in after.claims ==> after.claims[c.hold.approval] != r)
      && (c.hold.approval in ContextOf(after, c.owner) ==> ContextOf(after, c.owner)[c.hold.approval] != r)
  {
  }

  /** Whether an ending gives the approval back with no rejection waiting: a cancellation does, and so does the
      exception of the last refusal before any action; a return, another exception or a kill does not. */
  ghost predicate ReturnsTheApproval(states: seq<State>, steps: seq<Step>, c: nat, e: nat, r: Ref, ended: Ending)
    requires c < e < |states| && |states| == |steps| + 1
  {
    && states[c].run.Up? && states[c].run.lock.Held? && states[c].run.lock.op.Claim? && states[c].run.lock.op.mayGiveBack
    && !ActsUnder(states, steps, c + 1, e, r)
    && match ended
       case Returned => false
       case Raised(exn) => LastRefusal(states, steps, c + 1, e, r) == Some(exn)
       case Cancelled => true
       case Killed => false
  }

  lemma WithinBefore(states: seq<State>, steps: seq<Step>, c: nat, e: nat, f: nat)
    requires |states| == |steps| + 1 && c < e <= f && Throughout(states, steps, c, f)
    ensures Within(states[c], steps[c]) && OneProcess(states, steps, c + 1, e)
    ensures Throughout(states, steps, e, f)
  {
    FromLater(states, steps, c, c + 1, f);
    FromLater(states, steps, c, e, f);
  }

  /** From the claim at c to the end of its block at e and the store's answer at f: with no rejection waiting at the
      end and no failed write, the record is approved again exactly if nothing was done under the claim, it may be
      given back, and the block was cancelled or ended with its last refusal; otherwise it stays executed. */
  lemma ClaimEndsAsItWent(states: seq<State>, steps: seq<Step>, c: nat, e: nat, f: nat, r: Ref)
    requires IsRun(states, steps) && ClaimsOutlast(states, steps) && Initial(states[0])
    requires c < e <= f && Throughout(states, steps, c, f) && MakesHold(states[c], steps[c], r)
    requires steps[e].EndBlock? && steps[e].ref == r && Answers(states[f], steps[f], r) && !WriteFailed(states[f], r)
    requires states[f].run.holds[r].hold.rejection.None?
    ensures
      ShowsEnding(states[f + 1], states[c].run.lock.record.id, ReturnsTheApproval(states, steps, c, e, r, steps[e].ended))
  {
    hide Apply, Enabled, Answers, WriteFailed, Initial, ClaimsOutlast, MakesHold, ActsUnder, LastRefusal, StoppedUnder;
    WithinBefore(states, steps, c, e, f);
    assert StepsTo(states[c], steps[c], states[c + 1]);
    MadeHold(states[c], steps[c], r);
    ClaimLocks(states[c], steps[c], r);
    HoldTellsItsRun(states, steps, c + 1, e, r);
    ClosedAsEnded(states, steps, e, f, r);
    HoldKeepsApproval(states, steps, c + 1, f, r);
    FromLater(states, steps, c, c + 1, f);
  }

  lemma ClaimLocks(s: State, step: Step, r: Ref)
    requires MakesHold(s, step, r)
    ensures s.run.Up? && s.run.lock.Held? && s.run.lock.op.Claim?
  {
  }

  lemma {:induction false} HoldKeepsApproval(states: seq<State>, steps: seq<Step>, i: nat, j: nat, r: Ref)
    requires IsRun(states, steps) && i <= j < |states| && OneProcess(states, steps, i, j) && ValidRef(states[i].run, r)
    ensures ValidRef(states[j].run, r) && states[j].run.holds[r].hold.approval == states[i].run.holds[r].hold.approval
  {
    hide Apply, Enabled;
    if i == j {
    } else {
      HoldKeepsApproval(states, steps, i, j - 1, r);
      assert Within(states[j - 1], steps[j - 1]) && StepsTo(states[j - 1], steps[j - 1], states[j]);
      StepFollows(states[j - 1], steps[j - 1], r);
    }
  }

  /** Told that their approve withdraws a rejection from a block that is still running, an operator learns whether
      the action has been refused by then, before anything was done or for the rejection itself. */
  lemma ReplyTellsWhetherRefused(states: seq<State>, steps: seq<Step>, c: nat, w: nat, r: Ref)
    requires IsRun(states, steps) && ClaimsOutlast(states, steps) && Initial(states[0])
    requires c < w && Throughout(states, steps, c, w) && MakesHold(states[c], steps[c], r)
    requires Waits(states[w], r) && states[w].run.holds[r].block.Running? && IsWithdrawal(states[w], steps[w], r)
    ensures
      var reply := DecideOnClaim(states[w].run.holds[r].hold, Approve, Operator, steps[w].comment).1;
      && reply in {Withdrawn, WithdrawnAfterRefusal}
      && (reply == WithdrawnAfterRefusal <==>
            LastRefusal(states, steps, c + 1, w, r).Some? || StoppedUnder(states, steps, c + 1, w, r))
  {
    hide Apply, Enabled, Initial, ClaimsOutlast, MakesHold, ActsUnder, LastRefusal, StoppedUnder;
    WithinBefore(states, steps, c, w, w);
    assert StepsTo(states[c], steps[c], states[c + 1]);
    MadeHold(states[c], steps[c], r);
    RunKeepsInv(states, steps, w);
    assert GoodHold(states[w].log, states[w].run.holds[r]);
    HoldTellsItsRun(states, steps, c + 1, w, r);
  }
}
