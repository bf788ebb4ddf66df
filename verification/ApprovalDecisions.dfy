/** What the approval protocol promises about decisions: an operator's reject on a claim, its
    withdrawal, and what an agent may decide. */
module ApprovalDecisions {
  import opened Wrappers
  import opened ApprovalModel
  import opened ApprovalStartup
  import opened ApprovalProtocol
  import opened ApprovalInvariant
  import opened ApprovalTheorems

  // ---- What is being written is what was decided -----------------------------------------------------

  /** The record a give-back writes applies exactly what waits on its hold. */
  predicate CarriesOut(record: Record, hold: Hold) {
    match hold.rejection
    case None => record.status == Approved && hold.givesBackOnItsOwn
    case Some(r) =>
      record.status == Rejected && record.comment == r.comment && record.decidedVia == Some(r.decider)
  }

  /** A decision being written changes a record that is not spent, and keeps to what its decider may do. */
  predicate AllowedDecision(records: map<Id, Record>, record: Record) {
    && record.id in records
    && record.request == records[record.id].request
    && records[record.id].status != Executed
    && (record.decidedVia == Some(Agent) ==>
          && records[record.id].status == Pending
          && (record.status == Approved ==> !OperatorRejected(records, record.request)))
  }

  predicate Promise(s: State) {
    s.run.Up? && s.run.lock.Held? ==>
      var lock := s.run.lock;
      if lock.phase == Landed then lock.record.id in Shown(s) && Shown(s)[lock.record.id] == lock.record
      else
        match lock.op
        case Create => lock.record.status == Pending && lock.record.id !in Shown(s)
        case Claim(_, _) => lock.record.status == Executed
        case Decision => AllowedDecision(Shown(s), lock.record)
        case GiveBack(_) => lock.record.id in Shown(s) && Shown(s)[lock.record.id].status == Executed
  }

  predicate GivesBackAsAsked(s: State) {
    s.run.Up? && s.run.lock.Held? && s.run.lock.op.GiveBack? ==>
      ValidRef(s.run, s.run.lock.op.ref) && CarriesOut(s.run.lock.record, s.run.holds[s.run.lock.op.ref].hold)
  }

  predicate Good(s: State) {
    Inv(s) && Promise(s) && GivesBackAsAsked(s)
  }

  lemma BeginKeepsPromise(s: State, step: Step)
    requires Good(s) && Within(s, step) && (step.BeginCreate? || step.BeginClaim? || step.BeginDecision?)
    ensures Promise(Apply(s, step)) && GivesBackAsAsked(Apply(s, step))
  {
    match step
    case BeginCreate(id, _) => assert id in Shown(s) ==> GoodRecord(s.log, id, Shown(s)[id]);
    case BeginClaim(_, id, _) =>
    case BeginDecision(id, _, _, _, _, _) => assert GoodRecord(s.log, id, Shown(s)[id]);
  }

  lemma GiveBackKeepsPromise(s: State, step: Step)
    requires Good(s) && Within(s, step) && step.BeginGiveBack?
    ensures Promise(Apply(s, step)) && GivesBackAsAsked(Apply(s, step))
  {
    var id := s.run.holds[step.ref].hold.approval;
    assert GoodRecord(s.log, id, Shown(s)[id]);
    assert !BeingGivenBack(s.run.lock, step.ref);
  }

  lemma EndKeepsPromise(s: State, step: Step)
    requires Good(s) && Within(s, step)
    requires step.Tick? || step.FinishWrite?
    ensures Promise(Apply(s, step)) && GivesBackAsAsked(Apply(s, step))
  {
    hide Inv;
  }

  lemma FileWriteKeepsPromise(s: State, ok: bool)
    requires Good(s) && Within(s, WriteFile(ok))
    ensures Promise(Apply(s, WriteFile(ok))) && GivesBackAsAsked(Apply(s, WriteFile(ok)))
  {
    hide Inv, CarriesOut, AllowedDecision;
  }

  lemma SqliteWriteKeepsPromise(s: State, ok: bool)
    requires Good(s) && Within(s, WriteSqlite(ok))
    ensures Promise(Apply(s, WriteSqlite(ok))) && GivesBackAsAsked(Apply(s, WriteSqlite(ok)))
  {
    hide EffectsAreSpent, AtMostOnce, GoodRecords, GoodHolds, GoodClaims, GoodContexts, OpenBlocksAreSpent, CarriesOut;
  }

  lemma PutBackKeepsPromise(s: State, ok: bool)
    requires Good(s) && Within(s, PutFileBack(ok))
    ensures Promise(Apply(s, PutFileBack(ok))) && GivesBackAsAsked(Apply(s, PutFileBack(ok)))
  {
    hide EffectsAreSpent, AtMostOnce, GoodRecords, GoodHolds, GoodClaims, GoodContexts, OpenBlocksAreSpent, CarriesOut;
  }

  lemma StoreStepKeepsPromise(s: State, step: Step)
    requires Good(s) && Within(s, step) && IsStoreStep(step)
    ensures Promise(Apply(s, step)) && GivesBackAsAsked(Apply(s, step))
  {
    hide Good, Promise, GivesBackAsAsked, Apply, Enabled;
    if step.BeginCreate? || step.BeginClaim? || step.BeginDecision? {
      BeginKeepsPromise(s, step);
    } else if step.BeginGiveBack? {
      GiveBackKeepsPromise(s, step);
    } else if step.Tick? || step.FinishWrite? {
      EndKeepsPromise(s, step);
    } else {
      match step
      case WriteFile(ok) => FileWriteKeepsPromise(s, ok);
      case WriteSqlite(ok) => SqliteWriteKeepsPromise(s, ok);
      case PutFileBack(ok) => PutBackKeepsPromise(s, ok);
    }
  }

  /** The steps of holds and blocks touch neither store, nor the lock. */
  lemma OwnerStepSparesStores(s: State, step: Step)
    requires Within(s, step) && !IsStoreStep(step)
    ensures
      var t := Apply(s, step);
      t.disk == s.disk && t.clock == s.clock && t.run.Up? && t.run.primary == s.run.primary && t.run.lock == s.run.lock
  {
  }

  /** While a give-back is being written, what waits on its hold stays as it is. */
  lemma OwnerStepSparesGivenBack(s: State, step: Step, r: Ref)
    requires Inv(s) && Within(s, step) && !IsStoreStep(step) && ValidRef(s.run, r)
    requires s.run.lock.Held? && s.run.holds[r].block.GivingBack?
    ensures
      var t := Apply(s, step);
      && ValidRef(t.run, r)
      && t.run.holds[r].hold.rejection == s.run.holds[r].hold.rejection
      && t.run.holds[r].hold.givesBackOnItsOwn == s.run.holds[r].hold.givesBackOnItsOwn
  {
    hide Undoes, GoodRecords, AtMostOnce, EffectsAreSpent, GoodClaims, GoodContexts, OpenBlocksAreSpent, GoodLock;
    assert GoodHold(s.log, s.run.holds[r]);
    match step
    case Spawn(_, _) =>
    case EffectRefused(_, _) =>
    case RefusedBefore(_, _) =>
    case EffectStarted(task) =>
    case EndBlock(_, _) =>
    case ReleaseHold(_) =>
  }

  lemma OwnerStepKeepsPromise(s: State, step: Step)
    requires Good(s) && Within(s, step) && !IsStoreStep(step)
    ensures Promise(Apply(s, step)) && GivesBackAsAsked(Apply(s, step))
  {
    hide Apply, Enabled;
    OwnerStepSparesStores(s, step);
    if s.run.lock.Held? && s.run.lock.op.GiveBack? {
      OwnerStepSparesGivenBack(s, step, s.run.lock.op.ref);
    }
  }

  lemma StepKeepsGood(s: State, step: Step)
    requires Good(s) && Enabled(s, step) && ClaimOutlasts(s, step)
    ensures Good(Apply(s, step))
  {
    StepKeepsInv(s, step);
    if Within(s, step) {
      if IsStoreStep(step) {
        StoreStepKeepsPromise(s, step);
      } else {
        OwnerStepKeepsPromise(s, step);
      }
    }
  }

  lemma {:induction false} RunKeepsGood(states: seq<State>, steps: seq<Step>, n: nat)
    requires IsRun(states, steps) && ClaimsOutlast(states, steps) && Initial(states[0])
    requires n < |states|
    ensures Good(states[n])
  {
    if n == 0 {
      StartsGood(states[0]);
    } else {
      RunKeepsGood(states, steps, n - 1);
      assert StepsTo(states[n - 1], steps[n - 1], states[n]);
      assert ClaimOutlasts(states[n - 1], steps[n - 1]);
      StepKeepsGood(states[n - 1], steps[n - 1]);
    }
  }

  // ---- What an agent may decide --------------------------------------------------------------------------

  /** A record that was not spent has become one an agent decided. */
  predicate AgentDecided(s: State, t: State, id: Id) {
    && s.run.Up? && id in Shown(s) && Shown(s)[id].status != Executed
    && t.run.Up? && id in Shown(t) && Shown(t)[id] != Shown(s)[id]
    && Shown(t)[id].status in {Approved, Rejected} && Shown(t)[id].decidedVia == Some(Agent)
  }

  /** What an agent may make of a record: it was pending, and is approved only where nobody but an agent has
      rejected a record of the same scope, kind and fields, and in controller scope the same requester. */
  predicate AgentMay(records: map<Id, Record>, before: Record, decided: Record) {
    && before.status == Pending && decided.request == before.request
    && (decided.status == Approved ==>
          forall id | id in records && records[id].status == Rejected && records[id].decidedVia != Some(Agent) ::
            var other, asked := records[id].request, decided.request;
            !(other.scope == asked.scope && other.kind == asked.kind && other.fields == asked.fields
              && (asked.scope.Session? || other.owner == asked.owner)))
  }

  /** While an operator's rejection of the same request stands, no step lets an agent's decision turn
      a pending or rejected record into an approved one; and a decision an agent makes, either way, is
      of a pending record. A record shown as decided by an agent and not spent before is a decision. */
  lemma AgentNeverOverrules(s: State, step: Step, id: Id)
    requires Good(s) && Within(s, step)
    requires AgentDecided(s, Apply(s, step), id)
    ensures AgentMay(Shown(s), Shown(s)[id], Shown(Apply(s, step))[id])
  {
    hide AgentMay, AgentDecided;
    DecidedByAWrite(s, step, id);
    AgentWrites(s, step, id);
  }

  lemma AgentWrites(s: State, step: Step, id: Id)
    requires Good(s) && Within(s, step) && (step.WriteFile? || step.WriteSqlite?)
    requires AgentDecided(s, Apply(s, step), id)
    ensures AgentMay(Shown(s), Shown(s)[id], Shown(Apply(s, step))[id])
  {
  }

  lemma DecidedByAWrite(s: State, step: Step, id: Id)
    requires Good(s) && Within(s, step) && AgentDecided(s, Apply(s, step), id)
    ensures step.WriteFile? || step.WriteSqlite?
  {
    hide Good, Apply, Enabled, Inv;
    if !step.WriteFile? && !step.WriteSqlite? {
      GoodIsInv(s);
      OnlyWritesShow(s, step);
    }
  }

  lemma GoodIsInv(s: State)
    requires Good(s)
    ensures Inv(s)
  {
  }

  /** Within a process only the write to the primary store changes what is shown. */
  lemma OnlyWritesShow(s: State, step: Step)
    requires Within(s, step) && Inv(s) && !step.WriteFile? && !step.WriteSqlite?
    ensures Shown(Apply(s, step)) == Shown(s)
  {
    hide Inv;
    if step.PutFileBack? {
      PutBackOnlyUnderSqlite(s, step);
    } else if !IsStoreStep(step) {
      OwnerStepSparesStores(s, step);
    }
  }

  lemma PutBackOnlyUnderSqlite(s: State, step: Step)
    requires Inv(s) && Within(s, step) && step.PutFileBack?
    ensures s.run.primary == SqlitePrimary
  {
  }

  // ---- A spent record -------------------------------------------------------------------------------------

  /** Executed, not being written, and with no claim that a decision or a give-back could still use. */
  predicate Final(s: State, id: Id)
    requires s.run.Up?
  {
    && id in Shown(s)
    && Shown(s)[id].status == Executed
    && (s.run.lock.Held? ==> s.run.lock.record.id != id)
    && (id in s.run.claims ==>
          && s.run.claims[id] < |s.run.holds|
          && var hold := s.run.holds[s.run.claims[id]].hold;
             hold.effect || !hold.mayGiveBack)
  }

  predicate IsBegin(step: Step) {
    step.BeginCreate? || step.BeginClaim? || step.BeginDecision? || step.BeginGiveBack?
  }

  lemma GiveBackKeepsFinal(s: State, step: Step, id: Id)
    requires Inv(s) && Within(s, step) && Final(s, id) && step.BeginGiveBack?
    ensures Apply(s, step).run.Up? && Final(Apply(s, step), id) && Shown(Apply(s, step))[id] == Shown(s)[id]
  {
    var hold := s.run.holds[step.ref].hold;
    assert GoodHold(s.log, s.run.holds[step.ref]);
    assert GoodRecord(s.log, hold.approval, Shown(s)[hold.approval]);
  }

  lemma BeginKeepsFinal(s: State, step: Step, id: Id)
    requires Inv(s) && Within(s, step) && Final(s, id) && IsBegin(step)
    ensures Apply(s, step).run.Up? && Final(Apply(s, step), id) && Shown(Apply(s, step))[id] == Shown(s)[id]
  {
    match step
    case BeginCreate(_, _) => assert GoodRecord(s.log, id, Shown(s)[id]);
    case BeginClaim(_, other, _) => assert GoodRecord(s.log, other, Shown(s)[other]);
    case BeginDecision(other, _, _, _, _, _) => assert GoodRecord(s.log, other, Shown(s)[other]);
    case BeginGiveBack(_) => GiveBackKeepsFinal(s, step, id);
  }

  /** A step of a write moves the lock on, and changes what is shown of its own record only. */
  lemma WriteSparesOthers(s: State, step: Step)
    requires Within(s, step) && (step.WriteFile? || step.WriteSqlite? || step.PutFileBack?)
    ensures
      var t := Apply(s, step);
      && t.run.Up? && t.run.lock.Held? && t.run == s.run.(lock := s.run.lock.(phase := t.run.lock.phase))
      && AgreeBut(s.run.lock.record.id, Shown(s), Shown(t))
  {
  }

  lemma WriteKeepsFinal(s: State, step: Step, id: Id)
    requires Inv(s) && Within(s, step) && Final(s, id) && IsStoreStep(step) && !IsBegin(step)
    ensures Apply(s, step).run.Up? && Final(Apply(s, step), id) && Shown(Apply(s, step))[id] == Shown(s)[id]
  {
    if step.WriteFile? || step.WriteSqlite? || step.PutFileBack? {
      WriteSparesOthers(s, step);
    } else if step.FinishWrite? {
      FinishKeepsFinal(s, step.cancelled, id);
    }
  }

  lemma FinishKeepsFinal(s: State, cancelled: bool, id: Id)
    requires Inv(s) && s.run.Up? && Final(s, id) && s.run.lock.Held?
    requires s.run.lock.op.GiveBack? ==> ValidRef(s.run, s.run.lock.op.ref)
    ensures Final(s.(run := Finished(s, cancelled)), id)
  {
  }

  lemma OwnerStepKeepsFinal(s: State, step: Step, id: Id)
    requires Inv(s) && Within(s, step) && Final(s, id) && !IsStoreStep(step)
    ensures Apply(s, step).run.Up? && Final(Apply(s, step), id) && Shown(Apply(s, step))[id] == Shown(s)[id]
  {
    hide Apply, Enabled, Inv, Undoes;
    OwnerStepSparesStores(s, step);
    OwnerStepMakesNoClaim(s, step);
    if id in s.run.claims {
      OwnerStepFollows(s, step, s.run.claims[id]);
    }
  }

  lemma OwnerStepMakesNoClaim(s: State, step: Step)
    requires Within(s, step) && !IsStoreStep(step)
    ensures
      var t := Apply(s, step);
      t.run.Up? && forall id | id in t.run.claims :: id in s.run.claims && t.run.claims[id] == s.run.claims[id]
  {
  }

  lemma StepKeepsFinal(s: State, step: Step, id: Id)
    requires Inv(s) && Within(s, step) && Final(s, id)
    ensures Apply(s, step).run.Up? && Final(Apply(s, step), id) && Shown(Apply(s, step))[id] == Shown(s)[id]
  {
    hide Apply;
    if IsBegin(step) {
      BeginKeepsFinal(s, step, id);
    } else if IsStoreStep(step) {
      WriteKeepsFinal(s, step, id);
    } else {
      OwnerStepKeepsFinal(s, step, id);
    }
  }

  /** Within a process, an executed record with no claim, or whose claim has an effect or may not give
      back, never changes again. */
  lemma {:induction false} FinalNeverChanges(states: seq<State>, steps: seq<Step>, i: nat, j: nat, id: Id)
    requires IsRun(states, steps) && ClaimsOutlast(states, steps) && Initial(states[0])
    requires i <= j < |states|
    requires forall k | i <= k < j :: Within(states[k], steps[k])
    requires states[i].run.Up? && Final(states[i], id)
    ensures states[j].run.Up? && Final(states[j], id) && Shown(states[j])[id] == Shown(states[i])[id]
  {
    hide Apply, Enabled, Inv, Final, ClaimsOutlast, Initial;
    if i == j {
    } else {
      FinalNeverChanges(states, steps, i, j - 1, id);
      RunKeepsInv(states, steps, j - 1);
      assert Within(states[j - 1], steps[j - 1]);
      assert StepsTo(states[j - 1], steps[j - 1], states[j]);
      StepKeepsFinal(states[j - 1], steps[j - 1], id);
    }
  }
}
