/** What the approval protocol promises about a claim: what stops its action, and how its block ends. */
module ApprovalClaims {
  import opened Wrappers
  import opened ApprovalModel
  import opened ApprovalStartup
  import opened ApprovalProtocol
  import opened ApprovalInvariant
  import opened ApprovalTheorems
  import opened ApprovalDecisions

  predicate OneProcess(states: seq<State>, steps: seq<Step>, i: nat, j: nat)
    requires i <= j < |states| && |states| == |steps| + 1
  {
    states[i].run.Up? && forall k | i <= k < j :: Within(states[k], steps[k])
  }

  /** Some task that carries the hold starts an action. */
  predicate StartsWith(s: State, step: Step, r: Ref) {
    step.EffectStarted? && Enabled(s, step) && r in ContextOf(s.run, step.task).Values
  }

  // ---- An inactive hold ------------------------------------------------------------------------------------

  /** Once a hold is inactive it stays so, its effect never changes, and no task carrying it (a child,
      a nested layer, a straggler) starts an action: a give-back is of a hold that never acts. */
  lemma {:induction false} InactiveHoldNeverActs(states: seq<State>, steps: seq<Step>, i: nat, j: nat, r: Ref)
    requires IsRun(states, steps) && i <= j < |states| && OneProcess(states, steps, i, j)
    requires ValidRef(states[i].run, r) && !states[i].run.holds[r].hold.active
    ensures states[j].run.Up? && ValidRef(states[j].run, r)
    ensures !states[j].run.holds[r].hold.active
    ensures states[j].run.holds[r].hold.effect == states[i].run.holds[r].hold.effect
    ensures j < |steps| ==> !StartsWith(states[j], steps[j], r)
  {
    hide Apply, Enabled, StartsWith;
    if i == j {
    } else {
      InactiveHoldNeverActs(states, steps, i, j - 1, r);
      assert Within(states[j - 1], steps[j - 1]);
      assert StepsTo(states[j - 1], steps[j - 1], states[j]);
      StepFollows(states[j - 1], steps[j - 1], r);
    }
    if j < |steps| {
      InactiveHoldIsRefused(states[j], steps[j], r);
    }
  }

  lemma InactiveHoldIsRefused(s: State, step: Step, r: Ref)
    requires s.run.Up? && ValidRef(s.run, r) && !Permits(s.run.holds[r].hold)
    ensures !StartsWith(s, step, r)
  {
  }

  /** A record is given back only when its hold had no effect, and never will have. */
  lemma GivenBackHoldHasNoEffect(states: seq<State>, steps: seq<Step>, i: nat, j: nat, r: Ref)
    requires IsRun(states, steps) && ClaimsOutlast(states, steps) && Initial(states[0])
    requires i <= j < |states| && OneProcess(states, steps, i, j)
    requires BeingGivenBack(states[i].run.lock, r)
    ensures states[j].run.Up? && ValidRef(states[j].run, r) && !states[j].run.holds[r].hold.effect
  {
    RunKeepsInv(states, steps, i);
    assert GoodHold(states[i].log, states[i].run.holds[r]);
    InactiveHoldNeverActs(states, steps, i, j, r);
  }

  // ---- A rejection that waits -----------------------------------------------------------------------------

  predicate Waits(s: State, r: Ref) {
    s.run.Up? && ValidRef(s.run, r) && s.run.holds[r].hold.rejection.Some?
  }

  /** The record as a waiting rejection leaves it. */
  predicate ShowsRejection(t: State, id: Id, rejection: Rejection) {
    && t.run.Up? && id in Shown(t)
    && Shown(t)[id].status == Rejected
    && Shown(t)[id].comment == rejection.comment
    && Shown(t)[id].decidedVia == Some(Operator)
  }

  /** The record as the ending leaves it with no rejection waiting. */
  predicate ShowsEnding(t: State, id: Id, own: bool) {
    t.run.Up? && id in Shown(t) && Shown(t)[id].status == if own then Approved else Executed
  }

  /** A decision that reaches the hold. */
  predicate DecidesOn(s: State, step: Step, r: Ref) {
    step.DecisionOnClaim? && s.run.Up? && step.id in s.run.claims && s.run.claims[step.id] == r
  }

  /** Only an operator withdraws a rejection. */
  predicate IsWithdrawal(s: State, step: Step, r: Ref) {
    DecidesOn(s, step, r) && step.verdict == Approve && step.decider == Operator
  }

  /** An agent's decision on a claim, either way, changes nothing at all. */
  lemma AgentLeavesTheClaim(s: State, step: Step)
    requires Enabled(s, step) && step.DecisionOnClaim? && step.decider == Agent
    ensures Apply(s, step) == s
  {
  }

  /** An operator's reject of a claim that may be given back and has no effect waits on it. */
  lemma OperatorRejectWaits(s: State, step: Step, r: Ref)
    requires Inv(s) && Enabled(s, step) && DecidesOn(s, step, r) && step.verdict == Reject && step.decider == Operator
    requires s.run.holds[r].hold.mayGiveBack && !s.run.holds[r].hold.effect
    ensures
      var t := Apply(s, step);
      Waits(t, r) && t.run.holds[r].hold == s.run.holds[r].hold.(rejection := Some(Rejection(step.comment, Operator)))
  {
  }

  lemma OnlyAWithdrawalClears(s: State, step: Step, r: Ref)
    requires Within(s, step) && Waits(s, r) && !IsWithdrawal(s, step, r)
    ensures Waits(Apply(s, step), r)
  {
    if IsStoreStep(step) {
      StoreStepFollows(s, step, r);
    } else {
      match step
      case Spawn(_, _) =>
      case DecisionOnClaim(_, _, _, _) =>
      case EffectRefused(_, _) =>
      case RefusedBefore(_, _) =>
      case EffectStarted(_) =>
      case EndBlock(_, _) =>
      case ReleaseHold(_) =>
    }
  }

  /** An accepted rejection that is not withdrawn stops every later effect under that hold. */
  lemma {:induction false} WaitingRejectionStopsTheAction(states: seq<State>, steps: seq<Step>, i: nat, j: nat, r: Ref)
    requires IsRun(states, steps) && ClaimsOutlast(states, steps) && Initial(states[0])
    requires i <= j < |states| && OneProcess(states, steps, i, j)
    requires forall k | i <= k < j :: !IsWithdrawal(states[k], steps[k], r)
    requires Waits(states[i], r)
    ensures Waits(states[j], r) && !states[j].run.holds[r].hold.effect
    ensures j < |steps| ==> !StartsWith(states[j], steps[j], r)
  {
    hide Apply, Enabled, ClaimsOutlast, Initial;
    if i == j {
    } else {
      WaitingRejectionStopsTheAction(states, steps, i, j - 1, r);
      assert Within(states[j - 1], steps[j - 1]);
      assert StepsTo(states[j - 1], steps[j - 1], states[j]);
      OnlyAWithdrawalClears(states[j - 1], steps[j - 1], r);
    }
    RunKeepsInv(states, steps, j);
    assert GoodHold(states[j].log, states[j].run.holds[r]);
    if j < |steps| {
      InactiveHoldIsRefused(states[j], steps[j], r);
    }
  }

  /** A block that returns, raises or is cancelled while a rejection waits asks the store to give back,
      and the store then begins to write. */
  lemma WaitingRejectionIsGivenBack(s: State, r: Ref, ended: Ending)
    requires Inv(s) && Waits(s, r) && s.run.holds[r].block.Running? && !ended.Killed?
    requires Enabled(s, EndBlock(r, ended))
    ensures
      var t := Apply(s, EndBlock(r, ended));
      Waits(t, r) && t.run.holds[r].block.GivingBack? && WillBeWritten(t, r)
  {
  }

  /** Asked to give the hold back, the store begins to write. */
  predicate WillBeWritten(s: State, r: Ref) {
    Enabled(s, BeginGiveBack(r)) ==> BeingGivenBack(Apply(s, BeginGiveBack(r)).run.lock, r)
  }

  /** When its give-back lands, the record is rejected with that operator's decision. */
  lemma LandedGiveBackAppliesTheRejection(s: State, r: Ref, cancelled: bool)
    requires Good(s) && Waits(s, r) && BeingGivenBack(s.run.lock, r) && s.run.lock.phase == Landed
    ensures Enabled(s, FinishWrite(cancelled))
    ensures
      var t, hold := Apply(s, FinishWrite(cancelled)), s.run.holds[r].hold;
      && ShowsRejection(t, hold.approval, hold.rejection.value)
      && ValidRef(t.run, r) && t.run.holds[r].block == GivenBack(true)
  {
  }

  // ---- Withdrawing a rejection ------------------------------------------------------------------------------

  function Attempt(s: State, step: Step): State {
    if Enabled(s, step) then Apply(s, step) else s
  }

  /** The store's answer to a block that ended, with no other step in between and no failed write. */
  function Settled(s: State, r: Ref): State {
    var begun := Attempt(s, BeginGiveBack(r));
    var written := Attempt(Attempt(begun, WriteFile(true)), WriteSqlite(true));
    Attempt(written, FinishWrite(false))
  }

  /** What a block waiting to be given back leaves its record as. */
  lemma SettledStatus(s: State, r: Ref)
    requires Inv(s) && s.run.Up? && s.run.lock.Free? && ValidRef(s.run, r) && s.run.holds[r].block.GivingBack?
    ensures
      var hold, t := s.run.holds[r].hold, Settled(s, r);
      && t.run.Up? && t.run.lock.Free? && hold.approval in Shown(t) && Shown(t)[hold.approval].id == hold.approval
      && Shown(t)[hold.approval].status ==
           (if hold.rejection.Some? then Rejected else if hold.givesBackOnItsOwn then Approved else Executed)
  {
    hide Undoes, EffectsAreSpent, AtMostOnce, GoodClaims, GoodContexts;
    var id := s.run.holds[r].hold.approval;
    assert !BeingGivenBack(s.run.lock, r);
    assert Enabled(s, BeginGiveBack(r));
    assert GoodRecord(s.log, id, Shown(s)[id]);
    var begun := Apply(s, BeginGiveBack(r));
    if begun.run.lock.Held? {
      WriteLands(begun);
    }
  }

  /** With no failure, a write ends with its record shown, and in the file store whichever is primary. */
  lemma WriteLands(s: State)
    requires s.run.Up? && s.run.lock.Held? && s.run.lock.phase == ToFile
    requires s.run.lock.op.GiveBack? ==> ValidRef(s.run, s.run.lock.op.ref)
    ensures
      var t := Attempt(Attempt(Attempt(s, WriteFile(true)), WriteSqlite(true)), FinishWrite(false));
      var record := s.run.lock.record;
      && t.run.Up? && t.run.lock.Free?
      && record.id in Shown(t) && Shown(t)[record.id] == record
      && record.id in t.disk.file && t.disk.file[record.id] == record
  {
  }

  function Approving(s: State, r: Ref, comment: Option<string>): Step
    requires ValidRef(s.run, r)
  {
    DecisionOnClaim(s.run.holds[r].hold.approval, Approve, Operator, comment)
  }

  lemma WithdrawnThenEnded(s: State, r: Ref, ended: Ending, comment: Option<string>)
    requires Inv(s) && Waits(s, r) && s.run.lock.Free? && s.run.holds[r].block.Running?
    requires s.run.holds[r].hold.claimCancelled ==> ended.Cancelled?
    ensures
      var t := Settled(Attempt(Attempt(s, Approving(s, r, comment)), EndBlock(r, ended)), r);
      ShowsEnding(t, s.run.holds[r].hold.approval, GivesBackOnItsOwn(s.run.holds[r].hold, ended))
  {
    WithdrawalReaches(s, r, comment);
    KeptByDecisionOnClaim(s, Approving(s, r, comment));
    UnrejectedEndSettles(Apply(s, Approving(s, r, comment)), r, ended);
  }

  /** With no rejection waiting, the ending alone says what the record is left as. */
  lemma UnrejectedEndSettles(s: State, r: Ref, ended: Ending)
    requires Inv(s) && s.run.Up? && s.run.lock.Free? && ValidRef(s.run, r) && s.run.holds[r].block.Running?
    requires s.run.holds[r].hold.rejection.None? && (s.run.holds[r].hold.claimCancelled ==> ended.Cancelled?)
    ensures
      var t := Settled(Attempt(s, EndBlock(r, ended)), r);
      ShowsEnding(t, s.run.holds[r].hold.approval, GivesBackOnItsOwn(s.run.holds[r].hold, ended))
  {
    hide Undoes, EffectsAreSpent, AtMostOnce, GoodContexts;
    assert GoodHold(s.log, s.run.holds[r]);
    assert !BeingGivenBack(s.run.lock, r);
    var t := Apply(s, EndBlock(r, ended));
    KeptByEnd(s, EndBlock(r, ended));
    if t.run.holds[r].block.GivingBack? {
      SettledStatus(t, r);
    } else {
      NothingToSettle(t, r);
    }
  }

  /** An open block's claim is there for an operator's approve to reach. */
  lemma WithdrawalReaches(s: State, r: Ref, comment: Option<string>)
    requires Inv(s) && Waits(s, r) && s.run.lock.Free? && IsOpen(s.run.holds[r])
    ensures Enabled(s, Approving(s, r, comment))
    ensures
      var t := Apply(s, Approving(s, r, comment));
      && t == s.(run := WithHold(s.run, r, s.run.holds[r].hold.(rejection := None)))
      && Shown(s)[s.run.holds[r].hold.approval].status == Executed
  {
  }

  lemma NothingToSettle(s: State, r: Ref)
    requires s.run.Up? && s.run.lock.Free? && ValidRef(s.run, r) && !s.run.holds[r].block.GivingBack?
    ensures Settled(s, r) == s
  {
  }

  /** Once the give-back has been written there is no claim left: an approve then is a decision of its
      own, of a record that is rejected. */
  lemma LateApproveFindsTheRejection(s: State, r: Ref, ended: Ending)
    requires Inv(s) && Waits(s, r) && s.run.lock.Free? && s.run.holds[r].block.Running? && !ended.Killed?
    requires s.run.holds[r].hold.claimCancelled ==> ended.Cancelled?
    ensures
      var id, t := s.run.holds[r].hold.approval, Settled(Attempt(s, EndBlock(r, ended)), r);
      && t.run.Up? && t.run.lock.Free? && id in Shown(t) && Shown(t)[id].status == Rejected && Shown(t)[id].id == id
      && MayDecide(Shown(t), Shown(t)[id], Approve, Operator, true)
  {
    WaitingRejectionIsGivenBack(s, r, ended);
    KeptByEnd(s, EndBlock(r, ended));
    SettledStatus(Apply(s, EndBlock(r, ended)), r);
  }

  /** So an approve that comes after the give-back leaves what one before it would have left exactly when the
      ending gives back by itself: otherwise the record is approved, not executed. */
  lemma OrderMattersExactly(s: State, r: Ref, ended: Ending, comment: Option<string>, ttl: nat)
    requires Inv(s) && Waits(s, r) && s.run.lock.Free? && s.run.holds[r].block.Running? && !ended.Killed?
    requires s.run.holds[r].hold.claimCancelled ==> ended.Cancelled?
    ensures
      var id := s.run.holds[r].hold.approval;
      var before := Settled(Attempt(Attempt(s, Approving(s, r, comment)), EndBlock(r, ended)), r);
      var decided := Attempt(Settled(Attempt(s, EndBlock(r, ended)), r), BeginDecision(id, Approve, Operator, comment, true, ttl));
      var late := Attempt(Attempt(Attempt(decided, WriteFile(true)), WriteSqlite(true)), FinishWrite(false));
      && before.run.Up? && id in Shown(before) && late.run.Up? && id in Shown(late)
      && Shown(late)[id].status == Approved
      && (Shown(late)[id].status == Shown(before)[id].status <==> GivesBackOnItsOwn(s.run.holds[r].hold, ended))
  {
    hide Settled, Inv;
    WithdrawnThenEnded(s, r, ended, comment);
    LateApproveFindsTheRejection(s, r, ended);
    ApproveOfShownLands(Settled(Attempt(s, EndBlock(r, ended)), r), s.run.holds[r].hold.approval, comment, ttl);
  }

  lemma ApproveOfShownLands(s: State, id: Id, comment: Option<string>, ttl: nat)
    requires s.run.Up? && s.run.lock.Free? && id in Shown(s) && Shown(s)[id].id == id
    requires MayDecide(Shown(s), Shown(s)[id], Approve, Operator, true)
    ensures
      var decided := Attempt(s, BeginDecision(id, Approve, Operator, comment, true, ttl));
      var t := Attempt(Attempt(Attempt(decided, WriteFile(true)), WriteSqlite(true)), FinishWrite(false));
      t.run.Up? && id in Shown(t) && Shown(t)[id].status == Approved
  {
  }

  /** The state "withdrawn_spent" leaves: nothing but a decision on this claim could still change the record. */
  predicate Doomed(s: State, r: Ref) {
    && ValidRef(s.run, r)
    && var c := s.run.holds[r];
       var id := c.hold.approval;
       && id in Shown(s)
       && Shown(s)[id].status == Executed
       && (s.run.lock.Held? ==> s.run.lock.record.id != id)
       && (id in s.run.claims ==> s.run.claims[id] == r)
       && !c.hold.active
       && (|| c.block.Released?
           || c.block == GivenBack(false)
           || (c.block.GivingBack? && c.hold.rejection.None? && !c.hold.givesBackOnItsOwn))
  }

  lemma GiveBackKeepsDoomed(s: State, step: Step, r: Ref)
    requires Inv(s) && Within(s, step) && Doomed(s, r) && step.BeginGiveBack?
    ensures
      var t, id := Apply(s, step), s.run.holds[r].hold.approval;
      && Doomed(t, r) && t.run.holds[r].hold == s.run.holds[r].hold && Shown(t)[id] == Shown(s)[id]
  {
    hide Undoes, EffectsAreSpent, AtMostOnce, GoodContexts;
    var hold := s.run.holds[step.ref].hold;
    assert GoodHold(s.log, s.run.holds[step.ref]);
    assert GoodRecord(s.log, hold.approval, Shown(s)[hold.approval]);
  }

  lemma BeginKeepsDoomed(s: State, step: Step, r: Ref)
    requires Inv(s) && Within(s, step) && Doomed(s, r) && IsBegin(step)
    ensures
      var t, id := Apply(s, step), s.run.holds[r].hold.approval;
      && Doomed(t, r) && t.run.holds[r].hold == s.run.holds[r].hold && Shown(t)[id] == Shown(s)[id]
  {
    match step
    case BeginCreate(_, _) => assert GoodRecord(s.log, s.run.holds[r].hold.approval, Shown(s)[s.run.holds[r].hold.approval]);
    case BeginClaim(_, other, _) => assert GoodRecord(s.log, other, Shown(s)[other]);
    case BeginDecision(other, _, _, _, _, _) => assert GoodRecord(s.log, other, Shown(s)[other]);
    case BeginGiveBack(_) => GiveBackKeepsDoomed(s, step, r);
  }

  lemma WriteKeepsDoomed(s: State, step: Step, r: Ref)
    requires Inv(s) && Within(s, step) && Doomed(s, r) && IsStoreStep(step) && !IsBegin(step)
    ensures
      var t, id := Apply(s, step), s.run.holds[r].hold.approval;
      && Doomed(t, r) && t.run.holds[r].hold == s.run.holds[r].hold && Shown(t)[id] == Shown(s)[id]
  {
    hide Undoes, EffectsAreSpent, AtMostOnce, GoodContexts, OpenBlocksAreSpent;
    if step.WriteFile? || step.WriteSqlite? || step.PutFileBack? {
      ApprovalDecisions.WriteSparesOthers(s, step);
    } else if step.FinishWrite? {
      StoreStepFollows(s, step, r);
    }
  }

  /** No step but a decision on its claim touches an inactive hold; its block can only be released. */
  lemma OwnerStepSparesInactive(s: State, step: Step, r: Ref)
    requires Within(s, step) && !IsStoreStep(step) && ValidRef(s.run, r) && !s.run.holds[r].hold.active
    requires (step.DecisionOnClaim? ==> s.run.claims[step.id] != r) && !(step.EndBlock? && step.ref == r)
    ensures
      var t := Apply(s, step);
      && ValidRef(t.run, r)
      && t.run.holds[r].hold == s.run.holds[r].hold
      && (t.run.holds[r].block == s.run.holds[r].block || t.run.holds[r].block.Released?)
  {
  }

  lemma OwnerStepDropsClaims(s: State, step: Step, id: Id)
    requires Within(s, step) && !IsStoreStep(step) && id in Apply(s, step).run.claims
    ensures id in s.run.claims && Apply(s, step).run.claims[id] == s.run.claims[id]
  {
  }

  lemma OwnerStepKeepsDoomed(s: State, step: Step, r: Ref)
    requires Inv(s) && Within(s, step) && Doomed(s, r) && !IsStoreStep(step) && !DecidesOn(s, step, r)
    ensures
      var t, id := Apply(s, step), s.run.holds[r].hold.approval;
      && Doomed(t, r) && t.run.holds[r].hold.approval == id && Shown(t)[id] == Shown(s)[id]
  {
    assert step.DecisionOnClaim? ==> s.run.claims[step.id] != r;
    assert !(step.EndBlock? && step.ref == r);
    hide Apply, Enabled, Inv;
    OwnerStepSparesStores(s, step);
    OwnerStepSparesInactive(s, step, r);
    if s.run.holds[r].hold.approval in Apply(s, step).run.claims {
      OwnerStepDropsClaims(s, step, s.run.holds[r].hold.approval);
    }
  }

  lemma StepKeepsDoomed(s: State, step: Step, r: Ref)
    requires Inv(s) && Within(s, step) && Doomed(s, r) && !DecidesOn(s, step, r)
    ensures
      var t, id := Apply(s, step), s.run.holds[r].hold.approval;
      && Doomed(t, r) && t.run.holds[r].hold.approval == id && Shown(t)[id] == Shown(s)[id]
  {
    hide Apply, Enabled, Inv;
    if IsBegin(step) {
      BeginKeepsDoomed(s, step, r);
    } else if IsStoreStep(step) {
      WriteKeepsDoomed(s, step, r);
    } else {
      OwnerStepKeepsDoomed(s, step, r);
    }
  }

  /** Told "withdrawn_spent", and with no later decision on the claim, the operator finds the record
      executed, unchanged, for the rest of the process. */
  lemma {:induction false} WithdrawnSpentStaysSpent(states: seq<State>, steps: seq<Step>, i: nat, j: nat, r: Ref)
    requires IsRun(states, steps) && ClaimsOutlast(states, steps) && Initial(states[0])
    requires i <= j < |states| && OneProcess(states, steps, i, j)
    requires forall k | i <= k < j :: !DecidesOn(states[k], steps[k], r)
    requires Doomed(states[i], r)
    ensures Doomed(states[j], r)
    ensures
      var id := states[i].run.holds[r].hold.approval;
      states[j].run.holds[r].hold.approval == id && Shown(states[j])[id] == Shown(states[i])[id]
  {
    hide Apply, Enabled, Inv, ClaimsOutlast, Initial;
    if i == j {
    } else {
      WithdrawnSpentStaysSpent(states, steps, i, j - 1, r);
      RunKeepsInv(states, steps, j - 1);
      assert Within(states[j - 1], steps[j - 1]);
      assert StepsTo(states[j - 1], steps[j - 1], states[j]);
      StepKeepsDoomed(states[j - 1], steps[j - 1], r);
    }
  }

  /** The reply "withdrawn_spent" does leave that state. */
  lemma WithdrawnSpentDooms(s: State, r: Ref, comment: Option<string>)
    requires Inv(s) && Waits(s, r) && s.run.lock.Free? && s.run.holds[r].block.GivingBack?
    requires DecideOnClaim(s.run.holds[r].hold, Approve, Operator, comment).1 == WithdrawnSpent
    ensures Enabled(s, Approving(s, r, comment)) && Doomed(Apply(s, Approving(s, r, comment)), r)
  {
  }

  // ---- A write in one go ----------------------------------------------------------------------------------

  /** With nothing in between, the steps of a write leave the stores as WriteOutcome says. */
  lemma WriteStepsAreOneWrite(s: State, faults: Faults)
    requires s.run.Up? && s.run.lock.Held? && s.run.lock.phase == ToFile
    ensures
      var t := Attempt(Attempt(Attempt(s, WriteFile(!faults.file)), WriteSqlite(!faults.sqlite)), PutFileBack(!faults.putBack));
      var outcome := WriteOutcome(s.disk, s.run.primary, s.run.lock.record, faults);
      t == s.(disk := outcome.0, run := s.run.(lock := s.run.lock.(phase := if outcome.1 then Landed else Failed)))
  {
  }
}
