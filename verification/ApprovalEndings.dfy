/** How a claim ends over a run, whatever the other steps between the end of its block, the decisions on
    it, and the write that gives it back. */
module ApprovalEndings {
  import opened Wrappers
  import opened ApprovalModel
  import opened ApprovalProtocol
  import opened ApprovalInvariant
  import opened ApprovalTheorems
  import opened ApprovalDecisions
  import opened ApprovalClaims

  // ---- One step ---------------------------------------------------------------------------------------------

  /** Only a decision on the hold changes what waits on it. */
  lemma StepKeepsRejection(s: State, step: Step, r: Ref)
    requires Within(s, step) && ValidRef(s.run, r) && !DecidesOn(s, step, r)
    ensures ValidRef(Apply(s, step).run, r)
    ensures Apply(s, step).run.holds[r].hold.rejection == s.run.holds[r].hold.rejection
  {
    if IsStoreStep(step) {
      StoreStepFollows(s, step, r);
    } else {
      OwnerStepFollows(s, step, r);
    }
  }

  /** What the end of a block leaves while it is open: a give-back asked for, by the ending or by what waits;
      or a cancelled claim being recorded. */
  predicate Ended(c: Claimed, own: bool) {
    || (c.block.GivingBack? && c.hold.givesBackOnItsOwn == own)
    || (c.block.Auditing? && !own)
  }

  lemma StepKeepsEnded(s: State, step: Step, r: Ref, own: bool)
    requires Within(s, step) && ValidRef(s.run, r) && Ended(s.run.holds[r], own)
    ensures ValidRef(Apply(s, step).run, r)
    ensures Ended(Apply(s, step).run.holds[r], own) || !IsOpen(Apply(s, step).run.holds[r])
  {
    if IsStoreStep(step) {
      StoreStepFollows(s, step, r);
    } else {
      OwnerStepFollows(s, step, r);
    }
  }

  /** A block that is not open never opens again. */
  lemma StepKeepsClosed(s: State, step: Step, r: Ref)
    requires Within(s, step) && ValidRef(s.run, r) && !IsOpen(s.run.holds[r])
    ensures ValidRef(Apply(s, step).run, r) && !IsOpen(Apply(s, step).run.holds[r])
  {
    if IsStoreStep(step) {
      StoreStepFollows(s, step, r);
    } else {
      OwnerStepFollows(s, step, r);
    }
  }

  /** The give-back of the hold is about to be reported as failed. */
  predicate WriteFailed(s: State, r: Ref) {
    s.run.Up? && BeingGivenBack(s.run.lock, r) && s.run.lock.phase == Failed
  }

  /** The step closes the block: the store has answered it, or there was nothing to ask. */
  predicate Answers(s: State, step: Step, r: Ref) {
    && Within(s, step) && ValidRef(s.run, r) && IsOpen(s.run.holds[r])
    && ValidRef(Apply(s, step).run, r) && !IsOpen(Apply(s, step).run.holds[r])
  }

  predicate ShowsOutcome(t: State, hold: Hold, own: bool) {
    if hold.rejection.Some? then ShowsRejection(t, hold.approval, hold.rejection.value)
    else ShowsEnding(t, hold.approval, own)
  }

  lemma WriteShows(s: State, step: Step, r: Ref, own: bool)
    requires Good(s) && Answers(s, step, r) && Ended(s.run.holds[r], own) && !WriteFailed(s, r) && step.FinishWrite?
    ensures ShowsOutcome(Apply(s, step), s.run.holds[r].hold, own)
  {
    hide EffectsAreSpent, AtMostOnce, GoodRecords, GoodClaims, GoodContexts, OpenBlocksAreSpent;
    assert GoodHold(s.log, s.run.holds[r]);
  }

  lemma NothingToWriteShows(s: State, step: Step, r: Ref, own: bool)
    requires Good(s) && Answers(s, step, r) && Ended(s.run.holds[r], own) && (step.BeginGiveBack? || step.ReleaseHold?)
    ensures ShowsOutcome(Apply(s, step), s.run.holds[r].hold, own)
  {
    hide EffectsAreSpent, AtMostOnce, GoodRecords, GoodClaims, GoodContexts, Promise, GivesBackAsAsked, Undoes;
    assert GoodHold(s.log, s.run.holds[r]);
  }

  lemma AnswersByWhat(s: State, step: Step, r: Ref, own: bool)
    requires Answers(s, step, r) && Ended(s.run.holds[r], own)
    ensures step.FinishWrite? || step.BeginGiveBack? || step.ReleaseHold?
  {
    if !IsStoreStep(step) {
      OwnerStepFollows(s, step, r);
    }
  }

  /** With a write that does not fail, the answer leaves the record rejected if a rejection waits, and
      otherwise as the ending alone leaves it. */
  lemma AnswerShows(s: State, step: Step, r: Ref, own: bool)
    requires Good(s) && Answers(s, step, r) && Ended(s.run.holds[r], own) && !WriteFailed(s, r)
    ensures ShowsOutcome(Apply(s, step), s.run.holds[r].hold, own)
  {
    hide Good, Answers, ShowsOutcome, Ended;
    AnswersByWhat(s, step, r, own);
    if step.FinishWrite? {
      WriteShows(s, step, r, own);
    } else {
      NothingToWriteShows(s, step, r, own);
    }
  }

  lemma EndLeaves(s: State, r: Ref, ended: Ending)
    requires Good(s) && s.run.Up? && Enabled(s, EndBlock(r, ended))
    ensures
      var t, own := Apply(s, EndBlock(r, ended)), GivesBackOnItsOwn(s.run.holds[r].hold, ended);
      && ValidRef(t.run, r)
      && (IsOpen(t.run.holds[r]) ==> Ended(t.run.holds[r], own))
      && (!IsOpen(t.run.holds[r]) ==>
            (s.run.holds[r].hold.rejection.None? || ended.Killed?) && ShowsEnding(t, s.run.holds[r].hold.approval, own))
  {
    assert GoodHold(s.log, s.run.holds[r]);
  }

  // ---- Over a run -------------------------------------------------------------------------------------------------

  /** Steps i up to and including f happen within one process. */
  predicate Throughout(states: seq<State>, steps: seq<Step>, i: nat, f: nat)
    requires |states| == |steps| + 1
  {
    i <= f < |steps| && OneProcess(states, steps, i, f) && Within(states[f], steps[f])
  }

  /** No decision reaches the hold in steps i up to f. */
  predicate NoDecision(states: seq<State>, steps: seq<Step>, i: nat, f: nat, r: Ref)
    requires i <= f <= |steps| < |states|
  {
    forall k | i <= k < f :: !DecidesOn(states[k], steps[k], r)
  }

  lemma {:induction false} RejectionStays(states: seq<State>, steps: seq<Step>, i: nat, j: nat, r: Ref)
    requires IsRun(states, steps) && i <= j < |states| && OneProcess(states, steps, i, j) && NoDecision(states, steps, i, j, r)
    requires ValidRef(states[i].run, r)
    ensures ValidRef(states[j].run, r)
    ensures states[j].run.holds[r].hold.rejection == states[i].run.holds[r].hold.rejection
    ensures states[j].run.holds[r].hold.approval == states[i].run.holds[r].hold.approval
  {
    hide Apply, Enabled, DecidesOn;
    if i == j {
    } else {
      RejectionStays(states, steps, i, j - 1, r);
      assert Within(states[j - 1], steps[j - 1]) && StepsTo(states[j - 1], steps[j - 1], states[j]);
      StepKeepsRejection(states[j - 1], steps[j - 1], r);
      StepFollows(states[j - 1], steps[j - 1], r);
    }
  }

  lemma {:induction false} EndedStays(states: seq<State>, steps: seq<Step>, i: nat, j: nat, r: Ref, own: bool)
    requires IsRun(states, steps) && i <= j < |states| && OneProcess(states, steps, i, j)
    requires ValidRef(states[i].run, r) && (IsOpen(states[i].run.holds[r]) ==> Ended(states[i].run.holds[r], own))
    ensures ValidRef(states[j].run, r) && (IsOpen(states[j].run.holds[r]) ==> Ended(states[j].run.holds[r], own))
  {
    hide Apply, Enabled, Ended;
    if i == j {
    } else {
      EndedStays(states, steps, i, j - 1, r, own);
      assert Within(states[j - 1], steps[j - 1]) && StepsTo(states[j - 1], steps[j - 1], states[j]);
      if IsOpen(states[j - 1].run.holds[r]) {
        StepKeepsEnded(states[j - 1], steps[j - 1], r, own);
      } else {
        StepKeepsClosed(states[j - 1], steps[j - 1], r);
      }
    }
  }

  /** A block ends at e, and is closed at f, by the store's answer or at once; the give-back, if there is one,
      is not reported as failed. Whatever happens in between, and to other approvals, the record then shows
      the rejection that waits on the hold at f, unless the block was killed, and otherwise what the ending
      alone leaves: approved if it gives back by itself, executed if not. */
  lemma ClosedAsEnded(states: seq<State>, steps: seq<Step>, e: nat, f: nat, r: Ref)
    requires IsRun(states, steps) && ClaimsOutlast(states, steps) && Initial(states[0]) && Throughout(states, steps, e, f)
    requires steps[e].EndBlock? && steps[e].ref == r && Answers(states[f], steps[f], r) && !WriteFailed(states[f], r)
    ensures ValidRef(states[e].run, r)
    ensures
      var hold, own := states[f].run.holds[r].hold, GivesBackOnItsOwn(states[e].run.holds[r].hold, steps[e].ended);
      if steps[e].ended.Killed? && e == f then ShowsEnding(states[f + 1], hold.approval, own)
      else ShowsOutcome(states[f + 1], hold, own)
  {
    hide Apply, Enabled, Good, Ended, Answers, ShowsOutcome, ShowsEnding, WriteFailed, GivesBackOnItsOwn, Initial, ClaimsOutlast;
    RunKeepsGood(states, steps, e);
    RunKeepsGood(states, steps, f);
    assert StepsTo(states[e], steps[e], states[e + 1]);
    assert StepsTo(states[f], steps[f], states[f + 1]);
    EndsItsHold(states[e], steps[e]);
    AnswersOpen(states[f], steps[f], r);
    var own := GivesBackOnItsOwn(states[e].run.holds[r].hold, steps[e].ended);
    EndLeaves(states[e], r, steps[e].ended);
    if e == f {
      ClosedAtOnce(states[e], steps[e], r, own);
    } else {
      EndedStays(states, steps, e + 1, f, r, own);
      AnswerShows(states[f], steps[f], r, own);
    }
  }

  lemma AnswersOpen(s: State, step: Step, r: Ref)
    requires Answers(s, step, r)
    ensures ValidRef(s.run, r) && IsOpen(s.run.holds[r])
    ensures Enabled(s, step) && ValidRef(Apply(s, step).run, r) && !IsOpen(Apply(s, step).run.holds[r])
  {
  }

  lemma EndsItsHold(s: State, step: Step)
    requires Enabled(s, step) && step.EndBlock?
    ensures ValidRef(s.run, step.ref) && step == EndBlock(step.ref, step.ended)
  {
  }

  lemma ClosedAtOnce(s: State, step: Step, r: Ref, own: bool)
    requires Answers(s, step, r) && step.EndBlock?
    requires s.run.holds[r].hold.rejection.None? || step.ended.Killed?
    requires ShowsEnding(Apply(s, step), s.run.holds[r].hold.approval, own)
    ensures step.ended.Killed? || ShowsOutcome(Apply(s, step), s.run.holds[r].hold, own)
  {
  }

  // ---- What it means for an operator ---------------------------------------------------------------------------

  function Earlier(i: nat, j: nat): nat {
    if i < j then i else j
  }

  lemma FromLater(states: seq<State>, steps: seq<Step>, i: nat, j: nat, f: nat)
    requires |states| == |steps| + 1 && i <= j <= f && Throughout(states, steps, i, f)
    ensures Throughout(states, steps, j, f)
  {
    assert states[j].run.Up? by {
      if j > i {
        assert Within(states[j - 1], steps[j - 1]);
      }
    }
  }

  /** A rejection an operator's reply accepted at i, and that no later decision changes, is what the record
      shows once the block has ended, other than killed, and the store has answered it. */
  lemma RejectionIsAppliedInTheEnd(states: seq<State>, steps: seq<Step>, i: nat, e: nat, f: nat, r: Ref)
    requires IsRun(states, steps) && ClaimsOutlast(states, steps) && Initial(states[0])
    requires i <= f && e <= f && Throughout(states, steps, Earlier(i, e), f) && NoDecision(states, steps, i, f, r)
    requires Waits(states[i], r)
    requires steps[e].EndBlock? && steps[e].ref == r && !steps[e].ended.Killed?
    requires Answers(states[f], steps[f], r) && !WriteFailed(states[f], r)
    ensures ShowsRejection(states[f + 1], states[i].run.holds[r].hold.approval, states[i].run.holds[r].hold.rejection.value)
  {
    hide Apply, Enabled, Answers, ShowsRejection, ShowsEnding, WriteFailed, GivesBackOnItsOwn, Initial, ClaimsOutlast, DecidesOn;
    FromLater(states, steps, Earlier(i, e), i, f);
    FromLater(states, steps, Earlier(i, e), e, f);
    RejectionStays(states, steps, i, f, r);
    ClosedAsEnded(states, steps, e, f, r);
  }

  /** A withdrawal at w, before or after the end of the block at e, and no decision after it: once the store
      has answered, the record is what the ending alone leaves it. */
  lemma WithdrawalLeavesTheEnding(states: seq<State>, steps: seq<Step>, w: nat, e: nat, f: nat, r: Ref)
    requires IsRun(states, steps) && ClaimsOutlast(states, steps) && Initial(states[0])
    requires w < f && e <= f && Throughout(states, steps, Earlier(w, e), f) && NoDecision(states, steps, w + 1, f, r)
    requires Waits(states[w], r) && IsWithdrawal(states[w], steps[w], r)
    requires steps[e].EndBlock? && steps[e].ref == r
    requires Answers(states[f], steps[f], r) && !WriteFailed(states[f], r)
    ensures ValidRef(states[e].run, r)
    ensures
      ShowsEnding(states[f + 1], states[w].run.holds[r].hold.approval,
                  GivesBackOnItsOwn(states[e].run.holds[r].hold, steps[e].ended))
  {
    hide Apply, Enabled, Answers, ShowsRejection, ShowsEnding, WriteFailed, GivesBackOnItsOwn, Initial, ClaimsOutlast, Waits;
    FromLater(states, steps, Earlier(w, e), w + 1, f);
    FromLater(states, steps, Earlier(w, e), e, f);
    RunKeepsInv(states, steps, w);
    assert StepsTo(states[w], steps[w], states[w + 1]);
    WithdrawalClears(states[w], steps[w], r);
    RejectionStays(states, steps, w + 1, f, r);
    ClosedAsEnded(states, steps, e, f, r);
  }

  lemma WithdrawalClears(s: State, step: Step, r: Ref)
    requires Inv(s) && Waits(s, r) && Enabled(s, step) && IsWithdrawal(s, step, r)
    ensures
      var t := Apply(s, step);
      && t == s.(run := WithHold(s.run, r, s.run.holds[r].hold.(rejection := None)))
      && s.run.holds[r].hold.approval == step.id
  {
    assert GoodHold(s.log, s.run.holds[r]);
  }

  /** What an operator is told when their approve withdraws a rejection from a block that has ended is what the
      record becomes when the store answers: "spent" that it stays executed, "after refusal" that it returns
      to approved. */
  lemma ReplyTellsHowItEnds(states: seq<State>, steps: seq<Step>, w: nat, f: nat, r: Ref)
    requires IsRun(states, steps) && ClaimsOutlast(states, steps) && Initial(states[0])
    requires w < f && Throughout(states, steps, w, f) && NoDecision(states, steps, w + 1, f, r)
    requires Waits(states[w], r) && states[w].run.holds[r].block.GivingBack?
    requires IsWithdrawal(states[w], steps[w], r)
    requires Answers(states[f], steps[f], r) && !WriteFailed(states[f], r)
    ensures
      var hold := states[w].run.holds[r].hold;
      var reply := DecideOnClaim(hold, Approve, Operator, steps[w].comment).1;
      && states[f + 1].run.Up? && hold.approval in Shown(states[f + 1])
      && reply in {WithdrawnSpent, WithdrawnAfterRefusal}
      && (reply == WithdrawnSpent <==> Shown(states[f + 1])[hold.approval].status == Executed)
      && (reply == WithdrawnAfterRefusal <==> Shown(states[f + 1])[hold.approval].status == Approved)
  {
    hide Apply, Enabled, Answers, WriteFailed, Initial, ClaimsOutlast, DecideOnClaim;
    FromLater(states, steps, w, w + 1, f);
    RunKeepsInv(states, steps, w);
    RunKeepsGood(states, steps, f);
    assert GoodHold(states[w].log, states[w].run.holds[r]);
    assert StepsTo(states[w], steps[w], states[w + 1]);
    assert StepsTo(states[f], steps[f], states[f + 1]);
    WithdrawalClears(states[w], steps[w], r);
    RejectionStays(states, steps, w + 1, f, r);
    var own := states[w].run.holds[r].hold.givesBackOnItsOwn;
    EndedStays(states, steps, w + 1, f, r, own);
    AnswersOpen(states[f], steps[f], r);
    AnswerShows(states[f], steps[f], r, own);
    ReplyOfEnded(states[w].run.holds[r].hold, steps[w].comment);
  }

  lemma ReplyOfEnded(hold: Hold, comment: Option<string>)
    requires hold.rejection.Some? && hold.mayGiveBack && !hold.effect && !hold.active
    ensures
      DecideOnClaim(hold, Approve, Operator, comment).1
      == if hold.givesBackOnItsOwn then WithdrawnAfterRefusal else WithdrawnSpent
  {
  }

  /** Once a block is closed nothing is written for its hold again. */
  lemma {:induction false} AnsweredBlockIsNotWritten(states: seq<State>, steps: seq<Step>, i: nat, j: nat, r: Ref)
    requires IsRun(states, steps) && ClaimsOutlast(states, steps) && Initial(states[0])
    requires i <= j < |states| && OneProcess(states, steps, i, j)
    requires ValidRef(states[i].run, r) && !IsOpen(states[i].run.holds[r])
    ensures ValidRef(states[j].run, r) && !IsOpen(states[j].run.holds[r]) && !BeingGivenBack(states[j].run.lock, r)
  {
    hide Apply, Enabled, Initial, ClaimsOutlast;
    if i == j {
    } else {
      AnsweredBlockIsNotWritten(states, steps, i, j - 1, r);
      assert Within(states[j - 1], steps[j - 1]) && StepsTo(states[j - 1], steps[j - 1], states[j]);
      StepKeepsClosed(states[j - 1], steps[j - 1], r);
    }
    RunKeepsInv(states, steps, j);
  }

  /** A waiting rejection can be written only if its block was still running, or waiting to be given back, when
      it was accepted: with RejectionIsAppliedInTheEnd, exactly then it is applied. One accepted after the
      store has answered stays on the hold. */
  lemma AppliedOnlyIfStillOpen(states: seq<State>, steps: seq<Step>, i: nat, f: nat, r: Ref)
    requires IsRun(states, steps) && ClaimsOutlast(states, steps) && Initial(states[0])
    requires i <= f < |states| && OneProcess(states, steps, i, f)
    requires Waits(states[i], r) && states[f].run.Up? && BeingGivenBack(states[f].run.lock, r)
    ensures states[i].run.holds[r].block.Running? || states[i].run.holds[r].block.GivingBack?
  {
    hide Apply, Enabled, Initial, ClaimsOutlast;
    RunKeepsInv(states, steps, i);
    assert GoodHold(states[i].log, states[i].run.holds[r]);
    if !IsOpen(states[i].run.holds[r]) {
      AnsweredBlockIsNotWritten(states, steps, i, f, r);
    }
  }
}
