/** What the approval protocol promises over whole runs. */
module ApprovalTheorems {
  import opened ApprovalModel
  import opened ApprovalProtocol
  import opened ApprovalInvariant

  // ---- At most one effect -------------------------------------------------------------------------

  lemma {:induction false} RunKeepsInv(states: seq<State>, steps: seq<Step>, n: nat)
    requires IsRun(states, steps) && ClaimsOutlast(states, steps) && Initial(states[0])
    requires n < |states|
    ensures Inv(states[n])
  {
    if n == 0 {
      StartsGood(states[0]);
    } else {
      RunKeepsInv(states, steps, n - 1);
      assert StepsTo(states[n - 1], steps[n - 1], states[n]);
      assert ClaimOutlasts(states[n - 1], steps[n - 1]);
      StepKeepsInv(states[n - 1], steps[n - 1]);
    }
  }

  lemma StartsGood(s: State)
    requires Initial(s)
    ensures Inv(s)
  {
  }

  /** The action the step starts runs under approval `id`. */
  predicate StartsUnder(s: State, step: Step, id: Id) {
    step.EffectStarted? && Enabled(s, step) && id in ContextOf(s.run, step.task)
  }

  /** Under one action approval an action starts at most once, whatever decisions, claims, give-backs,
      failed writes, crashes and restarts (with SQLite up or down) the run is made of. */
  lemma OneEffectPerActionApproval(states: seq<State>, steps: seq<Step>, i: nat, j: nat, id: Id)
    requires IsRun(states, steps) && ClaimsOutlast(states, steps) && Initial(states[0])
    requires i < j < |steps|
    requires StartsUnder(states[i], steps[i], id) && StartsUnder(states[j], steps[j], id)
    ensures id in states[i].log && states[i].log[id].origin == ToolCall
  {
    RunKeepsInv(states, steps, i);
    RunKeepsInv(states, steps, j);
    assert StepsTo(states[i], steps[i], states[i + 1]);
    assert StepsTo(states[j], steps[j], states[j + 1]);
    EffectIsCounted(states[i], steps[i], id);
    EffectIsCounted(states[j], steps[j], id);
    RunKeepsInv(states, steps, j + 1);
    LogOnlyGrows(states, steps, i + 1, j, id);
    LogOnlyGrows(states, steps, i, j + 1, id);
  }

  /** The log counts every start: it is what "an action started under id" means. */
  lemma EffectIsCounted(s: State, step: Step, id: Id)
    requires Inv(s) && StartsUnder(s, step, id)
    ensures id in s.log
    ensures
      var t := Apply(s, step);
      id in t.log && t.log[id] == s.log[id].(effects := s.log[id].effects + 1)
  {
  }

  predicate LogGrew(before: map<Id, History>, after: map<Id, History>, id: Id) {
    id in before ==>
      id in after && after[id].origin == before[id].origin && after[id].effects >= before[id].effects
  }

  lemma StepGrowsLog(s: State, step: Step, id: Id)
    requires Enabled(s, step)
    ensures LogGrew(s.log, Apply(s, step).log, id)
  {
  }

  lemma {:induction false} LogOnlyGrows(states: seq<State>, steps: seq<Step>, i: nat, j: nat, id: Id)
    requires IsRun(states, steps) && i <= j < |states|
    ensures LogGrew(states[i].log, states[j].log, id)
  {
    if i == j {
    } else {
      LogOnlyGrows(states, steps, i, j - 1, id);
      assert StepsTo(states[j - 1], steps[j - 1], states[j]);
      StepGrowsLog(states[j - 1], steps[j - 1], id);
    }
  }

  /** Once an action has started under an approval, every process that runs later shows it as spent. */
  lemma SpentForEver(states: seq<State>, steps: seq<Step>, i: nat, j: nat, id: Id)
    requires IsRun(states, steps) && ClaimsOutlast(states, steps) && Initial(states[0])
    requires i < |steps| && i < j < |states| && StartsUnder(states[i], steps[i], id)
    requires states[j].run.Up?
    ensures id in Shown(states[j]) && Shown(states[j])[id].status == Executed
  {
    RunKeepsInv(states, steps, i);
    RunKeepsInv(states, steps, j);
    assert StepsTo(states[i], steps[i], states[i + 1]);
    EffectIsCounted(states[i], steps[i], id);
    LogOnlyGrows(states, steps, i + 1, j, id);
    assert Effected(states[j].log, id);
  }

  // ---- One hold over a process --------------------------------------------------------------------

  /** The step happens within one process. */
  predicate Within(s: State, step: Step) {
    s.run.Up? && Enabled(s, step) && !step.Crash?
  }

  predicate IsStoreStep(step: Step) {
    || step.BeginCreate? || step.BeginClaim? || step.BeginDecision? || step.BeginGiveBack?
    || step.WriteFile? || step.WriteSqlite? || step.PutFileBack? || step.FinishWrite? || step.Tick?
  }

  /** What a hold keeps: who it is, its effect, and being inactive; an inactive one starts nothing. */
  predicate Follows(a: Claimed, b: Claimed) {
    && b.owner == a.owner
    && b.hold.approval == a.hold.approval
    && b.hold.origin == a.hold.origin
    && b.hold.mayGiveBack == a.hold.mayGiveBack
    && (a.hold.effect ==> b.hold.effect)
    && (!a.hold.active ==> !b.hold.active && b.hold.effect == a.hold.effect)
  }

  lemma EndFollows(run: Run, ref: Ref, ended: Ending, r: Ref)
    requires ValidRef(run, ref) && ValidRef(run, r)
    ensures ValidRef(EndOf(run, ref, ended), r) && Follows(run.holds[r], EndOf(run, ref, ended).holds[r])
  {
  }

  lemma MarkFollows(holds: seq<Claimed>, context: Context, r: Ref)
    requires r < |holds|
    requires forall id | id in context :: context[id] < |holds| && Permits(holds[context[id]].hold)
    ensures Follows(holds[r], Marked(holds, context)[r])
  {
  }

  lemma OwnerStepFollows(s: State, step: Step, r: Ref)
    requires Within(s, step) && !IsStoreStep(step) && ValidRef(s.run, r)
    ensures ValidRef(Apply(s, step).run, r) && Follows(s.run.holds[r], Apply(s, step).run.holds[r])
  {
    match step
    case Spawn(_, _) =>
    case DecisionOnClaim(_, _, _, _) =>
    case EffectRefused(_, _) =>
    case RefusedBefore(_, _) =>
    case EffectStarted(task) => MarkFollows(s.run.holds, ContextOf(s.run, task), r);
    case EndBlock(ref, ended) => EndFollows(s.run, ref, ended, r);
    case ReleaseHold(_) =>
  }

  lemma StoreStepFollows(s: State, step: Step, r: Ref)
    requires Within(s, step) && IsStoreStep(step) && ValidRef(s.run, r)
    ensures
      var t := Apply(s, step);
      && ValidRef(t.run, r)
      && t.run.holds[r] == s.run.holds[r].(block := t.run.holds[r].block)
      && (t.run.holds[r].block != s.run.holds[r].block ==> t.run.holds[r].block.GivenBack?)
  {
  }

  lemma StepFollows(s: State, step: Step, r: Ref)
    requires Within(s, step) && ValidRef(s.run, r)
    ensures ValidRef(Apply(s, step).run, r) && Follows(s.run.holds[r], Apply(s, step).run.holds[r])
  {
    if IsStoreStep(step) {
      StoreStepFollows(s, step, r);
    } else {
      OwnerStepFollows(s, step, r);
    }
  }
}
