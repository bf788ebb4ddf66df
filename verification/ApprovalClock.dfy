/** What a claim needs of the clock, exactly.

    A claim is stamped with the clock as it is, while a decision is stamped later than the record it
    changes. A rejection in SQLite can so carry a later stamp than a claim written to the file store
    alone, and the next start that opens SQLite then keeps the rejection over the spend.
 */
module ApprovalClock {
  import opened Wrappers
  import opened ApprovalModel
  import opened ApprovalStartup
  import opened ApprovalProtocol
  import opened ApprovalInvariant

  // ---- A claim over a start ---------------------------------------------------------------------------------

  /** A start that opens SQLite and whose every write lands. */
  function FullStart(s: State): Step {
    Start(true, Repairs(s.disk), Copies(s.disk))
  }

  function Restarted(s: State): State
    requires s.run.Down?
  {
    Apply(s, FullStart(s))
  }

  /** The claim is written to the file store, and the process dies. */
  function ClaimThenCrash(s: State, step: Step): State
    requires s.run.Up? && Enabled(s, step) && step.BeginClaim?
  {
    AfterFile(Apply(s, step), true).(run := Down)
  }

  /** Made on the file store alone, a claim is what such a start shows exactly if it outlasts SQLite's
      rejection; otherwise the start shows the rejection. */
  lemma ClaimSurvivesExactly(s: State, step: Step)
    requires Inv(s) && s.run.Up? && s.run.primary == FilePrimary && Enabled(s, step) && step.BeginClaim?
    ensures
      var t := Restarted(ClaimThenCrash(s, step));
      && t.run.Up? && step.id in Shown(t)
      && (Shown(t)[step.id].status == Executed <==> ClaimOutlasts(s, step))
      && (Shown(t)[step.id].status == Rejected <==> !ClaimOutlasts(s, step))
  {
    hide EffectsAreSpent, GoodRun, AtMostOnce;
    assert GoodRecord(s.log, step.id, Shown(s)[step.id]);
    var dead := ClaimThenCrash(s, step);
    assert dead.disk.file[step.id] == ClaimedRecord(Shown(s)[step.id], s.clock);
    EachRecordHasItsPlace(dead.disk, step.id);
    NothingCaughtUp(dead.disk);
  }

  // ---- What can be reached ------------------------------------------------------------------------------------

  ghost predicate Reaches(s: State, t: State) {
    exists states, steps :: IsRun(states, steps) && states[0] == s && states[|steps|] == t
  }

  lemma ReachesByStep(s: State, step: Step, t: State)
    requires StepsTo(s, step, t)
    ensures Reaches(s, t)
  {
    var states, steps := [s, t], [step];
    assert IsRun(states, steps) && states[0] == s && states[|steps|] == t;
  }

  lemma ReachesOn(s: State, t: State, u: State)
    requires Reaches(s, t) && Reaches(t, u)
    ensures Reaches(s, u)
  {
    hide StepsTo;
    var first, firstSteps :| IsRun(first, firstSteps) && first[0] == s && first[|firstSteps|] == t;
    var second, secondSteps :| IsRun(second, secondSteps) && second[0] == t && second[|secondSteps|] == u;
    var states, steps := first + second[1..], firstSteps + secondSteps;
    forall i | 0 <= i < |steps| ensures StepsTo(states[i], steps[i], states[i + 1]) {
      if i >= |firstSteps| {
        assert StepsTo(second[i - |firstSteps|], secondSteps[i - |firstSteps|], second[i - |firstSteps| + 1]);
      }
    }
    assert IsRun(states, steps) && states[0] == s && states[|steps|] == u;
  }

  function Written(s: State): State
    requires s.run.Up? && s.run.lock.Held? && !s.run.lock.op.GiveBack?
  {
    var record := s.run.lock.record;
    var disk := Disk(
      s.disk.file[record.id := record],
      if s.run.primary == SqlitePrimary then s.disk.sqlite[record.id := record] else s.disk.sqlite);
    var landed := AtPhase(s, Landed);
    s.(disk := disk, run := Finished(landed, false))
  }

  lemma WriteReaches(s: State)
    requires s.run.Up? && s.run.lock.Held? && s.run.lock.phase == ToFile && !s.run.lock.op.GiveBack?
    ensures Reaches(s, Written(s))
  {
    var filed := AfterFile(s, true);
    ReachesByStep(s, WriteFile(true), filed);
    if s.run.primary == SqlitePrimary {
      var both := AfterSqlite(filed, true);
      ReachesByStep(filed, WriteSqlite(true), both);
      ReachesByStep(both, FinishWrite(false), Written(s));
      ReachesOn(s, filed, both);
      ReachesOn(s, both, Written(s));
    } else {
      ReachesByStep(filed, FinishWrite(false), Written(s));
      ReachesOn(s, filed, Written(s));
    }
  }

  lemma OperationReaches(s: State, step: Step)
    requires Enabled(s, step) && (step.BeginCreate? || step.BeginClaim? || step.BeginDecision?)
    ensures Reaches(s, Written(Apply(s, step)))
  {
    ReachesByStep(s, step, Apply(s, step));
    WriteReaches(Apply(s, step));
    ReachesOn(s, Apply(s, step), Written(Apply(s, step)));
  }

  // ---- A claim that does not outlast ------------------------------------------------------------------------------

  /** A task that carried no hold claims, its action starts, and the process dies. */
  function Acted(s: State, step: Step): State
    requires s.run.Up? && Enabled(s, step) && step.BeginClaim?
  {
    var claimed := Written(Apply(s, step));
    State(claimed.disk, s.clock, Counted(s.log, map[step.id := |s.run.holds|]), Down)
  }

  lemma ClaimActs(s: State, step: Step)
    requires s.run.Up? && Enabled(s, step) && step.BeginClaim? && ContextOf(s.run, step.task) == map[]
    requires Shown(s)[step.id].id == step.id
    ensures Reaches(s, Acted(s, step))
  {
    OperationReaches(s, step);
    hide Reaches;
    var claimed, act := Written(Apply(s, step)), EffectStarted(step.task);
    assert ContextOf(claimed.run, step.task) == map[step.id := |s.run.holds|];
    assert Enabled(claimed, act);
    var acted := Apply(claimed, act);
    ReachesByStep(claimed, act, acted);
    ReachesByStep(acted, Crash, acted.(run := Down));
    ReachesOn(s, claimed, acted);
    ReachesOn(s, acted, acted.(run := Down));
  }

  /** The rejection a start has brought back is approved again, by an operator. */
  function Reapproved(s: State, id: Id): State
    requires s.run.Up? && Enabled(s, BeginDecision(id, Approve, Operator, None, true, 1))
  {
    Written(Apply(s, BeginDecision(id, Approve, Operator, None, true, 1)))
  }

  lemma ReapprovedIsClaimable(s: State, id: Id)
    requires s.run == Booted(SqlitePrimary) && id in Shown(s) && Shown(s)[id].id == id && Shown(s)[id].status == Rejected
    ensures Enabled(s, BeginDecision(id, Approve, Operator, None, true, 1))
    ensures
      var t := Reapproved(s, id);
      && Reaches(s, t) && t.run == Booted(SqlitePrimary) && t.log == s.log
      && id in Shown(t) && Shown(t)[id].id == id && Enabled(t, BeginClaim(0, id, true))
  {
    OperationReaches(s, BeginDecision(id, Approve, Operator, None, true, 1));
  }

  lemma RejectionComesBack(s: State, step: Step)
    requires Inv(s) && s.run.Up? && Enabled(s, step) && step.BeginClaim? && ContextOf(s.run, step.task) == map[]
    requires !ClaimOutlasts(s, step)
    ensures
      var t := Restarted(Acted(s, step));
      && t.run == Booted(SqlitePrimary) && step.id in Shown(t)
      && Shown(t)[step.id].id == step.id && Shown(t)[step.id].status == Rejected
      && step.id in t.log && t.log[step.id] == History(Shown(s)[step.id].request.origin, 1)
  {
    hide EffectsAreSpent, GoodRun, AtMostOnce;
    NotSpentNotOpen(s, step.id);
    assert GoodRecord(s.log, step.id, Shown(s)[step.id]);
    assert GoodRecord(s.log, step.id, s.disk.sqlite[step.id]);
    assert Acted(s, step).disk == ClaimThenCrash(s, step).disk;
    ClaimSurvivesExactly(s, step);
  }

  /** Wherever one claim does not outlast SQLite's rejection, its action can start twice: under that claim,
      and again after a start that brings the rejection back and an operator who approves it anew. */
  lemma BrokenClaimActsTwice(s: State, step: Step)
    requires Inv(s) && s.run.Up? && Enabled(s, step) && step.BeginClaim? && ContextOf(s.run, step.task) == map[]
    requires !ClaimOutlasts(s, step)
    ensures
      exists t :: Reaches(s, t) && step.id in t.log && t.log[step.id] == History(Shown(s)[step.id].request.origin, 2)
  {
    assert GoodRecord(s.log, step.id, Shown(s)[step.id]);
    ClaimActs(s, step);
    RejectionComesBack(s, step);
    var dead := Acted(s, step);
    var up := Restarted(dead);
    hide Reaches, Inv, Restarted, Reapproved, ClaimOutlasts;
    RestartReaches(dead);
    ReapprovedIsClaimable(up, step.id);
    var approved := Reapproved(up, step.id);
    ClaimActs(approved, BeginClaim(0, step.id, true));
    ReachesOn(s, dead, up);
    ReachesOn(s, up, approved);
    ReachesOn(s, approved, Acted(approved, BeginClaim(0, step.id, true)));
  }

  lemma RestartReaches(s: State)
    requires s.run.Down?
    ensures Reaches(s, Restarted(s))
  {
    hide Reaches;
    ReachesByStep(s, FullStart(s), Restarted(s));
  }

  // ---- Such a claim happens ---------------------------------------------------------------------------------------

  const ASKED := Request(Session(0), 0, 0, None, Action)
  const PENDING := NewRecord(0, ASKED, 0)
  const REJECTED := DecidedRecord(PENDING, Reject, Operator, None, 0, 1)
  const APPROVED := DecidedRecord(REJECTED, Approve, Operator, None, 0, 1)

  function Holding(file: Record, sqlite: Record, run: Run): State {
    State(Disk(map[0 := file], map[0 := sqlite]), 0, map[0 := History(Action, 0)], run)
  }

  lemma RejectedReached(s: State)
    requires s == State(Disk(map[], map[]), 0, map[], Down)
    ensures Reaches(s, Holding(REJECTED, REJECTED, Down))
  {
    hide Reaches;
    var up := s.(run := Booted(SqlitePrimary));
    assert Repairs(s.disk) == {} && Copies(s.disk) == {};
    assert CaughtUp(s.disk, {}, {}) == s.disk;
    ReachesByStep(s, Start(true, {}, {}), up);
    CreatedThenRejected(up);
    var rejected := Holding(REJECTED, REJECTED, Booted(SqlitePrimary));
    ReachesByStep(rejected, Crash, rejected.(run := Down));
    ReachesOn(s, up, rejected);
    ReachesOn(s, rejected, rejected.(run := Down));
  }

  lemma CreatedThenRejected(up: State)
    requires up == State(Disk(map[], map[]), 0, map[], Booted(SqlitePrimary))
    ensures Reaches(up, Holding(REJECTED, REJECTED, Booted(SqlitePrimary)))
  {
    OperationReaches(up, BeginCreate(0, ASKED));
    var created := Holding(PENDING, PENDING, Booted(SqlitePrimary));
    assert Written(Apply(up, BeginCreate(0, ASKED))) == created;
    var step := BeginDecision(0, Reject, Operator, None, true, 1);
    OperationReaches(created, step);
    hide Reaches;
    assert Written(Apply(created, step)) == Holding(REJECTED, REJECTED, Booted(SqlitePrimary));
    ReachesOn(up, created, Holding(REJECTED, REJECTED, Booted(SqlitePrimary)));
  }

  const BROKEN := Holding(APPROVED, REJECTED, Booted(FilePrimary))

  lemma BrokenReached()
    ensures Reaches(Holding(REJECTED, REJECTED, Down), BROKEN)
  {
    var down := Holding(REJECTED, REJECTED, Down);
    var up := Holding(REJECTED, REJECTED, Booted(FilePrimary));
    ReachesByStep(down, Start(false, {}, {}), up);
    var step := BeginDecision(0, Approve, Operator, None, true, 1);
    OperationReaches(up, step);
    hide Reaches;
    assert Written(Apply(up, step)) == BROKEN;
    ReachesOn(down, up, BROKEN);
  }

  /** With the clock standing still, an approval rejected through SQLite and approved on the file store alone
      can be claimed in time to act twice. */
  lemma StoppedClockActsTwice()
    ensures exists s, t :: Initial(s) && Reaches(s, t) && 0 in t.log && t.log[0] == History(Action, 2)
  {
    var s := State(Disk(map[], map[]), 0, map[], Down);
    RejectedReached(s);
    BrokenReached();
    hide Reaches;
    ReachesOn(s, Holding(REJECTED, REJECTED, Down), BROKEN);
    BrokenActs();
    var t :| Reaches(BROKEN, t) && 0 in t.log && t.log[0] == History(Action, 2);
    ReachesOn(s, BROKEN, t);
    assert Initial(s);
  }

  lemma BrokenActs()
    ensures exists t :: Reaches(BROKEN, t) && 0 in t.log && t.log[0] == History(Action, 2)
  {
    hide Reaches;
    assert Inv(BROKEN);
    BrokenClaimActsTwice(BROKEN, BeginClaim(0, 0, true));
  }
}
