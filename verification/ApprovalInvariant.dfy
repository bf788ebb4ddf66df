/** What every step of the approval protocol keeps. */
module ApprovalInvariant {
  import opened Wrappers
  import opened ApprovalModel
  import opened ApprovalStartup
  import opened ApprovalProtocol

  // ---- The parts of the invariant -------------------------------------------------------------------

  predicate GoodRecord(log: map<Id, History>, id: Id, record: Record) {
    record.id == id && id in log && record.request.origin == log[id].origin
  }

  predicate GoodRecords(log: map<Id, History>, records: map<Id, Record>) {
    forall id | id in records :: GoodRecord(log, id, records[id])
  }

  predicate Effected(log: map<Id, History>, id: Id) {
    id in log && log[id].effects > 0
  }

  predicate AtMostOnce(log: map<Id, History>) {
    forall id | id in log :: log[id].origin == Action ==> log[id].effects <= 1
  }

  /** The file store says spent, and no start would write SQLite's record over it. */
  predicate SpentOnDisk(disk: Disk, id: Id) {
    && id in disk.file
    && disk.file[id].status == Executed
    && (id in disk.sqlite ==> !Undoes(disk.sqlite[id], disk.file[id]))
  }

  predicate SpentIn(disk: Disk, primary: Primary, id: Id) {
    && SpentOnDisk(disk, id)
    && (primary == SqlitePrimary ==> id in disk.sqlite && disk.sqlite[id].status == Executed)
  }

  predicate SpentWhere(s: State, id: Id) {
    if s.run.Up? then SpentIn(s.disk, s.run.primary, id) else SpentOnDisk(s.disk, id)
  }

  predicate EffectsAreSpent(s: State) {
    forall id | id in s.log :: Effected(s.log, id) ==> SpentWhere(s, id)
  }

  predicate IsOpen(c: Claimed) {
    c.block.Running? || c.block.Auditing? || c.block.GivingBack?
  }

  predicate GoodHold(log: map<Id, History>, c: Claimed) {
    && c.hold.approval in log
    && c.hold.origin == log[c.hold.approval].origin
    && (c.hold.active <==> c.block.Running? || c.block.Auditing?)
    && (c.block.GivingBack? || c.block.GivenBack? ==> c.hold.mayGiveBack && !c.hold.effect)
    && (c.block.Auditing? ==> !c.hold.mayGiveBack || c.hold.effect)
    && (c.hold.rejection.Some? ==> c.hold.mayGiveBack && !c.hold.effect && c.hold.rejection.value.decider != Agent)
    && (IsOpen(c) && !c.hold.effect ==> log[c.hold.approval].effects == 0)
  }

  predicate GoodHolds(log: map<Id, History>, holds: seq<Claimed>) {
    forall r | 0 <= r < |holds| :: GoodHold(log, holds[r])
  }

  /** A claim names a hold of its approval; every block still open is its approval's claim. */
  predicate GoodClaims(claims: map<Id, Ref>, holds: seq<Claimed>) {
    && (forall id | id in claims :: claims[id] < |holds| && holds[claims[id]].hold.approval == id)
    && (forall r | 0 <= r < |holds| ::
          IsOpen(holds[r]) ==> holds[r].hold.approval in claims && claims[holds[r].hold.approval] == r)
  }

  predicate GoodContext(context: Context, holds: seq<Claimed>) {
    forall id | id in context :: context[id] < |holds| && holds[context[id]].hold.approval == id
  }

  predicate GoodContexts(carried: map<TaskId, Context>, holds: seq<Claimed>) {
    forall task | task in carried :: GoodContext(carried[task], holds)
  }

  predicate BeingGivenBack(lock: Lock, r: Ref) {
    lock.Held? && lock.op == GiveBack(r)
  }

  /** An open block's approval is spent wherever it is read, until its give-back is written. */
  predicate OpenBlocksAreSpent(s: State)
    requires s.run.Up?
  {
    forall r | 0 <= r < |s.run.holds| && IsOpen(s.run.holds[r]) && !BeingGivenBack(s.run.lock, r) ::
      var id := s.run.holds[r].hold.approval;
      && id in Shown(s)
      && Shown(s)[id].status == Executed
      && (s.run.holds[r].hold.active ==> SpentIn(s.disk, s.run.primary, id))
  }

  predicate NoOpenBlock(holds: seq<Claimed>, id: Id) {
    forall r | 0 <= r < |holds| :: IsOpen(holds[r]) ==> holds[r].hold.approval != id
  }

  /** A record about to be spent that no start would take back. */
  predicate WillBeSpent(disk: Disk, primary: Primary, record: Record) {
    && record.status == Executed
    && (primary == FilePrimary && record.id in disk.sqlite ==> !Undoes(disk.sqlite[record.id], record))
  }

  predicate GoodLock(s: State)
    requires s.run.Up?
  {
    var lock := s.run.lock;
    lock.Held? ==>
      && GoodRecord(s.log, lock.record.id, lock.record)
      && s.log[lock.record.id].effects == 0
      && (lock.phase == ToSqlite || lock.phase == PuttingBack ==> s.run.primary == SqlitePrimary)
      && (lock.phase == ToSqlite ==> lock.record.id in s.disk.file && s.disk.file[lock.record.id] == lock.record)
      && (match lock.op
          case Create => NoOpenBlock(s.run.holds, lock.record.id)
          case Decision => NoOpenBlock(s.run.holds, lock.record.id)
          case Claim(task, mayGiveBack) =>
            && NoOpenBlock(s.run.holds, lock.record.id)
            && WillBeSpent(s.disk, s.run.primary, lock.record)
            && (lock.phase == Landed ==> SpentIn(s.disk, s.run.primary, lock.record.id))
          case GiveBack(r) =>
            && r < |s.run.holds|
            && s.run.holds[r].block.GivingBack?
            && s.run.holds[r].hold.approval == lock.record.id
            && (lock.phase != Landed ==>
                  lock.record.id in Shown(s) && Shown(s)[lock.record.id].status == Executed))
  }

  predicate GoodRun(s: State)
    requires s.run.Up?
  {
    && GoodHolds(s.log, s.run.holds)
    && GoodClaims(s.run.claims, s.run.holds)
    && GoodContexts(s.run.carried, s.run.holds)
    && OpenBlocksAreSpent(s)
    && GoodLock(s)
  }

  predicate Inv(s: State) {
    && GoodRecords(s.log, s.disk.file)
    && GoodRecords(s.log, s.disk.sqlite)
    && AtMostOnce(s.log)
    && EffectsAreSpent(s)
    && (s.run.Up? ==> GoodRun(s))
  }

  // ---- Each step keeps it -----------------------------------------------------------------------------

  lemma KeptByCrashAndStart(s: State, step: Step)
    requires Inv(s) && Enabled(s, step)
    requires step.Tick? || step.Crash? || step.Start? || step.StartDies?
    ensures Inv(Apply(s, step))
  {
    match step
    case Tick(now) =>
      assert s.run.Up? ==> OpenBlocksAreSpent(s) && GoodLock(s);
    case Crash =>
    case Start(sqliteUp, repaired, copied) => KeptByCatchUp(s, repaired, copied);
      StartedViewsAreSpent(s, step);
    case StartDies(repaired, copied) => KeptByCatchUp(s, repaired, copied);
  }

  lemma KeptByCatchUp(s: State, repaired: set<Id>, copied: set<Id>)
    requires s.run.Down? && Inv(s) && repaired <= Repairs(s.disk) && copied <= Copies(s.disk)
    ensures Inv(s.(disk := CaughtUp(s.disk, repaired, copied)))
  {
  }

  lemma StartedViewsAreSpent(s: State, step: Step)
    requires s.run.Down? && Inv(s) && step.Start? && Enabled(s, step)
    ensures Inv(Apply(s, step))
  {
    KeptByCatchUp(s, step.repaired, step.copied);
    var t := Apply(s, step);
    if step.sqliteUp {
      forall id | Effected(s.log, id)
        ensures SpentWhere(t, id)
      {
        assert SpentWhere(s, id);
        assert !KeepsSqlite(s.disk, id);
        assert Differs(s.disk, id) ==> id in Copies(s.disk);
      }
    }
  }

  lemma KeptByBeginCreate(s: State, step: Step)
    requires Inv(s) && Enabled(s, step) && step.BeginCreate?
    ensures Inv(Apply(s, step))
  {
  }

  lemma KeptByBeginClaimOrDecision(s: State, step: Step)
    requires Inv(s) && Enabled(s, step) && ClaimOutlasts(s, step) && (step.BeginClaim? || step.BeginDecision?)
    ensures Inv(Apply(s, step))
  {
    NotSpentNotOpen(s, step.id);
    var t := Apply(s, step);
    assert GoodRecord(s.log, step.id, Shown(s)[step.id]);
    assert OpenBlocksAreSpent(t);
  }

  lemma KeptByBeginGiveBack(s: State, step: Step)
    requires Inv(s) && Enabled(s, step) && step.BeginGiveBack?
    ensures Inv(Apply(s, step))
  {
    var hold := s.run.holds[step.ref].hold;
    if hold.rejection.None? && !hold.givesBackOnItsOwn {
      BlockAnswered(s, step.ref, false);
    } else {
      GiveBackLocks(s, step.ref);
    }
  }

  lemma GiveBackLocks(s: State, ref: Ref)
    requires Inv(s) && s.run.Up? && s.run.lock.Free? && ValidRef(s.run, ref)
    requires s.run.holds[ref].block.GivingBack? && s.run.holds[ref].hold.approval in Shown(s)
    ensures
      var hold := s.run.holds[ref].hold;
      var record := GivenBackRecord(Shown(s)[hold.approval], hold.rejection, s.clock);
      Inv(s.(run := s.run.(lock := Held(GiveBack(ref), record, ToFile))))
  {
  }

  /** The store answers a block that waited to be given back: it is no longer open. */
  lemma BlockAnswered(s: State, ref: Ref, landed: bool)
    requires Inv(s) && s.run.Up? && ValidRef(s.run, ref) && s.run.holds[ref].block.GivingBack?
    requires !BeingGivenBack(s.run.lock, ref)
    ensures Inv(s.(run := WithBlock(s.run, ref, s.run.holds[ref].hold, GivenBack(landed))))
  {
    BlockClosed(s, ref, s.run.holds[ref].(block := GivenBack(landed)));
  }

  /** A block that closes, its hold inactive, leaves everything else as it was. */
  lemma BlockClosed(s: State, ref: Ref, c: Claimed)
    requires Inv(s) && s.run.Up? && ValidRef(s.run, ref) && !BeingGivenBack(s.run.lock, ref)
    requires c == s.run.holds[ref].(hold := s.run.holds[ref].hold.(active := false), block := c.block)
    requires c.block.Released? || (c.block.GivenBack? && s.run.holds[ref].block.GivingBack?)
    ensures Inv(s.(run := s.run.(holds := s.run.holds[ref := c])))
  {
    var t := s.(run := s.run.(holds := s.run.holds[ref := c]));
    forall r | 0 <= r < |t.run.holds| ensures GoodHold(t.log, t.run.holds[r]) {
      assert GoodHold(s.log, s.run.holds[r]);
    }
    ClosedKeepsRun(s, t, ref);
  }

  lemma ClosedKeepsRun(s: State, t: State, ref: Ref)
    requires s.run.Up? && GoodRun(s) && ValidRef(s.run, ref) && !BeingGivenBack(s.run.lock, ref)
    requires t.run.Up? && |t.run.holds| == |s.run.holds| && t == s.(run := s.run.(holds := s.run.holds[ref := t.run.holds[ref]]))
    requires !IsOpen(t.run.holds[ref]) && t.run.holds[ref].hold.approval == s.run.holds[ref].hold.approval
    ensures GoodClaims(t.run.claims, t.run.holds)
    ensures GoodContexts(t.run.carried, t.run.holds)
    ensures OpenBlocksAreSpent(t)
    ensures GoodLock(t)
  {
  }

  /** A record the primary does not show as spent has no open block, and no action started under it. */
  lemma NotSpentNotOpen(s: State, id: Id)
    requires Inv(s) && s.run.Up? && s.run.lock.Free? && id in Shown(s) && Shown(s)[id].status != Executed
    ensures NoOpenBlock(s.run.holds, id)
    ensures id in s.log && s.log[id].effects == 0
  {
  }

  /** A step of a write keeps the invariant if it touches its own record only, as long as the lock
      is good after it. */
  lemma WriteKeepsOthers(s: State, t: State)
    requires Inv(s) && s.run.Up? && s.run.lock.Held?
    requires t.run.Up? && t.run.lock.Held? && t.run == s.run.(lock := s.run.lock.(phase := t.run.lock.phase))
    requires t.log == s.log && t.clock == s.clock
    requires AgreeBut(s.run.lock.record.id, s.disk.file, t.disk.file)
    requires AgreeBut(s.run.lock.record.id, s.disk.sqlite, t.disk.sqlite)
    requires s.run.primary == FilePrimary ==> t.disk.sqlite == s.disk.sqlite
    requires GoodRecords(t.log, t.disk.file) && GoodRecords(t.log, t.disk.sqlite) && GoodLock(t)
    ensures Inv(t)
  {
  }

  ghost predicate AgreeBut(id: Id, a: map<Id, Record>, b: map<Id, Record>) {
    forall other | other != id :: (other in a <==> other in b) && (other in a ==> a[other] == b[other])
  }

  lemma KeptByWrite(s: State, step: Step)
    requires Inv(s) && Enabled(s, step)
    requires step.WriteFile? || step.WriteSqlite? || step.PutFileBack?
    ensures Inv(Apply(s, step))
  {
    if step.WriteFile? {
      FileWritten(s, step.ok);
    } else if step.WriteSqlite? {
      SqliteWritten(s, step.ok);
    } else {
      FilePutBack(s, step.ok);
    }
  }

  lemma FileWritten(s: State, ok: bool)
    requires Inv(s) && s.run.Up? && s.run.lock.Held? && s.run.lock.phase == ToFile
    ensures Inv(AfterFile(s, ok))
  {
    WriteKeepsOthers(s, AfterFile(s, ok));
  }

  lemma SqliteWritten(s: State, ok: bool)
    requires Inv(s) && s.run.Up? && s.run.lock.Held? && s.run.lock.phase == ToSqlite
    ensures Inv(AfterSqlite(s, ok))
  {
    WriteKeepsOthers(s, AfterSqlite(s, ok));
  }

  lemma FilePutBack(s: State, ok: bool)
    requires Inv(s) && s.run.Up? && s.run.lock.Held? && s.run.lock.phase == PuttingBack
    ensures Inv(AfterPutBack(s, ok))
  {
    WriteKeepsOthers(s, AfterPutBack(s, ok));
  }

  /** The lock is let go with nothing landed but the record itself. */
  lemma LockReleased(s: State)
    requires Inv(s) && s.run.Up? && s.run.lock.Held? && !s.run.lock.op.GiveBack?
    ensures Inv(s.(run := s.run.(lock := Free)))
  {
  }

  lemma GiveBackFinished(s: State, landed: bool)
    requires Inv(s) && s.run.Up? && s.run.lock.Held? && s.run.lock.op.GiveBack?
    ensures
      var ref := s.run.lock.op.ref;
      ValidRef(s.run, ref) && Inv(s.(run := WithBlock(s.run.(lock := Free), ref, s.run.holds[ref].hold, GivenBack(landed))))
  {
    var ref := s.run.lock.op.ref;
    var t := s.(run := WithBlock(s.run.(lock := Free), ref, s.run.holds[ref].hold, GivenBack(landed)));
    forall r | 0 <= r < |t.run.holds|
      ensures GoodHold(t.log, t.run.holds[r])
      ensures IsOpen(t.run.holds[r]) ==> IsOpen(s.run.holds[r]) && !BeingGivenBack(s.run.lock, r)
    {
      assert GoodHold(s.log, s.run.holds[r]);
    }
    forall task | task in t.run.carried ensures GoodContext(t.run.carried[task], t.run.holds) {
      assert GoodContext(s.run.carried[task], s.run.holds);
    }
    assert OpenBlocksAreSpent(t);
  }

  lemma LandedClaimHolds(s: State, step: Step)
    requires Inv(s) && Enabled(s, step) && step.FinishWrite? && s.run.lock.op.Claim? && s.run.lock.phase == Landed
    ensures var t := Apply(s, step); GoodHolds(t.log, t.run.holds) && GoodClaims(t.run.claims, t.run.holds)
  {
    var t := Apply(s, step);
    forall r | 0 <= r < |t.run.holds| ensures GoodHold(t.log, t.run.holds[r]) {
      if r < |s.run.holds| {
        assert GoodHold(s.log, s.run.holds[r]);
      }
    }
  }

  lemma LandedClaimIsSpent(s: State, step: Step)
    requires Inv(s) && Enabled(s, step) && step.FinishWrite? && s.run.lock.op.Claim? && s.run.lock.phase == Landed
    ensures OpenBlocksAreSpent(Apply(s, step))
  {
  }

  lemma LandedClaimContexts(s: State, step: Step)
    requires Inv(s) && Enabled(s, step) && step.FinishWrite? && s.run.lock.op.Claim? && s.run.lock.phase == Landed
    ensures var t := Apply(s, step); GoodContexts(t.run.carried, t.run.holds)
  {
    var t := Apply(s, step);
    forall task | task in t.run.carried ensures GoodContext(t.run.carried[task], t.run.holds) {
      assert GoodContext(ContextOf(s.run, task), s.run.holds);
    }
  }

  lemma KeptByLandedClaim(s: State, step: Step)
    requires Inv(s) && Enabled(s, step) && step.FinishWrite? && s.run.lock.op.Claim? && s.run.lock.phase == Landed
    ensures Inv(Apply(s, step))
  {
    hide GoodHolds, GoodClaims, GoodContexts, OpenBlocksAreSpent;
    LandedClaimHolds(s, step);
    LandedClaimIsSpent(s, step);
    LandedClaimContexts(s, step);
  }

  lemma KeptByFinishWrite(s: State, step: Step)
    requires Inv(s) && Enabled(s, step) && step.FinishWrite?
    ensures Inv(Apply(s, step))
  {
    if s.run.lock.op.Claim? && s.run.lock.phase == Landed {
      KeptByLandedClaim(s, step);
    } else {
      if s.run.lock.op.GiveBack? {
        GiveBackFinished(s, s.run.lock.phase == Landed);
      } else {
        LockReleased(s);
      }
    }
  }

  lemma KeptByDecisionOnClaim(s: State, step: Step)
    requires Inv(s) && Enabled(s, step) && step.DecisionOnClaim?
    ensures Inv(Apply(s, step))
  {
    var c := s.run.holds[s.run.claims[step.id]];
    var hold := DecideOnClaim(c.hold, step.verdict, step.decider, step.comment).0;
    assert GoodHold(s.log, c);
    DecisionTouches(c, step.verdict, step.decider, step.comment);
    HoldsTouched(s, s.(run := WithHold(s.run, s.run.claims[step.id], hold)));
  }

  lemma DecisionTouches(c: Claimed, verdict: Verdict, decider: Decider, comment: Option<string>)
    requires c.hold.rejection.Some? ==> c.hold.mayGiveBack && !c.hold.effect && c.hold.rejection.value.decider != Agent
    ensures SameButWaiting(c, c.(hold := DecideOnClaim(c.hold, verdict, decider, comment).0))
  {
  }

  lemma KeptByEffectRefused(s: State, step: Step)
    requires Inv(s) && Enabled(s, step) && step.EffectRefused?
    ensures Inv(Apply(s, step))
  {
    assert GoodHold(s.log, s.run.holds[ContextOf(s.run, step.task)[step.refuser]]);
    HoldsTouched(s, Apply(s, step));
  }

  lemma KeptByRefusedBefore(s: State, step: Step)
    requires Inv(s) && Enabled(s, step) && step.RefusedBefore?
    ensures Inv(Apply(s, step))
  {
    var t := Apply(s, step);
    forall r | 0 <= r < |s.run.holds| ensures SameButWaiting(s.run.holds[r], t.run.holds[r]) {
      assert GoodHold(s.log, s.run.holds[r]);
    }
    HoldsTouched(s, t);
  }

  /** The same claim, but for what waits on it. */
  predicate SameButWaiting(a: Claimed, b: Claimed) {
    && b == a.(hold := a.hold.(rejection := b.hold.rejection, stopped := b.hold.stopped, refusal := b.hold.refusal))
    && (b.hold.rejection.Some? ==> b.hold.mayGiveBack && !b.hold.effect && b.hold.rejection.value.decider != Agent)
  }

  lemma HoldsTouched(s: State, t: State)
    requires Inv(s) && s.run.Up? && t.run.Up? && t == s.(run := s.run.(holds := t.run.holds))
    requires |t.run.holds| == |s.run.holds|
    requires forall r | 0 <= r < |s.run.holds| && s.run.holds[r] != t.run.holds[r] ::
               SameButWaiting(s.run.holds[r], t.run.holds[r])
    ensures Inv(t)
  {
    forall r | 0 <= r < |t.run.holds|
      ensures GoodHold(t.log, t.run.holds[r])
      ensures t.run.holds[r].block == s.run.holds[r].block
      ensures t.run.holds[r].hold.approval == s.run.holds[r].hold.approval
      ensures t.run.holds[r].hold.active == s.run.holds[r].hold.active
    {
      assert GoodHold(s.log, s.run.holds[r]);
    }
    SameShapeKeepsRun(s, t);
  }

  /** Claims, contexts, open blocks and the lock depend on the blocks only, not on what waits on them. */
  lemma SameShapeKeepsRun(s: State, t: State)
    requires s.run.Up? && GoodRun(s) && t.run.Up?
    requires t == s.(run := s.run.(holds := t.run.holds)) && |t.run.holds| == |s.run.holds|
    requires forall r | 0 <= r < |s.run.holds| ::
               && IsOpen(t.run.holds[r]) == IsOpen(s.run.holds[r])
               && t.run.holds[r].block.GivingBack? == (s.run.holds[r].block.GivingBack? || (s.run.holds[r].hold.active && !t.run.holds[r].hold.active))
               && t.run.holds[r].hold.approval == s.run.holds[r].hold.approval
               && (t.run.holds[r].hold.active ==> s.run.holds[r].hold.active)
    ensures GoodClaims(t.run.claims, t.run.holds)
    ensures GoodContexts(t.run.carried, t.run.holds)
    ensures OpenBlocksAreSpent(t)
    ensures GoodLock(t)
  {
  }

  lemma KeptBySpawn(s: State, step: Step)
    requires Inv(s) && Enabled(s, step) && step.Spawn?
    ensures Inv(Apply(s, step))
  {
  }

  lemma KeptByRelease(s: State, ref: Ref)
    requires Inv(s) && s.run.Up? && ValidRef(s.run, ref) && !s.run.holds[ref].block.GivingBack?
    ensures Inv(s.(run := Release(s.run, ref)))
  {
    var c := s.run.holds[ref];
    BlockClosed(s, ref, c.(hold := c.hold.(active := false), block := Released));
    var t := s.(run := WithBlock(s.run, ref, c.hold.(active := false), Released));
    ClaimForgotten(t, Release(s.run, ref).claims, Release(s.run, ref).carried);
  }

  /** A claim with no open block, and any hold a task carries, can be dropped. */
  lemma ClaimForgotten(s: State, claims: map<Id, Ref>, carried: map<TaskId, Context>)
    requires Inv(s) && s.run.Up?
    requires claims.Keys <= s.run.claims.Keys && forall id | id in claims :: claims[id] == s.run.claims[id]
    requires forall r | 0 <= r < |s.run.holds| && IsOpen(s.run.holds[r]) :: s.run.holds[r].hold.approval in claims
    requires forall task | task in carried ::
               task in s.run.carried && carried[task].Keys <= s.run.carried[task].Keys
               && forall id | id in carried[task] :: carried[task][id] == s.run.carried[task][id]
    ensures Inv(s.(run := s.run.(claims := claims, carried := carried)))
  {
  }

  lemma KeptByReleaseHold(s: State, step: Step)
    requires Inv(s) && Enabled(s, step) && step.ReleaseHold?
    ensures Inv(Apply(s, step))
  {
    KeptByRelease(s, step.ref);
  }

  lemma KeptByEnd(s: State, step: Step)
    requires Inv(s) && Enabled(s, step) && step.EndBlock?
    ensures Inv(Apply(s, step))
  {
    var hold := s.run.holds[step.ref].hold;
    if !GivesBack(hold, step.ended) && !hold.claimCancelled {
      KeptByRelease(s, step.ref);
    } else {
      BlockMovedOn(s, Apply(s, step), step.ref);
    }
  }

  lemma BlockMovedOn(s: State, t: State, ref: Ref)
    requires Inv(s) && s.run.Up? && ValidRef(s.run, ref) && s.run.holds[ref].block.Running?
    requires t.run.Up? && |t.run.holds| == |s.run.holds| && t == s.(run := s.run.(holds := t.run.holds))
    requires t.run.holds == s.run.holds[ref := t.run.holds[ref]]
    requires
      var a, b := s.run.holds[ref], t.run.holds[ref];
      && b.hold == a.hold.(active := b.hold.active, givesBackOnItsOwn := b.hold.givesBackOnItsOwn)
      && (if b.hold.active then b.block.Auditing? && (!b.hold.mayGiveBack || b.hold.effect)
          else b.block.GivingBack? && b.hold.mayGiveBack && !b.hold.effect)
    ensures Inv(t)
  {
    forall r | 0 <= r < |t.run.holds|
      ensures GoodHold(t.log, t.run.holds[r])
    {
      assert GoodHold(s.log, s.run.holds[r]);
    }
    SameShapeKeepsRun(s, t);
  }

  lemma KeptByEffectStarted(s: State, step: Step)
    requires Inv(s) && Enabled(s, step) && step.EffectStarted?
    ensures Inv(Apply(s, step))
  {
    var context := ContextOf(s.run, step.task);
    assert GoodContext(context, s.run.holds);
    ActionStarts(s, context);
  }

  lemma ActionStarts(s: State, context: Context)
    requires Inv(s) && s.run.Up? && GoodContext(context, s.run.holds)
    requires forall id | id in context :: Permits(s.run.holds[context[id]].hold)
    ensures Inv(s.(log := Counted(s.log, context), run := s.run.(holds := Marked(s.run.holds, context))))
  {
    var t := s.(run := s.run.(holds := Marked(s.run.holds, context)));
    forall id | id in context
      ensures id in s.log && SpentWhere(s, id)
      ensures s.log[id].origin == Action ==> s.log[id].effects == 0
      ensures s.run.lock.Held? ==> s.run.lock.record.id != id
    {
      ActiveHoldFacts(s, context[id]);
    }
    MarkedHoldsAreGood(s, context);
    SameShapeKeepsRun(s, t);
    CountedKeepsStores(t, context);
  }

  /** Counting an action changes nothing the stores and the lock are held to. */
  lemma CountedKeepsStores(s: State, context: Context)
    requires GoodRecords(s.log, s.disk.file) && GoodRecords(s.log, s.disk.sqlite)
    requires EffectsAreSpent(s) && AtMostOnce(s.log) && s.run.Up? && GoodLock(s) && OpenBlocksAreSpent(s)
    requires forall id | id in context ::
               && id in s.log && SpentWhere(s, id)
               && (s.log[id].origin == Action ==> s.log[id].effects == 0)
               && (s.run.lock.Held? ==> s.run.lock.record.id != id)
    ensures
      var t := s.(log := Counted(s.log, context));
      && GoodRecords(t.log, t.disk.file) && GoodRecords(t.log, t.disk.sqlite)
      && EffectsAreSpent(t) && AtMostOnce(t.log) && GoodLock(t) && OpenBlocksAreSpent(t)
  {
  }

  /** An active hold is its approval's only open block, over a record that is spent and not being written. */
  lemma ActiveHoldFacts(s: State, ref: Ref)
    requires Inv(s) && s.run.Up? && ValidRef(s.run, ref) && s.run.holds[ref].hold.active
    ensures
      var hold := s.run.holds[ref].hold;
      && hold.approval in s.log
      && hold.origin == s.log[hold.approval].origin
      && SpentWhere(s, hold.approval)
      && hold.approval in s.run.claims && s.run.claims[hold.approval] == ref
      && (!hold.effect ==> s.log[hold.approval].effects == 0)
      && (s.run.lock.Held? ==> s.run.lock.record.id != hold.approval)
  {
  }

  lemma MarkedHoldsAreGood(s: State, context: Context)
    requires Inv(s) && s.run.Up? && GoodContext(context, s.run.holds)
    requires forall id | id in context :: Permits(s.run.holds[context[id]].hold)
    ensures GoodHolds(Counted(s.log, context), Marked(s.run.holds, context))
    ensures GoodClaims(s.run.claims, Marked(s.run.holds, context))
    ensures GoodContexts(s.run.carried, Marked(s.run.holds, context))
  {
    var log, holds := Counted(s.log, context), Marked(s.run.holds, context);
    forall r | 0 <= r < |holds|
      ensures GoodHold(log, holds[r])
    {
      assert GoodHold(s.log, s.run.holds[r]);
      if r in context.Values {
        var id :| id in context && context[id] == r;
      } else if IsOpen(holds[r]) && holds[r].hold.approval in context {
        var id := holds[r].hold.approval;
        ActiveHoldFacts(s, context[id]);
        assert s.run.claims[id] == r;
      }
    }
    forall task | task in s.run.carried ensures GoodContext(s.run.carried[task], holds) {
      assert GoodContext(s.run.carried[task], s.run.holds);
    }
  }

  lemma OwnerStepKeepsInv(s: State, step: Step)
    requires Inv(s) && Enabled(s, step)
    requires || step.Spawn? || step.DecisionOnClaim? || step.EffectStarted? || step.EffectRefused?
             || step.RefusedBefore? || step.EndBlock? || step.ReleaseHold?
    ensures Inv(Apply(s, step))
  {
    hide *;
    match step
    case Spawn(_, _) => KeptBySpawn(s, step);
    case DecisionOnClaim(_, _, _, _) => KeptByDecisionOnClaim(s, step);
    case EffectStarted(_) => KeptByEffectStarted(s, step);
    case EffectRefused(_, _) => KeptByEffectRefused(s, step);
    case RefusedBefore(_, _) => KeptByRefusedBefore(s, step);
    case EndBlock(_, _) => KeptByEnd(s, step);
    case ReleaseHold(_) => KeptByReleaseHold(s, step);
  }

  lemma StoreStepKeepsInv(s: State, step: Step)
    requires Inv(s) && Enabled(s, step) && ClaimOutlasts(s, step)
    requires || step.BeginCreate? || step.BeginClaim? || step.BeginDecision? || step.BeginGiveBack?
             || step.WriteFile? || step.WriteSqlite? || step.PutFileBack? || step.FinishWrite?
    ensures Inv(Apply(s, step))
  {
    hide *;
    match step
    case BeginCreate(_, _) => KeptByBeginCreate(s, step);
    case BeginClaim(_, _, _) => KeptByBeginClaimOrDecision(s, step);
    case BeginDecision(_, _, _, _, _, _) => KeptByBeginClaimOrDecision(s, step);
    case BeginGiveBack(_) => KeptByBeginGiveBack(s, step);
    case WriteFile(_) => KeptByWrite(s, step);
    case WriteSqlite(_) => KeptByWrite(s, step);
    case PutFileBack(_) => KeptByWrite(s, step);
    case FinishWrite(_) => KeptByFinishWrite(s, step);
  }

  /** Every step keeps the invariant; a claim, if it outlasts SQLite's rejection. */
  lemma StepKeepsInv(s: State, step: Step)
    requires Inv(s) && Enabled(s, step) && ClaimOutlasts(s, step)
    ensures Inv(Apply(s, step))
  {
    hide *;
    if step.Tick? || step.Crash? || step.Start? || step.StartDies? {
      KeptByCrashAndStart(s, step);
    } else if || step.BeginCreate? || step.BeginClaim? || step.BeginDecision? || step.BeginGiveBack?
              || step.WriteFile? || step.WriteSqlite? || step.PutFileBack? || step.FinishWrite? {
      StoreStepKeepsInv(s, step);
    } else {
      OwnerStepKeepsInv(s, step);
    }
  }
}
