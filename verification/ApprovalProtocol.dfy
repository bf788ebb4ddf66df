/** The approval protocol as a state machine.

    Persistent: the two stores and the clock. Volatile, dropped by a crash: which store is primary,
    the live claims, the holds, which task carries which holds, and the operation that has the store
    lock. A write under the lock is several steps (the file, then SQLite, then perhaps putting the
    file back), and holds change freely between them. `log` is history: every approval ever made,
    and how often an action started under it.
 */
module ApprovalProtocol {
  import opened Wrappers
  import opened ApprovalModel
  import opened ApprovalStartup

  type Ref = nat

  datatype Op = Create | Decision | Claim(task: TaskId, mayGiveBack: bool) | GiveBack(ref: Ref)

  datatype Phase = ToFile | ToSqlite | PuttingBack | Landed | Failed

  datatype Lock = Free | Held(op: Op, record: Record, phase: Phase)

  // Where the block that owns a hold is. Auditing: its cancelled claim is being recorded. GivingBack:
  // it waits for the store to give the approval back. GivenBack: the store has answered.
  datatype Block = Running | Auditing | GivingBack | GivenBack(landed: bool) | Released

  datatype Claimed = Claimed(hold: Hold, owner: TaskId, block: Block)

  type Context = map<Id, Ref>

  datatype Run =
    | Down
    | Up(primary: Primary, claims: map<Id, Ref>, holds: seq<Claimed>, carried: map<TaskId, Context>, lock: Lock)

  datatype History = History(origin: Origin, effects: nat)

  datatype State = State(disk: Disk, clock: Stamp, log: map<Id, History>, run: Run)

  datatype Step =
    | Tick(now: Stamp)
    | Spawn(parent: TaskId, child: TaskId)
    | BeginCreate(id: Id, request: Request)
    | BeginClaim(task: TaskId, id: Id, mayGiveBack: bool)
    | BeginDecision(id: Id, verdict: Verdict, decider: Decider, comment: Option<string>, whole: bool, ttl: nat)
    | DecisionOnClaim(id: Id, verdict: Verdict, decider: Decider, comment: Option<string>)
    | BeginGiveBack(ref: Ref)
    | WriteFile(ok: bool)
    | WriteSqlite(ok: bool)
    | PutFileBack(ok: bool)
    | FinishWrite(cancelled: bool)
    | EffectStarted(task: TaskId)
    | EffectRefused(task: TaskId, refuser: Id)
    | RefusedBefore(task: TaskId, exn: Exn)
    | EndBlock(ref: Ref, ended: Ending)
    | ReleaseHold(ref: Ref)
    | Crash
    | Start(sqliteUp: bool, repaired: set<Id>, copied: set<Id>)
    | StartDies(repaired: set<Id>, copied: set<Id>)

  predicate Initial(s: State) {
    s.disk == Disk(map[], map[]) && s.log == map[] && s.run == Down
  }

  function Shown(s: State): map<Id, Record>
    requires s.run.Up?
  {
    View(s.disk, s.run.primary)
  }

  function ContextOf(run: Run, task: TaskId): Context
    requires run.Up?
  {
    if task in run.carried then run.carried[task] else map[]
  }

  predicate ValidRef(run: Run, ref: Ref) {
    run.Up? && ref < |run.holds|
  }

  /** Every hold a context names exists. */
  predicate RefsExist(run: Run, context: Context)
    requires run.Up?
  {
    forall id | id in context :: context[id] < |run.holds|
  }

  predicate ActiveIn(run: Run, task: TaskId, id: Id)
    requires run.Up?
  {
    var context := ContextOf(run, task);
    id in context && context[id] < |run.holds| && run.holds[context[id]].hold.active
  }

  // ---- When a step can happen -------------------------------------------------------------------

  predicate Enabled(s: State, step: Step) {
    match step
    case Tick(now) => true
    case Crash => s.run.Up?
    case Start(sqliteUp, repaired, copied) =>
      && s.run.Down?
      && (if sqliteUp then repaired <= Repairs(s.disk) && copied <= Copies(s.disk) else repaired == copied == {})
    case StartDies(repaired, copied) =>
      s.run.Down? && repaired <= Repairs(s.disk) && copied <= Copies(s.disk)
    case _ => s.run.Up? && EnabledUp(s, step)
  }

  predicate EnabledUp(s: State, step: Step)
    requires s.run.Up?
  {
    var run := s.run;
    match step
    case Spawn(parent, child) => child !in run.carried
    case BeginCreate(id, request) => run.lock.Free? && id !in s.log
    case BeginClaim(task, id, mayGiveBack) =>
      && run.lock.Free?
      && !ActiveIn(run, task, id)
      && id in Shown(s)
      && Claimable(Shown(s)[id], s.clock)
    case BeginDecision(id, verdict, decider, comment, whole, ttl) =>
      && run.lock.Free?
      && id in Shown(s)
      && MayDecide(Shown(s), Shown(s)[id], verdict, decider, whole)
    case DecisionOnClaim(id, verdict, decider, comment) =>
      && run.lock.Free?
      && id in Shown(s)
      && Shown(s)[id].status == Executed
      && id in run.claims
      && ValidRef(run, run.claims[id])
    case BeginGiveBack(ref) =>
      && run.lock.Free?
      && ValidRef(run, ref)
      && run.holds[ref].block.GivingBack?
      && run.holds[ref].hold.approval in Shown(s)
    case WriteFile(ok) => run.lock.Held? && run.lock.phase == ToFile
    case WriteSqlite(ok) => run.lock.Held? && run.lock.phase == ToSqlite
    case PutFileBack(ok) => run.lock.Held? && run.lock.phase == PuttingBack
    case FinishWrite(cancelled) =>
      && run.lock.Held?
      && run.lock.phase in {Landed, Failed}
      && (run.lock.op.GiveBack? ==> ValidRef(run, run.lock.op.ref))
    case EffectStarted(task) =>
      var context := ContextOf(run, task);
      && RefsExist(run, context)
      && forall id | id in context :: Permits(run.holds[context[id]].hold)
    case EffectRefused(task, refuser) =>
      var context := ContextOf(run, task);
      && refuser in context
      && context[refuser] < |run.holds|
      && !Permits(run.holds[context[refuser]].hold)
    case RefusedBefore(task, exn) => RefsExist(run, ContextOf(run, task))
    case EndBlock(ref, ended) =>
      && ValidRef(run, ref)
      && run.holds[ref].block.Running?
      && (run.holds[ref].hold.claimCancelled ==> ended.Cancelled?)
    case ReleaseHold(ref) =>
      ValidRef(run, ref) && (run.holds[ref].block.Auditing? || run.holds[ref].block.GivenBack?)
    case _ => false
  }

  // ---- What a step does -----------------------------------------------------------------------------

  function WithHold(run: Run, ref: Ref, hold: Hold): Run
    requires ValidRef(run, ref)
  {
    run.(holds := run.holds[ref := run.holds[ref].(hold := hold)])
  }

  function WithBlock(run: Run, ref: Ref, hold: Hold, block: Block): Run
    requires ValidRef(run, ref)
  {
    run.(holds := run.holds[ref := run.holds[ref].(hold := hold, block := block)])
  }

  /** release_execution: the hold stops counting in every task, and its owner stops carrying it. A
      newer claim of the same approval is left alone. */
  function Release(run: Run, ref: Ref): Run
    requires ValidRef(run, ref)
  {
    var c := run.holds[ref];
    var id := c.hold.approval;
    var context := ContextOf(run, c.owner);
    WithBlock(run, ref, c.hold.(active := false), Released).(
      claims := if id in run.claims && run.claims[id] == ref then run.claims - {id} else run.claims,
      carried := if id in context && context[id] == ref then run.carried[c.owner := context - {id}] else run.carried)
  }

  function Marked(holds: seq<Claimed>, context: Context): seq<Claimed> {
    seq(|holds|, i requires 0 <= i < |holds| =>
      if i in context.Values then holds[i].(hold := holds[i].hold.(effect := true)) else holds[i])
  }

  function WithRefusals(holds: seq<Claimed>, context: Context, exn: Exn): seq<Claimed> {
    seq(|holds|, i requires 0 <= i < |holds| =>
      if i in context.Values then holds[i].(hold := WithRefusal(holds[i].hold, exn)) else holds[i])
  }

  /** The log once an action has started under every approval in `context`. */
  function Counted(log: map<Id, History>, context: Context): map<Id, History> {
    map id | id in log :: if id in context then log[id].(effects := log[id].effects + 1) else log[id]
  }

  function EndOf(run: Run, ref: Ref, ended: Ending): Run
    requires ValidRef(run, ref)
  {
    var hold := run.holds[ref].hold;
    if GivesBack(hold, ended) then
      WithBlock(run, ref, hold.(active := false, givesBackOnItsOwn := GivesBackOnItsOwn(hold, ended)), GivingBack)
    else if hold.claimCancelled then WithBlock(run, ref, hold, Auditing)
    else Release(run, ref)
  }

  /** give_back, up to its first write: nothing when only a reject that has been withdrawn made the
      ending give back. */
  function GiveBackBegun(s: State, ref: Ref): Run
    requires s.run.Up? && ValidRef(s.run, ref) && s.run.holds[ref].hold.approval in Shown(s)
  {
    var hold := s.run.holds[ref].hold;
    if hold.rejection.None? && !hold.givesBackOnItsOwn then WithBlock(s.run, ref, hold, GivenBack(false))
    else
      s.run.(lock := Held(GiveBack(ref), GivenBackRecord(Shown(s)[hold.approval], hold.rejection, s.clock), ToFile))
  }

  function WithFile(s: State, id: Id, record: Option<Record>): State {
    s.(disk := s.disk.(file := if record.Some? then s.disk.file[id := record.value] else s.disk.file - {id}))
  }

  function AtPhase(s: State, phase: Phase): State
    requires s.run.Up? && s.run.lock.Held?
  {
    s.(run := s.run.(lock := s.run.lock.(phase := phase)))
  }

  function Lookup(records: map<Id, Record>, id: Id): Option<Record> {
    if id in records then Some(records[id]) else None
  }

  function AfterFile(s: State, ok: bool): State
    requires s.run.Up? && s.run.lock.Held?
  {
    if !ok then AtPhase(s, Failed)
    else
      var record := s.run.lock.record;
      AtPhase(WithFile(s, record.id, Some(record)), if s.run.primary == SqlitePrimary then ToSqlite else Landed)
  }

  function AfterSqlite(s: State, ok: bool): State
    requires s.run.Up? && s.run.lock.Held?
  {
    if !ok then AtPhase(s, PuttingBack)
    else
      var record := s.run.lock.record;
      AtPhase(s, Landed).(disk := s.disk.(sqlite := s.disk.sqlite[record.id := record]))
  }

  /** The file goes back to the record SQLite still holds, none: removed. */
  function AfterPutBack(s: State, ok: bool): State
    requires s.run.Up? && s.run.lock.Held?
  {
    var id := s.run.lock.record.id;
    if !ok then AtPhase(s, Failed) else AtPhase(WithFile(s, id, Lookup(s.disk.sqlite, id)), Failed)
  }

  function Finished(s: State, cancelled: bool): Run
    requires s.run.Up? && s.run.lock.Held?
    requires s.run.lock.op.GiveBack? ==> ValidRef(s.run, s.run.lock.op.ref)
  {
    var run := s.run.(lock := Free);
    var landed := s.run.lock.phase == Landed;
    match s.run.lock.op
    case Create => run
    case Decision => run
    case GiveBack(ref) => WithBlock(run, ref, run.holds[ref].hold, GivenBack(landed))
    case Claim(task, mayGiveBack) =>
      if !landed then run
      else
        var record := s.run.lock.record;
        var hold := NewHold(record.id, record.request.origin, mayGiveBack, cancelled);
        run.(
          claims := run.claims[record.id := |run.holds|],
          holds := run.holds + [Claimed(hold, task, Running)],
          carried := run.carried[task := ContextOf(run, task)[record.id := |run.holds|]])
  }

  function Booted(primary: Primary): Run {
    Up(primary, map[], [], map[], Free)
  }

  function Apply(s: State, step: Step): State
    requires Enabled(s, step)
  {
    match step
    case Tick(now) => s.(clock := now)
    case Crash => s.(run := Down)
    case Start(sqliteUp, repaired, copied) =>
      var choice := StartChoice(s.disk, sqliteUp, repaired, copied);
      s.(disk := if sqliteUp then CaughtUp(s.disk, repaired, copied) else s.disk,
         run := if choice.Started? then Booted(choice.primary) else Down)
    case StartDies(repaired, copied) => s.(disk := CaughtUp(s.disk, repaired, copied))
    case _ => ApplyUp(s, step)
  }

  function ApplyUp(s: State, step: Step): State
    requires s.run.Up? && EnabledUp(s, step)
  {
    var run := s.run;
    match step
    case Spawn(parent, child) => s.(run := run.(carried := run.carried[child := ContextOf(run, parent)]))
    case BeginCreate(id, request) =>
      s.(log := s.log[id := History(request.origin, 0)],
         run := run.(lock := Held(Create, NewRecord(id, request, s.clock), ToFile)))
    case BeginClaim(task, id, mayGiveBack) =>
      s.(run := run.(lock := Held(Claim(task, mayGiveBack), ClaimedRecord(Shown(s)[id], s.clock), ToFile)))
    case BeginDecision(id, verdict, decider, comment, whole, ttl) =>
      s.(run := run.(lock := Held(Decision, DecidedRecord(Shown(s)[id], verdict, decider, comment, s.clock, ttl), ToFile)))
    case DecisionOnClaim(id, verdict, decider, comment) =>
      var ref := run.claims[id];
      s.(run := WithHold(run, ref, DecideOnClaim(run.holds[ref].hold, verdict, decider, comment).0))
    case BeginGiveBack(ref) => s.(run := GiveBackBegun(s, ref))
    case WriteFile(ok) => AfterFile(s, ok)
    case WriteSqlite(ok) => AfterSqlite(s, ok)
    case PutFileBack(ok) => AfterPutBack(s, ok)
    case FinishWrite(cancelled) => s.(run := Finished(s, cancelled))
    case EffectStarted(task) =>
      var context := ContextOf(run, task);
      s.(log := Counted(s.log, context), run := run.(holds := Marked(run.holds, context)))
    case EffectRefused(task, refuser) =>
      var ref := ContextOf(run, task)[refuser];
      s.(run := WithHold(run, ref, Stopped(run.holds[ref].hold)))
    case RefusedBefore(task, exn) =>
      s.(run := run.(holds := WithRefusals(run.holds, ContextOf(run, task), exn)))
    case EndBlock(ref, ended) => s.(run := EndOf(run, ref, ended))
    case ReleaseHold(ref) => s.(run := Release(run, ref))
  }

  // ---- Runs -------------------------------------------------------------------------------------------

  /** What a claim needs of the clock: written to the file store alone, it is stamped past SQLite's rejection
      of its record, if SQLite holds one. Nothing else is asked of the clock, which may go back. */
  predicate ClaimOutlasts(s: State, step: Step) {
    step.BeginClaim? && s.run.Up? && s.run.primary == FilePrimary && step.id in s.disk.sqlite
      && s.disk.sqlite[step.id].status == Rejected ==>
      s.disk.sqlite[step.id].updatedAt < s.clock
  }

  predicate StepsTo(s: State, step: Step, t: State) {
    Enabled(s, step) && t == Apply(s, step)
  }

  /** `states[i]` becomes `states[i + 1]` by `steps[i]`. */
  predicate IsRun(states: seq<State>, steps: seq<Step>) {
    && |states| == |steps| + 1
    && forall i | 0 <= i < |steps| :: StepsTo(states[i], steps[i], states[i + 1])
  }

  predicate ClaimsOutlast(states: seq<State>, steps: seq<Step>)
    requires IsRun(states, steps)
  {
    forall i | 0 <= i < |steps| :: ClaimOutlasts(states[i], steps[i])
  }
}
