/** The values the approval protocol works on, and the decisions taken on them.

    Everything here is a pure function of a record, a hold and the clock. The protocol
    (module ApprovalProtocol) runs these functions as steps that interleave and crash, and the
    classes (module ApprovalClasses) are proved to change their fields exactly as they say.
 */
module ApprovalModel {
  import opened Wrappers

  // Ids, tasks and exceptions are only ever compared for equality.
  type Id = nat
  type TaskId = nat
  type Exn = nat
  // Microseconds; the source stores them as ISO-8601 text and compares the parsed instants.
  type Stamp = int

  datatype Status = Pending | Approved | Rejected | Executed

  datatype Decider = Operator | Agent

  datatype Origin = Action | ToolCall

  // The two statuses a decision can ask for.
  datatype Verdict = Approve | Reject

  datatype Scope = Controller | Session(session: nat)

  // What an approval binds: never changed after the record is made. `fields` is the requested
  // action without its unbound fields.
  datatype Request = Request(scope: Scope, kind: nat, fields: nat, owner: Option<nat>, origin: Origin)

  datatype Record = Record(
    id: Id,
    request: Request,
    status: Status,
    updatedAt: Stamp,
    comment: Option<string>,
    decidedVia: Option<Decider>,
    decidedAt: Option<Stamp>,
    expiresAt: Option<Stamp>,
    executedAt: Option<Stamp>)

  // An operator's reject that waits on a claim whose action has not begun.
  datatype Rejection = Rejection(comment: Option<string>, decider: Decider)

  // The value of an ExecutionHold.
  datatype Hold = Hold(
    approval: Id,
    origin: Origin,
    mayGiveBack: bool,
    active: bool,
    effect: bool,
    refusal: Option<Exn>,
    rejection: Option<Rejection>,
    stopped: bool,
    claimCancelled: bool,
    givesBackOnItsOwn: bool)

  // How the block run under a claim ended. Killed is any BaseException the block does not catch.
  datatype Ending = Returned | Raised(exn: Exn) | Cancelled | Killed

  function NewHold(id: Id, origin: Origin, mayGiveBack: bool, cancelled: bool): Hold {
    Hold(id, origin, mayGiveBack, true, false, None, None, false, cancelled, false)
  }

  function NewRecord(id: Id, request: Request, now: Stamp): Record {
    Record(id, request, Pending, now, None, None, None, None, None)
  }

  /** utc_now(), or the stamp plus a microsecond when the clock has not moved past it. */
  function LaterThan(now: Stamp, stamp: Stamp): (later: Stamp)
    ensures later >= now && later > stamp && (later == now || later == stamp + 1)
  {
    if now > stamp then now else stamp + 1
  }

  predicate Expired(record: Record, now: Stamp) {
    record.expiresAt.Some? && record.expiresAt.value <= now
  }

  // ---- Under a hold -------------------------------------------------------------------------

  /** Whether effect_started lets an action start under this hold. */
  predicate Permits(hold: Hold) {
    hold.active && hold.rejection.None? && !(hold.effect && hold.origin == Action)
  }

  /** What effect_started leaves on the hold it refuses for. */
  function Stopped(hold: Hold): Hold {
    if hold.active && hold.rejection.Some? then hold.(stopped := true) else hold
  }

  /** What refused_before_effect leaves on a hold the current task carries. */
  function WithRefusal(hold: Hold, exn: Exn): Hold {
    if hold.active && !hold.effect then hold.(refusal := Some(exn)) else hold
  }

  predicate GivesBackOnItsOwn(hold: Hold, ended: Ending) {
    && hold.mayGiveBack
    && !hold.effect
    && (ended.Cancelled? || (ended.Raised? && hold.refusal == Some(ended.exn)))
  }

  predicate GivesBack(hold: Hold, ended: Ending) {
    && hold.mayGiveBack
    && !hold.effect
    && !ended.Killed?
    && (hold.rejection.Some? || GivesBackOnItsOwn(hold, ended))
  }

  // ---- On a record ----------------------------------------------------------------------------

  predicate Claimable(record: Record, now: Stamp) {
    record.status == Approved && !Expired(record, now)
  }

  function ClaimedRecord(record: Record, now: Stamp): Record {
    record.(status := Executed, updatedAt := now, executedAt := Some(now))
  }

  function GivenBackRecord(record: Record, rejection: Option<Rejection>, now: Stamp): Record {
    var stamp := LaterThan(now, record.updatedAt);
    match rejection
    case None => record.(status := Approved, updatedAt := stamp, executedAt := None)
    case Some(r) =>
      record.(
        status := Rejected, updatedAt := stamp, executedAt := None,
        comment := r.comment, decidedVia := Some(r.decider), decidedAt := Some(stamp), expiresAt := None)
  }

  function DecidedRecord(record: Record, verdict: Verdict, decider: Decider, comment: Option<string>,
                         now: Stamp, ttl: nat): Record {
    var stamp := LaterThan(now, record.updatedAt);
    record.(
      status := if verdict == Approve then Approved else Rejected,
      updatedAt := stamp,
      decidedAt := Some(stamp),
      comment := comment,
      decidedVia := Some(decider),
      expiresAt := if verdict == Approve then Some(stamp + ttl) else None)
  }

  // ---- A decision on an executed record goes to the claim ---------------------------------------

  datatype OnClaim = Deferred | Withdrawn | WithdrawnAfterRefusal | WithdrawnSpent | Conflict

  predicate CanReach(claim: Hold, decider: Decider) {
    decider != Agent && claim.mayGiveBack && !claim.effect
  }

  function DecideOnClaim(claim: Hold, verdict: Verdict, decider: Decider, comment: Option<string>): (Hold, OnClaim) {
    if !CanReach(claim, decider) then (claim, Conflict)
    else if verdict == Reject then (claim.(rejection := Some(Rejection(comment, decider))), Deferred)
    else if claim.rejection.None? then (claim, Conflict)
    else
      var cleared := claim.(rejection := None);
      if !claim.active && !claim.givesBackOnItsOwn then (cleared, WithdrawnSpent)
      else if claim.stopped || !claim.active || claim.refusal.Some? then (cleared, WithdrawnAfterRefusal)
      else (cleared, Withdrawn)
  }

  // ---- Whether an agent may decide --------------------------------------------------------------

  /** An operator's rejection of the same request: same scope, kind and bound fields, and in
      controller scope the same requester. The origin is not compared. */
  predicate RejectionCovers(other: Record, request: Request) {
    && other.status == Rejected
    && other.decidedVia != Some(Agent)
    && other.request.scope == request.scope
    && other.request.kind == request.kind
    && other.request.fields == request.fields
    && (request.scope != Controller || other.request.owner == request.owner)
  }

  predicate OperatorRejected(records: map<Id, Record>, request: Request) {
    exists id | id in records :: RejectionCovers(records[id], request)
  }

  /** Whether decide() lets the decision change a record that is not executed. `whole` is whether the
      approval still has the arguments and the text it was asked with. */
  predicate MayDecide(records: map<Id, Record>, record: Record, verdict: Verdict, decider: Decider, whole: bool) {
    && record.status != Executed
    && (decider == Agent ==> record.status == Pending)
    && (decider == Agent && verdict == Approve ==> !OperatorRejected(records, record.request))
    && (verdict == Approve ==> whole)
  }

  // ---- Start-up -----------------------------------------------------------------------------------

  /** Whether the file's record would turn SQLite's final one to another status. */
  predicate Undoes(kept: Record, record: Record) {
    && kept.status in {Executed, Rejected}
    && record.status != kept.status
    && (kept.status == Executed || record.updatedAt <= kept.updatedAt)
  }
}
