/** The objects of the approval store: holds, the two backends, and the store itself.

    Each method does what the source's does between taking the store lock and letting it go, or
    between two points where it may be interrupted, and is proved to change the fields as the pure
    functions of ApprovalModel and ApprovalStartup say. The protocol interleaves those changes.
 */
module ApprovalClasses {
  import opened Wrappers
  import opened ApprovalModel
  import opened ApprovalStartup

  class ExecutionHold {
    const approvalId: Id
    const origin: Origin
    var mayGiveBack: bool
    var active: bool
    var effect: bool
    var refusal: Option<Exn>
    var rejection: Option<Rejection>
    var stopped: bool
    var claimCancelled: bool
    var givesBackOnItsOwn: bool

    function Value(): Hold
      reads this
    {
      Hold(approvalId, origin, mayGiveBack, active, effect, refusal, rejection, stopped, claimCancelled,
           givesBackOnItsOwn)
    }

    constructor (id: Id, origin: Origin, cancelled: bool)
      ensures Value() == NewHold(id, origin, false, cancelled)
    {
      this.approvalId, this.origin := id, origin;
      mayGiveBack, active, effect, stopped, givesBackOnItsOwn := false, true, false, false, false;
      refusal, rejection := None, None;
      claimCancelled := cancelled;
    }
  }

  datatype Refusal = ApprovalReleased | ApprovalRejected | ApprovalAlreadyUsed

  predicate Distinct(holds: seq<ExecutionHold>) {
    forall i, j | 0 <= i < j < |holds| :: holds[i] != holds[j]
  }

  function Values(holds: seq<ExecutionHold>): seq<Hold>
    reads holds
  {
    seq(|holds|, i requires 0 <= i < |holds| reads holds => holds[i].Value())
  }

  function AllMarked(holds: seq<Hold>): seq<Hold> {
    seq(|holds|, i requires 0 <= i < |holds| => holds[i].(effect := true))
  }

  /** All or nothing over the holds in order: every one marked if each permits the action, and otherwise the
      first that does not is the one that refuses, and the only one touched. */
  method EffectStarted(holds: seq<ExecutionHold>) returns (refusal: Option<Refusal>)
    requires Distinct(holds)
    modifies holds
    ensures refusal.None? <==> forall i | 0 <= i < |holds| :: Permits(old(Values(holds))[i])
    ensures refusal.None? <==>
              forall i | 0 <= i < |holds| ::
                old(holds[i].active && holds[i].rejection.None? && (holds[i].origin == Action ==> !holds[i].effect))
    ensures refusal.None? ==> Values(holds) == AllMarked(old(Values(holds)))
    ensures refusal.Some? ==>
              exists k | 0 <= k < |holds| ::
                var refuser := old(Values(holds))[k];
                && (forall i | 0 <= i < k :: Permits(old(Values(holds))[i]))
                && Values(holds) == old(Values(holds))[k := Stopped(refuser)]
                && holds[k].stopped == (refuser.stopped || (refuser.active && refuser.rejection.Some?))
                && match refusal.value
                   case ApprovalReleased => !refuser.active
                   case ApprovalRejected => refuser.active && refuser.rejection.Some?
                   case ApprovalAlreadyUsed =>
                     refuser.active && refuser.rejection.None? && refuser.effect && refuser.origin == Action
  {
    ghost var before := Values(holds);
    for i := 0 to |holds|
      invariant Values(holds) == before
      invariant forall k | 0 <= k < i :: Permits(before[k])
    {
      var hold := holds[i];
      assert hold.Value() == before[i];
      if !hold.active {
        assert Values(holds) == before[i := Stopped(before[i])];
        return Some(ApprovalReleased);
      }
      if hold.rejection.Some? {
        hold.stopped := true;
        assert Values(holds) == before[i := Stopped(before[i])];
        return Some(ApprovalRejected);
      }
      if hold.effect && hold.origin == Action {
        assert Values(holds) == before[i := Stopped(before[i])];
        return Some(ApprovalAlreadyUsed);
      }
    }
    for i := 0 to |holds|
      invariant forall k | 0 <= k < |holds| ::
                  holds[k].Value() == if k < i then before[k].(effect := true) else before[k]
    {
      holds[i].effect := true;
    }
    return None;
  }

  /** The holds the exception could still give back remember it; the others are untouched. */
  method RefusedBeforeEffect(holds: seq<ExecutionHold>, exn: Exn)
    requires Distinct(holds)
    modifies holds
    ensures forall i | 0 <= i < |holds| :: holds[i].Value() == WithRefusal(old(holds[i].Value()), exn)
    ensures forall i | 0 <= i < |holds| ::
              && holds[i].Value() == old(holds[i].Value()).(refusal := holds[i].refusal)
              && holds[i].refusal == if old(holds[i].active && !holds[i].effect) then Some(exn) else old(holds[i].refusal)
  {
    for i := 0 to |holds|
      invariant forall k | 0 <= k < |holds| ::
                  holds[k].Value() == if k < i then WithRefusal(old(holds[k].Value()), exn) else old(holds[k].Value())
    {
      if holds[i].active && !holds[i].effect {
        holds[i].refusal := Some(exn);
      }
    }
  }

  // ---- The stores ---------------------------------------------------------------------------------------

  /** One backend: a map from id to record, whose writes can fail and then change nothing. */
  class Backend {
    var records: map<Id, Record>

    constructor ()
      ensures records == map[]
    {
      records := map[];
    }

    method Upsert(record: Record, fails: bool) returns (ok: bool)
      modifies this
      ensures ok == !fails
      ensures records == if ok then old(records)[record.id := record] else old(records)
    {
      ok := !fails;
      if ok {
        records := records[record.id := record];
      }
    }

    method Remove(id: Id, fails: bool) returns (ok: bool)
      modifies this
      ensures ok == !fails
      ensures records == if ok then Without(old(records), id) else old(records)
    {
      ok := !fails;
      if ok {
        records := records - {id};
      }
    }
  }

  datatype DecisionReply =
    | NotFound
    | OnTheClaim(reply: OnClaim)
    | NotAllowed
    | Stored
    | WriteFailed

  datatype GiveBackReply = Withdrawn | NoRecord | WrittenBack(record: Record) | NotWrittenBack

  datatype ClaimReply = AlreadyHeld | Refused | ClaimNotWritten | Claimed

  predicate Keyed(records: map<Id, Record>) {
    forall id | id in records :: records[id].id == id
  }

  /** A write shows its record if it is done, and what was shown if it is not. */
  lemma WriteShows(disk: Disk, primary: Primary, record: Record, faults: Faults)
    ensures
      var outcome := WriteOutcome(disk, primary, record, faults);
      View(outcome.0, primary) == if outcome.1 then View(disk, primary)[record.id := record] else View(disk, primary)
  {
  }

  /** What a decision makes of a record: stamped once, at the clock or just past the record where the clock has not
      moved past it; an approve lasts its time to live from then, a reject has no end. */
  predicate IsDecision(before: Record, after: Record, verdict: Verdict, decider: Decider, comment: Option<string>,
                       now: Stamp, ttl: nat) {
    && after.id == before.id && after.request == before.request && after.executedAt == before.executedAt
    && after.comment == comment && after.decidedVia == Some(decider) && after.decidedAt == Some(after.updatedAt)
    && after.updatedAt == (if before.updatedAt < now then now else before.updatedAt + 1)
    && match verdict
       case Approve => after.status == Approved && after.expiresAt == Some(after.updatedAt + ttl)
       case Reject => after.status == Rejected && after.expiresAt == None
  }

  /** What a give-back makes of a spent record: later than it and executed no more, approved with the decision and the
      end it had, or rejected as the operator asked meanwhile. */
  predicate IsGiveBack(before: Record, after: Record, rejection: Option<Rejection>, now: Stamp) {
    && after.id == before.id && after.request == before.request && after.executedAt == None
    && after.updatedAt == (if before.updatedAt < now then now else before.updatedAt + 1)
    && match rejection
       case None =>
         && after.status == Approved && after.comment == before.comment && after.decidedVia == before.decidedVia
         && after.decidedAt == before.decidedAt && after.expiresAt == before.expiresAt
       case Some(asked) =>
         && after.status == Rejected && after.comment == asked.comment && after.decidedVia == Some(asked.decider)
         && after.decidedAt == Some(after.updatedAt) && after.expiresAt == None
  }

  /** Who may not decide a record that is not executed: an agent, one that is decided; an agent, to approve, what anybody
      but an agent has rejected in the same scope, of the same kind, with the same fields, and in controller scope for
      the same requester; anybody, to approve, one that is no longer whole. */
  lemma WhoMayNotDecide(records: map<Id, Record>, record: Record, verdict: Verdict, decider: Decider, whole: bool)
    requires record.status != Executed
    ensures !MayDecide(records, record, verdict, decider, whole) <==>
            || (decider == Agent && record.status != Pending)
            || (verdict == Approve && !whole)
            || (decider == Agent && verdict == Approve && exists other | other in records ::
                  var asked, rejected := record.request, records[other];
                  && rejected.status == Rejected && rejected.decidedVia != Some(Agent)
                  && rejected.request.scope == asked.scope && rejected.request.kind == asked.kind
                  && rejected.request.fields == asked.fields
                  && (asked.scope.Session? || rejected.request.owner == asked.owner))
  {
    forall other | other in records
      ensures RejectionCovers(records[other], record.request) <==>
              var asked, rejected := record.request, records[other];
              && rejected.status == Rejected && rejected.decidedVia != Some(Agent)
              && rejected.request.scope == asked.scope && rejected.request.kind == asked.kind
              && rejected.request.fields == asked.fields
              && (asked.scope.Session? || rejected.request.owner == asked.owner)
    {
    }
  }

  lemma DecidedRecordIsDecision(before: Record, verdict: Verdict, decider: Decider, comment: Option<string>, now: Stamp, ttl: nat)
    ensures IsDecision(before, DecidedRecord(before, verdict, decider, comment, now, ttl), verdict, decider, comment, now, ttl)
  {
  }

  lemma GivenBackRecordIsGiveBack(before: Record, rejection: Option<Rejection>, now: Stamp)
    ensures IsGiveBack(before, GivenBackRecord(before, rejection, now), rejection, now)
  {
  }

  class ApprovalStore {
    const fileStore: Backend
    const sqliteStore: Backend
    var primary: Primary
    // The live claims, by approval id.
    var claims: map<Id, ExecutionHold>

    ghost predicate Valid()
      reads this, fileStore, sqliteStore
    {
      && fileStore != sqliteStore
      && Keyed(fileStore.records) && Keyed(sqliteStore.records)
      && forall id | id in claims :: claims[id].approvalId == id
    }

    function Stores(): Disk
      reads this, fileStore, sqliteStore
    {
      Disk(fileStore.records, sqliteStore.records)
    }

    function Shown(): map<Id, Record>
      reads this, fileStore, sqliteStore
    {
      View(Stores(), primary)
    }

    constructor (fileStore: Backend, sqliteStore: Backend)
      requires fileStore != sqliteStore && Keyed(fileStore.records) && Keyed(sqliteStore.records)
      ensures Valid() && this.fileStore == fileStore && this.sqliteStore == sqliteStore
      ensures primary == FilePrimary && claims == map[]
    {
      this.fileStore, this.sqliteStore := fileStore, sqliteStore;
      primary, claims := FilePrimary, map[];
    }

    /** One write of WriteOutcome, fault by fault. */
    method Write(record: Record, faults: Faults) returns (ok: bool)
      requires Valid()
      modifies fileStore, sqliteStore
      ensures Valid()
      ensures (Stores(), ok) == WriteOutcome(old(Stores()), primary, record, faults)
      ensures ok <==> !faults.file && (primary == SqlitePrimary ==> !faults.sqlite)
      ensures Shown() == if ok then old(Shown())[record.id := record] else old(Shown())
    {
      WriteShows(Stores(), primary, record, faults);
      WriteIsDoneExactly(Stores(), primary, record, faults);
      if primary == FilePrimary {
        ok := fileStore.Upsert(record, faults.file);
        return;
      }
      var before := if record.id in sqliteStore.records then Some(sqliteStore.records[record.id]) else None;
      ok := fileStore.Upsert(record, faults.file);
      if !ok {
        return;
      }
      ok := sqliteStore.Upsert(record, faults.sqlite);
      if !ok {
        PutTheFileBack(record.id, before, faults.putBack);
        assert Stores().file == WriteOutcome(old(Stores()), primary, record, faults).0.file;
      }
    }

    method PutTheFileBack(id: Id, before: Option<Record>, fails: bool)
      requires before.Some? ==> before.value.id == id
      modifies fileStore
      ensures fileStore.records ==
              if fails then old(fileStore.records)
              else if before.Some? then old(fileStore.records)[id := before.value]
              else Without(old(fileStore.records), id)
    {
      var ok: bool;
      if before.None? {
        ok := fileStore.Remove(id, fails);
      } else {
        ok := fileStore.Upsert(before.value, fails);
      }
    }

    /** A decision on a claim: an agent's, or on one whose action has begun or that cannot be given back, is a conflict
        and changes nothing. An operator's reject waits there, and their approve takes back one that waits. */
    method PutOnClaim(claim: ExecutionHold, verdict: Verdict, decider: Decider, comment: Option<string>)
      returns (reply: OnClaim)
      modifies claim
      ensures (claim.Value(), reply) == DecideOnClaim(old(claim.Value()), verdict, decider, comment)
      ensures claim.Value() == old(claim.Value()).(rejection := claim.rejection)
      ensures decider == Agent || old(!claim.mayGiveBack || claim.effect) ==>
                reply == Conflict && claim.rejection == old(claim.rejection)
      ensures decider == Operator && old(claim.mayGiveBack && !claim.effect) && verdict == Reject ==>
                reply == Deferred && claim.rejection == Some(Rejection(comment, Operator))
      ensures decider == Operator && old(claim.mayGiveBack && !claim.effect) && verdict == Approve ==>
                && claim.rejection.None?
                && (reply == Conflict <==> old(claim.rejection.None?))
                && (reply == WithdrawnSpent <==> old(claim.rejection.Some? && !claim.active && !claim.givesBackOnItsOwn))
                && (reply == OnClaim.Withdrawn <==>
                      old(claim.rejection.Some? && claim.active && !claim.stopped && claim.refusal.None?))
    {
      if decider != Agent && claim.mayGiveBack && !claim.effect {
        if verdict == Reject {
          claim.rejection := Some(Rejection(comment, decider));
          return Deferred;
        }
        if claim.rejection.Some? {
          claim.rejection := None;
          if !claim.active && !claim.givesBackOnItsOwn {
            return WithdrawnSpent;
          }
          var refused := claim.stopped || !claim.active || claim.refusal.Some?;
          return if refused then WithdrawnAfterRefusal else OnClaim.Withdrawn;
        }
      }
      return Conflict;
    }

    /** Three exclusive cases by the record: none, executed (only its claim may change), any other (only the
        stores may). */
    method Decide(id: Id, verdict: Verdict, decider: Decider, comment: Option<string>, whole: bool,
                  now: Stamp, ttl: nat, faults: Faults) returns (reply: DecisionReply)
      requires Valid()
      modifies fileStore, sqliteStore, claims.Values
      ensures Valid() && claims == old(claims)
      ensures reply == NotFound <==> id !in old(Shown())
      // An agent's decision of an executed record is a conflict, and changes neither store nor any claim.
      ensures decider == Agent && id in old(Shown()) && old(Shown())[id].status == Executed ==>
                && reply == OnTheClaim(Conflict) && Stores() == old(Stores())
                && forall other | other in claims :: claims[other].Value() == old(claims[other].Value())
      // On an executed record only the claim can change, and only as DecideOnClaim says.
      ensures id in old(Shown()) && old(Shown())[id].status == Executed ==>
                && Stores() == old(Stores())
                && (if id in claims then
                      (claims[id].Value(), reply)
                      == (var decided := DecideOnClaim(old(claims[id].Value()), verdict, decider, comment);
                          (decided.0, OnTheClaim(decided.1)))
                    else reply == OnTheClaim(Conflict))
      // On any other, the decision is written if its decider may take it.
      ensures id in old(Shown()) && old(Shown())[id].status != Executed ==>
                if !MayDecide(old(Shown()), old(Shown())[id], verdict, decider, whole) then
                  reply == NotAllowed && Stores() == old(Stores())
                else
                  var record := DecidedRecord(old(Shown())[id], verdict, decider, comment, now, ttl);
                  (Stores(), reply)
                  == (var outcome := WriteOutcome(old(Stores()), primary, record, faults);
                      (outcome.0, if outcome.1 then Stored else WriteFailed))
      ensures reply == Stored ==>
                && id in Shown() && Shown() == old(Shown())[id := Shown()[id]]
                && IsDecision(old(Shown())[id], Shown()[id], verdict, decider, comment, now, ttl)
                && !faults.file && (primary == SqlitePrimary ==> !faults.sqlite)
      ensures reply != Stored ==> Shown() == old(Shown())
      ensures forall other | other in claims && other != id :: claims[other].Value() == old(claims[other].Value())
    {
      hide WriteOutcome, IsDecision, DecideOnClaim, OperatorRejected;
      var shown := Shown();
      if id !in shown {
        return NotFound;
      }
      var approval := shown[id];
      if approval.status == Executed {
        var onClaim := Conflict;
        if id in claims {
          onClaim := PutOnClaim(claims[id], verdict, decider, comment);
        }
        return OnTheClaim(onClaim);
      }
      if decider == Agent && approval.status != Pending {
        return NotAllowed;
      }
      if decider == Agent && verdict == Approve && OperatorRejected(shown, approval.request) {
        return NotAllowed;
      }
      if verdict == Approve && !whole {
        return NotAllowed;
      }
      DecidedRecordIsDecision(approval, verdict, decider, comment, now, ttl);
      var stamp := if now > approval.updatedAt then now else approval.updatedAt + 1;
      approval := approval.(status := if verdict == Approve then Approved else Rejected);
      approval := approval.(updatedAt := stamp, decidedAt := Some(stamp), comment := comment, decidedVia := Some(decider));
      approval := approval.(expiresAt := if verdict == Approve then Some(stamp + ttl) else None);
      var ok := Write(approval, faults);
      return if ok then Stored else WriteFailed;
    }

    // ---- Claims ---------------------------------------------------------------------------------------

    /** Claim, and so spend: the executed record is written before the hold exists, and the task then carries
        the hold. `context` is what the task carries; `cancelled`, whether the caller was cancelled while the
        write landed. */
    method ClaimExecution(id: Id, context: map<Id, ExecutionHold>, now: Stamp, cancelled: bool, faults: Faults)
      returns (reply: ClaimReply, hold: ExecutionHold?, context': map<Id, ExecutionHold>)
      requires Valid()
      modifies this`claims, fileStore, sqliteStore
      ensures Valid() && primary == old(primary)
      ensures reply == AlreadyHeld <==> id in context && old(context[id].active)
      ensures reply == Refused <==>
                && !(id in context && old(context[id].active))
                && (|| id !in old(Shown()) || old(Shown())[id].status != Approved
                    || (old(Shown())[id].expiresAt.Some? && old(Shown())[id].expiresAt.value <= now))
      ensures reply in {AlreadyHeld, Refused} ==> Stores() == old(Stores())
      ensures reply in {Claimed, ClaimNotWritten} ==>
                && id in old(Shown())
                && var outcome := WriteOutcome(old(Stores()), primary, ClaimedRecord(old(Shown())[id], now), faults);
                   Stores() == outcome.0 && (reply == Claimed <==> outcome.1)
      ensures reply in {Claimed, ClaimNotWritten} ==>
                (reply == Claimed <==> !faults.file && (primary == SqlitePrimary ==> !faults.sqlite))
      ensures reply != Claimed ==> Shown() == old(Shown())
      ensures reply == Claimed ==>
                && id in old(Shown())
                && Shown() == old(Shown())[id := old(Shown())[id].(status := Executed, updatedAt := now, executedAt := Some(now))]
      ensures reply != Claimed ==> hold == null && claims == old(claims) && context' == context
      ensures reply == Claimed ==>
                && hold != null && fresh(hold)
                && hold.Value() == NewHold(id, old(Shown())[id].request.origin, false, cancelled)
                && claims == old(claims)[id := hold] && context' == context[id := hold]
    {
      hold, context' := null, context;
      if id in context && context[id].active {
        reply := AlreadyHeld;
        return;
      }
      var shown := Shown();
      if id !in shown || shown[id].status != Approved {
        reply := Refused;
        return;
      }
      var approval := shown[id];
      if approval.expiresAt.Some? && approval.expiresAt.value <= now {
        reply := Refused;
        return;
      }
      approval := approval.(status := Executed, updatedAt := now, executedAt := Some(now));
      var ok := Write(approval, faults);
      if !ok {
        reply := ClaimNotWritten;
        return;
      }
      var made := new ExecutionHold(id, approval.request.origin, cancelled);
      claims := claims[id := made];
      reply, hold, context' := Claimed, made, context[id := made];
    }

    /** The hold goes inactive for whoever shares the object; the claim map loses it, and no other hold. */
    method RevokeExecution(hold: ExecutionHold)
      requires Valid()
      modifies this`claims, hold`active
      ensures Valid()
      ensures hold.Value() == old(hold.Value()).(active := false)
      ensures claims == if hold.approvalId in old(claims) && old(claims)[hold.approvalId] == hold
                        then old(claims) - {hold.approvalId} else old(claims)
    {
      hold.active := false;
      if hold.approvalId in claims && claims[hold.approvalId] == hold {
        claims := claims - {hold.approvalId};
      }
    }

    /** Revoke, and take the hold out of the owner's context if it is still the one there. */
    method ReleaseExecution(hold: ExecutionHold, context: map<Id, ExecutionHold>) returns (context': map<Id, ExecutionHold>)
      requires Valid()
      modifies this`claims, hold`active
      ensures Valid()
      ensures hold.Value() == old(hold.Value()).(active := false)
      ensures claims == if hold.approvalId in old(claims) && old(claims)[hold.approvalId] == hold
                        then old(claims) - {hold.approvalId} else old(claims)
      ensures context' == if hold.approvalId in context && context[hold.approvalId] == hold
                          then context - {hold.approvalId} else context
    {
      RevokeExecution(hold);
      context' := context;
      if hold.approvalId in context && context[hold.approvalId] == hold {
        context' := context - {hold.approvalId};
      }
    }

    /** One write of GivenBackRecord, or none: when there is nothing left to give back for, or no record. */
    method GiveBack(hold: ExecutionHold, now: Stamp, faults: Faults) returns (reply: GiveBackReply)
      requires Valid()
      modifies fileStore, sqliteStore
      ensures Valid()
      ensures hold.rejection.None? && !hold.givesBackOnItsOwn ==> reply == GiveBackReply.Withdrawn && Stores() == old(Stores())
      ensures (hold.rejection.Some? || hold.givesBackOnItsOwn) && hold.approvalId !in old(Shown()) ==>
                reply == NoRecord && Stores() == old(Stores())
      ensures (hold.rejection.Some? || hold.givesBackOnItsOwn) && hold.approvalId in old(Shown()) ==>
                var record := GivenBackRecord(old(Shown())[hold.approvalId], hold.rejection, now);
                (Stores(), reply)
                == (var outcome := WriteOutcome(old(Stores()), primary, record, faults);
                    (outcome.0, if outcome.1 then WrittenBack(record) else NotWrittenBack))
      ensures reply.WrittenBack? <==>
                && (hold.rejection.Some? || hold.givesBackOnItsOwn) && hold.approvalId in old(Shown())
                && !faults.file && (primary == SqlitePrimary ==> !faults.sqlite)
      ensures reply.WrittenBack? ==>
                && Shown() == old(Shown())[hold.approvalId := reply.record]
                && IsGiveBack(old(Shown())[hold.approvalId], reply.record, hold.rejection, now)
      ensures !reply.WrittenBack? ==> Shown() == old(Shown())
    {
      if hold.rejection.None? && !hold.givesBackOnItsOwn {
        return GiveBackReply.Withdrawn;
      }
      if hold.approvalId !in Shown() {
        return NoRecord;
      }
      var approval := Shown()[hold.approvalId];
      GivenBackRecordIsGiveBack(approval, hold.rejection, now);
      var stamp := if now > approval.updatedAt then now else approval.updatedAt + 1;
      approval := approval.(status := Approved, updatedAt := stamp, executedAt := None);
      if hold.rejection.Some? {
        var rejection := hold.rejection.value;
        approval := approval.(status := Rejected, comment := rejection.comment, decidedVia := Some(rejection.decider));
        approval := approval.(decidedAt := Some(stamp), expiresAt := None);
      }
      var ok := Write(approval, faults);
      return if ok then WrittenBack(approval) else NotWrittenBack;
    }

    /** The end of the block run under a claim. An approval that may be given back, with no effect, comes back on a
        cancellation, on the refusal recorded before the effect, and on any ending but a kill while a rejection waits,
        if its record is there and the write lands. Whatever comes of it the hold is released: it counts in no task,
        is no live claim, and its owner stops carrying it. */
    method EndExecution(hold: ExecutionHold, ended: Ending, context: map<Id, ExecutionHold>, now: Stamp, faults: Faults)
      returns (spent: bool, context': map<Id, ExecutionHold>)
      requires Valid()
      modifies this`claims, hold, fileStore, sqliteStore
      ensures Valid()
      ensures !hold.active && hold.effect == old(hold.effect) && hold.rejection == old(hold.rejection)
      ensures hold.approvalId in claims ==> claims[hold.approvalId] != hold
      ensures !spent <==>
                && old(hold.mayGiveBack && !hold.effect)
                && (match ended
                    case Returned => old(hold.rejection.Some?)
                    case Raised(exn) => old(hold.rejection.Some? || hold.refusal == Some(exn))
                    case Cancelled => true
                    case Killed => false)
                && hold.approvalId in old(Shown()) && !faults.file && (primary == SqlitePrimary ==> !faults.sqlite)
      ensures spent ==> Shown() == old(Shown())
      ensures !spent ==>
                && hold.approvalId in old(Shown()) && hold.approvalId in Shown()
                && Shown() == old(Shown())[hold.approvalId := Shown()[hold.approvalId]]
                && IsGiveBack(old(Shown())[hold.approvalId], Shown()[hold.approvalId], hold.rejection, now)
      ensures context' == if hold.approvalId in context && context[hold.approvalId] == hold
                          then context - {hold.approvalId} else context
    {
      hide WriteOutcome, View, Keyed;
      spent := true;
      if !ended.Killed? && GivesBack(hold.Value(), ended) {
        hold.givesBackOnItsOwn := GivesBackOnItsOwn(hold.Value(), ended);
        hold.active := false;
        var reply := GiveBack(hold, now, faults);
        spent := !reply.WrittenBack?;
      }
      context' := ReleaseExecution(hold, context);
    }

    // ---- Start-up -------------------------------------------------------------------------------------

    /** The listing of the file store: each of its records once. */
    ghost predicate IsListing(listed: seq<Record>)
      reads this, fileStore
    {
      && (forall i, j | 0 <= i < j < |listed| :: listed[i].id != listed[j].id)
      && (forall record | record in listed :: record.id in fileStore.records && fileStore.records[record.id] == record)
      && (forall id | id in fileStore.records :: fileStore.records[id] in listed)
    }

    /** The two passes together are CaughtUp, with every repair that does not fail and a part of the copies: all
        of them unless one fails. `repairFails` and `copyFails` are the ids whose write fails. */
    method CatchSqliteUp(listed: seq<Record>, repairFails: set<Id>, copyFails: set<Id>)
      returns (caughtUp: bool, unrepaired: seq<Id>, ghost copied: set<Id>)
      requires Valid() && IsListing(listed)
      modifies fileStore, sqliteStore
      ensures Valid()
      ensures copied <= Copies(old(Stores()))
      ensures caughtUp <==> copied == Copies(old(Stores()))
      ensures caughtUp <==> Copies(old(Stores())) !! copyFails
      ensures unrepaired != [] <==> Repairs(old(Stores())) * repairFails != {}
      ensures Stores() == CaughtUp(old(Stores()), Repairs(old(Stores())) - repairFails, copied)
    {
      ghost var before := Stores();
      var copies: seq<Record>;
      copies, unrepaired := RepairTheFile(listed, repairFails);
      caughtUp, copied := CopyAll(copies, copyFails, before, Repairs(before) - repairFails);
      if caughtUp {
        forall id | id in Copies(before) ensures id in copied {
          assert before.file[id] in copies;
        }
      }
    }

    /** The first pass: what is kept of SQLite's goes over the file's, the rest is to be copied. */
    method RepairTheFile(listed: seq<Record>, repairFails: set<Id>) returns (copies: seq<Record>, unrepaired: seq<Id>)
      requires Valid() && IsListing(listed)
      modifies fileStore
      ensures Valid()
      ensures Stores() == CaughtUp(old(Stores()), Repairs(old(Stores())) - repairFails, {})
      ensures unrepaired != [] <==> Repairs(old(Stores())) * repairFails != {}
      ensures forall c | c in copies :: c.id in Copies(old(Stores())) && old(Stores()).file[c.id] == c
      ensures forall id | id in Copies(old(Stores())) :: old(Stores()).file[id] in copies
    {
      NothingCaughtUp(Stores());
      hide CaughtUp, Repairs, Copies;
      ghost var before := Stores();
      var held := sqliteStore.records;
      copies, unrepaired := [], [];
      ghost var repaired: set<Id> := {};
      for i := 0 to |listed|
        invariant Valid()
        invariant repaired <= Repairs(before) - repairFails
        invariant Stores() == CaughtUp(before, repaired, {})
        invariant unrepaired != [] ==> Repairs(before) * repairFails != {}
        invariant forall k | 0 <= k < i :: listed[k].id in Repairs(before) ==>
                    if listed[k].id in repairFails then unrepaired != [] else listed[k].id in repaired
        invariant forall c | c in copies :: c.id in Copies(before) && before.file[c.id] == c
        invariant forall k | 0 <= k < i :: listed[k].id in Copies(before) ==> listed[k] in copies
      {
        var record := listed[i];
        assert record in listed;
        EachRecordHasItsPlace(before, record.id);
        if record.id in held && held[record.id] == record {
          continue;
        }
        if record.id !in held || !Undoes(held[record.id], record) {
          copies := copies + [record];
          continue;
        }
        CaughtUpByOne(before, repaired, {}, record.id);
        var ok := fileStore.Upsert(held[record.id], record.id in repairFails);
        if ok {
          repaired := repaired + {record.id};
        } else {
          assert record.id in Repairs(before) * repairFails;
          unrepaired := unrepaired + [record.id];
        }
      }
      forall id | id in Repairs(before) ensures if id in repairFails then unrepaired != [] else id in repaired {
        assert before.file[id] in listed;
      }
      assert repaired == Repairs(before) - repairFails;
    }

    /** The second pass, up to the first copy that fails. */
    method CopyAll(copies: seq<Record>, copyFails: set<Id>, ghost before: Disk, ghost repaired: set<Id>)
      returns (done: bool, ghost copied: set<Id>)
      requires Valid() && repaired <= Repairs(before)
      requires Stores() == CaughtUp(before, repaired, {})
      requires forall c | c in copies :: c.id in Copies(before) && before.file[c.id] == c
      modifies sqliteStore
      ensures Valid()
      ensures copied <= Copies(before)
      ensures Stores() == CaughtUp(before, repaired, copied)
      ensures done <==> forall c | c in copies :: c.id !in copyFails
      ensures done <==> forall c | c in copies :: c.id in copied
    {
      hide CaughtUp, Repairs, Copies;
      copied := {};
      for i := 0 to |copies|
        invariant Valid()
        invariant copied <= Copies(before) && copied !! copyFails
        invariant Stores() == CaughtUp(before, repaired, copied)
        invariant forall k | 0 <= k < i :: copies[k].id in copied
      {
        assert copies[i] in copies;
        var ok := sqliteStore.Upsert(copies[i], copies[i].id in copyFails);
        if !ok {
          return false, copied;
        }
        CaughtUpByOne(before, repaired, copied, copies[i].id);
        copied := copied + {copies[i].id};
      }
      done := true;
    }

    /** StartChoice of what landed; `started` is false where it is Untrusted. */
    method Startup(sqliteOpens: bool, listed: seq<Record>, repairFails: set<Id>, copyFails: set<Id>)
      returns (started: bool, ghost copied: set<Id>)
      requires Valid() && IsListing(listed)
      modifies this`primary, fileStore, sqliteStore
      ensures Valid()
      ensures !sqliteOpens ==> started && primary == FilePrimary && Stores() == old(Stores())
      ensures sqliteOpens ==>
                var repaired := Repairs(old(Stores())) - repairFails;
                && copied <= Copies(old(Stores()))
                && (copied == Copies(old(Stores())) <==> Copies(old(Stores())) !! copyFails)
                && Stores() == CaughtUp(old(Stores()), repaired, copied)
                && StartChoice(old(Stores()), true, repaired, copied) == (if started then Started(primary) else Untrusted)
      ensures started && primary == SqlitePrimary <==> sqliteOpens && Copies(old(Stores())) !! copyFails
      ensures !started <==>
                sqliteOpens && !(Copies(old(Stores())) !! copyFails) && Repairs(old(Stores())) * repairFails != {}
    {
      primary := FilePrimary;
      if !sqliteOpens {
        return true, {};
      }
      ghost var repairs := Repairs(Stores());
      var caughtUp: bool, unrepaired: seq<Id>;
      caughtUp, unrepaired, copied := CatchSqliteUp(listed, repairFails, copyFails);
      if unrepaired == [] {
        assert forall id | id in repairs :: id !in repairs * repairFails;
      } else {
        ghost var id :| id in repairs * repairFails;
        assert id !in repairs - repairFails;
      }
      if caughtUp {
        primary := SqlitePrimary;
        started := true;
      } else {
        started := unrepaired == [];
      }
    }
  }
}
