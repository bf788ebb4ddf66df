/** The status machine of a background agent job: the store's operations on one record. */
module AgentJobs {

  type JobId = nat

  datatype Status = Queued | Running | Cancelling | Completed | Failed | Interrupted | Cancelled | Discarded

  datatype Reply = NotFound | Unchanged | Changed | Refused

  // ---- What each operation makes of a status ------------------------------------------------------------

  function Finished(status: Status, ended: Status): Status {
    if status == Cancelling then Cancelled else if status in {Cancelled, Discarded} then status else ended
  }

  function Stopped(userCancelled: bool): Status {
    if userCancelled then Cancelled else Interrupted
  }

  function CancelRequested(status: Status): (Status, Reply) {
    match status
    case Queued => (Cancelled, Changed)
    case Running => (Cancelling, Changed)
    case Cancelling => (status, Unchanged)
    case Cancelled => (status, Unchanged)
    case _ => (status, Refused)
  }

  function QueuedInterrupted(status: Status): (Status, Reply) {
    if status == Queued then (Interrupted, Changed) else (status, Unchanged)
  }

  function DiscardRequested(status: Status): (Status, Reply) {
    if status in {Running, Cancelling} then (status, Refused)
    else if status == Discarded then (status, Unchanged)
    else (Discarded, Changed)
  }

  /** What a restart makes of a status: whatever was under way is over. */
  function Restarted(status: Status): Status {
    match status
    case Running => Interrupted
    case Cancelling => Cancelled
    case _ => status
  }

  function AllRestarted(records: map<JobId, Status>): map<JobId, Status> {
    map id | id in records :: Restarted(records[id])
  }

  // ---- The store ----------------------------------------------------------------------------------------

  class AgentJobStore {
    var records: map<JobId, Status>

    constructor ()
      ensures records == map[]
    {
      records := map[];
    }

    method Create(id: JobId)
      modifies this
      ensures records == old(records)[id := Queued]
    {
      records := records[id := Queued];
    }

    /** The one way to running: only a queued record starts. */
    method StartQueued(id: JobId) returns (reply: Reply)
      modifies this
      ensures reply == if id !in old(records) then NotFound else if old(records)[id] == Queued then Changed else Unchanged
      ensures records == if reply == Changed then old(records)[id := Running] else old(records)
    {
      if id !in records {
        return NotFound;
      }
      if records[id] != Queued {
        return Unchanged;
      }
      records := records[id := Running];
      return Changed;
    }

    method Finish(id: JobId, ended: Status) returns (reply: Reply)
      requires ended in {Completed, Failed}
      modifies this
      ensures reply == if id in old(records) then Changed else NotFound
      ensures records == if id in old(records) then old(records)[id := Finished(old(records)[id], ended)] else old(records)
      ensures id in old(records) ==>
                && (old(records)[id] == Cancelling ==> records[id] == Cancelled)
                && (old(records)[id] in {Cancelled, Discarded} ==> records[id] == old(records)[id])
                && (old(records)[id] !in {Cancelling, Cancelled, Discarded} ==> records[id] == ended)
    {
      if id !in records {
        return NotFound;
      }
      if records[id] == Cancelling {
        records := records[id := Cancelled];
      } else if records[id] != Cancelled && records[id] != Discarded {
        records := records[id := ended];
      }
      return Changed;
    }

    method FinishCancelled(id: JobId, userCancelled: bool) returns (reply: Reply)
      modifies this
      ensures reply == if id in old(records) then Changed else NotFound
      ensures records == if id in old(records) then old(records)[id := Stopped(userCancelled)] else old(records)
      ensures id in old(records) ==> records[id] == if userCancelled then Cancelled else Interrupted
    {
      if id !in records {
        return NotFound;
      }
      records := records[id := if userCancelled then Cancelled else Interrupted];
      return Changed;
    }

    method RequestCancel(id: JobId) returns (reply: Reply)
      modifies this
      ensures (records, reply) ==
              if id in old(records) then
                (old(records)[id := CancelRequested(old(records)[id]).0], CancelRequested(old(records)[id]).1)
              else (old(records), NotFound)
      ensures reply == Changed <==> id in old(records) && old(records)[id] in {Queued, Running}
      ensures reply == Changed ==> records[id] == if old(records)[id] == Queued then Cancelled else Cancelling
      ensures reply == Unchanged <==> id in old(records) && old(records)[id] in {Cancelling, Cancelled}
      ensures reply != Changed ==> records == old(records)
    {
      if id !in records {
        return NotFound;
      }
      if records[id] == Queued {
        records := records[id := Cancelled];
        return Changed;
      }
      if records[id] == Running {
        records := records[id := Cancelling];
        return Changed;
      }
      assert records == records[id := records[id]];
      return if records[id] in {Cancelling, Cancelled} then Unchanged else Refused;
    }

    method InterruptQueued(id: JobId) returns (reply: Reply)
      modifies this
      ensures (records, reply) ==
              if id in old(records) then
                (old(records)[id := QueuedInterrupted(old(records)[id]).0], QueuedInterrupted(old(records)[id]).1)
              else (old(records), NotFound)
      ensures reply == Changed <==> id in old(records) && old(records)[id] == Queued
      ensures reply == Changed ==> records[id] == Interrupted
      ensures reply != Changed ==> records == old(records)
    {
      if id !in records {
        return NotFound;
      }
      if records[id] != Queued {
        assert records == records[id := records[id]];
        return Unchanged;
      }
      records := records[id := Interrupted];
      return Changed;
    }

    method Discard(id: JobId) returns (reply: Reply)
      modifies this
      ensures (records, reply) ==
              if id in old(records) then
                (old(records)[id := DiscardRequested(old(records)[id]).0], DiscardRequested(old(records)[id]).1)
              else (old(records), NotFound)
      ensures reply == Refused <==> id in old(records) && old(records)[id] in {Running, Cancelling}
      ensures reply == Changed <==> id in old(records) && old(records)[id] !in {Running, Cancelling, Discarded}
      ensures reply == Changed ==> records[id] == Discarded
      ensures reply != Changed ==> records == old(records)
    {
      if id !in records {
        return NotFound;
      }
      assert records == records[id := records[id]];
      if records[id] in {Running, Cancelling} {
        return Refused;
      }
      if records[id] == Discarded {
        return Unchanged;
      }
      records := records[id := Discarded];
      return Changed;
    }

    /** At a restart: each listed record that was under way is ended, one write after another. */
    method MarkRunningInterrupted(listed: seq<JobId>)
      requires forall i, j | 0 <= i < j < |listed| :: listed[i] != listed[j]
      requires forall id :: id in listed <==> id in records
      modifies this
      ensures records == AllRestarted(old(records))
      ensures records.Keys == old(records).Keys
      ensures forall id | id in records ::
                && (old(records)[id] == Running ==> records[id] == Interrupted)
                && (old(records)[id] == Cancelling ==> records[id] == Cancelled)
                && (old(records)[id] !in {Running, Cancelling} ==> records[id] == old(records)[id])
    {
      for i := 0 to |listed|
        invariant records.Keys == old(records).Keys
        invariant forall k | 0 <= k < i :: records[listed[k]] == Restarted(old(records)[listed[k]])
        invariant forall k | i <= k < |listed| :: records[listed[k]] == old(records)[listed[k]]
      {
        var id := listed[i];
        if records[id] == Running {
          records := records[id := Interrupted];
        } else if records[id] == Cancelling {
          records := records[id := Cancelled];
        }
      }
    }
  }
}
