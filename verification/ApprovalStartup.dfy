/** The two places approvals are kept, and how a start reconciles them. */
module ApprovalStartup {
  import opened ApprovalModel

  datatype Disk = Disk(file: map<Id, Record>, sqlite: map<Id, Record>)

  datatype Primary = FilePrimary | SqlitePrimary

  function View(disk: Disk, primary: Primary): map<Id, Record> {
    if primary == FilePrimary then disk.file else disk.sqlite
  }

  predicate Differs(disk: Disk, id: Id)
    requires id in disk.file
  {
    id !in disk.sqlite || disk.sqlite[id] != disk.file[id]
  }

  predicate KeepsSqlite(disk: Disk, id: Id)
    requires id in disk.file
  {
    id in disk.sqlite && Undoes(disk.sqlite[id], disk.file[id])
  }

  /** The file records a start writes SQLite's final record over. */
  function Repairs(disk: Disk): set<Id> {
    set id | id in disk.file && Differs(disk, id) && KeepsSqlite(disk, id)
  }

  /** The file records a start copies into SQLite. */
  function Copies(disk: Disk): set<Id> {
    set id | id in disk.file && Differs(disk, id) && !KeepsSqlite(disk, id)
  }

  /** The stores once `repaired` and `copied` have landed. */
  function CaughtUp(disk: Disk, repaired: set<Id>, copied: set<Id>): Disk
    requires repaired <= Repairs(disk) && copied <= Copies(disk)
  {
    Disk(
      map id | id in disk.file :: if id in repaired then disk.sqlite[id] else disk.file[id],
      map id | id in disk.sqlite.Keys + copied :: if id in copied then disk.file[id] else disk.sqlite[id])
  }

  lemma NothingCaughtUp(disk: Disk)
    ensures CaughtUp(disk, {}, {}) == disk
    ensures Repairs(disk) + Copies(disk) <= disk.file.Keys
  {
  }

  /** One repair, and one copy, more. */
  lemma CaughtUpByOne(disk: Disk, repaired: set<Id>, copied: set<Id>, id: Id)
    requires repaired <= Repairs(disk) && copied <= Copies(disk)
    ensures id in Repairs(disk) ==>
              CaughtUp(disk, repaired + {id}, copied)
              == CaughtUp(disk, repaired, copied).(file := CaughtUp(disk, repaired, copied).file[id := disk.sqlite[id]])
    ensures id in Copies(disk) ==>
              CaughtUp(disk, repaired, copied + {id})
              == CaughtUp(disk, repaired, copied).(sqlite := CaughtUp(disk, repaired, copied).sqlite[id := disk.file[id]])
  {
  }

  /** A file record is repaired, copied, or already what SQLite holds. */
  lemma EachRecordHasItsPlace(disk: Disk, id: Id)
    requires id in disk.file
    ensures id in Repairs(disk) <==> Differs(disk, id) && KeepsSqlite(disk, id)
    ensures id in Copies(disk) <==> Differs(disk, id) && !KeepsSqlite(disk, id)
  {
  }

  datatype StartOutcome = Started(primary: Primary) | Untrusted

  /** What a start chooses, by what landed: a copy that fails falls back to the file store, unless a
      repair of the file store failed too. */
  function StartChoice(disk: Disk, sqliteUp: bool, repaired: set<Id>, copied: set<Id>): StartOutcome {
    if !sqliteUp then Started(FilePrimary)
    else if copied == Copies(disk) then Started(SqlitePrimary)
    else if repaired == Repairs(disk) then Started(FilePrimary)
    else Untrusted
  }

  // ---- One write ----------------------------------------------------------------------------------------

  // Which of a write's parts fail: the file store's, SQLite's, putting the file back.
  datatype Faults = Faults(file: bool, sqlite: bool, putBack: bool)

  function Without(records: map<Id, Record>, id: Id): map<Id, Record> {
    records - {id}
  }

  /** The stores after a write, and whether it is reported as done: the file first, then SQLite while it
      is primary; when SQLite's half fails the file goes back to the record SQLite holds, none: removed. */
  function WriteOutcome(disk: Disk, primary: Primary, record: Record, faults: Faults): (Disk, bool) {
    var id := record.id;
    var filed := disk.(file := disk.file[id := record]);
    if faults.file then (disk, false)
    else if primary == FilePrimary then (filed, true)
    else if !faults.sqlite then (filed.(sqlite := disk.sqlite[id := record]), true)
    else if faults.putBack then (filed, false)
    else (disk.(file := if id in disk.sqlite then disk.file[id := disk.sqlite[id]] else Without(disk.file, id)), false)
  }

  /** A write is reported as done exactly if no store it needs fails: the file store, and SQLite while primary. */
  lemma WriteIsDoneExactly(disk: Disk, primary: Primary, record: Record, faults: Faults)
    ensures WriteOutcome(disk, primary, record, faults).1 <==> !faults.file && (primary == SqlitePrimary ==> !faults.sqlite)
  {
  }

  /** A write reported as failed leaves the primary as it was; unless putting the file back failed too,
      the two stores then hold the same record, so a later start finds nothing to catch up. */
  lemma FailedWriteIsUndone(disk: Disk, primary: Primary, record: Record, faults: Faults)
    requires !WriteOutcome(disk, primary, record, faults).1
    ensures
      var after := WriteOutcome(disk, primary, record, faults).0;
      && View(after, primary) == View(disk, primary)
      && (!faults.file && !faults.putBack ==>
            && (record.id in after.file <==> record.id in after.sqlite)
            && (record.id in after.file ==> !Differs(after, record.id)))
      && (forall id | id != record.id ::
            (id in after.file <==> id in disk.file) && (id in disk.file ==> after.file[id] == disk.file[id]))
  {
  }

  /** A write reported as done is what both stores show, or the file store's while it runs alone. */
  lemma DoneWriteIsShown(disk: Disk, primary: Primary, record: Record, faults: Faults)
    requires WriteOutcome(disk, primary, record, faults).1
    ensures
      var after := WriteOutcome(disk, primary, record, faults).0;
      && View(after, primary) == View(disk, primary)[record.id := record]
      && after.file == disk.file[record.id := record]
      && (primary == SqlitePrimary ==> !Differs(after, record.id))
  {
  }

  // ---- What a start that succeeds promises ----------------------------------------------------------

  /** The chosen primary never shows a spend of SQLite's as anything else, nor a rejection of
      SQLite's unless the file's record is strictly later. */
  lemma StartKeepsFinalDecisions(disk: Disk, repaired: set<Id>, copied: set<Id>, id: Id)
    requires repaired <= Repairs(disk) && copied <= Copies(disk)
    requires StartChoice(disk, true, repaired, copied).Started?
    requires id in disk.sqlite
    ensures
      var shown := View(CaughtUp(disk, repaired, copied), StartChoice(disk, true, repaired, copied).primary);
      id in shown ==>
        && (disk.sqlite[id].status == Executed ==> shown[id].status == Executed)
        && (disk.sqlite[id].status == Rejected ==>
              || shown[id].status == Rejected
              || (id in disk.file && shown[id] == disk.file[id] && disk.file[id].updatedAt > disk.sqlite[id].updatedAt))
  {
  }

  /** With no write failure the store chosen shows SQLite's record exactly where it is spent and the file's is
      not, or is a rejection that the file's, of another status, is not later than; else it shows the file's. */
  lemma FullStartShows(disk: Disk, id: Id)
    requires id in disk.file
    ensures
      var shown := View(CaughtUp(disk, Repairs(disk), Copies(disk)), SqlitePrimary);
      id in shown &&
      if id in disk.sqlite
         && ((disk.sqlite[id].status == Executed && disk.file[id].status != Executed)
             || (disk.sqlite[id].status == Rejected && disk.file[id].status != Rejected
                 && disk.file[id].updatedAt <= disk.sqlite[id].updatedAt))
      then shown[id] == disk.sqlite[id]
      else shown[id] == disk.file[id]
  {
  }

  /** With no write failure the stores agree on every id the file store holds, whatever they held. */
  lemma FullCatchUpAgrees(disk: Disk)
    ensures
      var after := CaughtUp(disk, Repairs(disk), Copies(disk));
      && after.file.Keys == disk.file.Keys
      && after.file.Keys <= after.sqlite.Keys
      && (forall id | id in after.file :: after.sqlite[id] == after.file[id])
      && (forall id | id in disk.sqlite && id !in disk.file :: id in after.sqlite && after.sqlite[id] == disk.sqlite[id])
  {
  }

  /** A second start then finds nothing to do. */
  lemma SecondStartChangesNothing(disk: Disk)
    ensures
      var after := CaughtUp(disk, Repairs(disk), Copies(disk));
      Repairs(after) == {} && Copies(after) == {} && CaughtUp(after, {}, {}) == after
  {
  }

  /** Each store taken alone shows the same final decisions after a full catch-up: a later start that
      cannot open SQLite runs on a file store that lost none of them. */
  lemma RepairedFileIsTrustworthy(disk: Disk, copied: set<Id>, id: Id)
    requires copied <= Copies(disk)
    requires id in disk.file && id in disk.sqlite && disk.sqlite[id].status == Executed
    ensures CaughtUp(disk, Repairs(disk), copied).file[id].status == Executed
  {
  }

  /** The start refuses exactly when a repair and a copy both failed. */
  lemma RefusesExactlyWhenBothFail(disk: Disk, repaired: set<Id>, copied: set<Id>)
    requires repaired <= Repairs(disk) && copied <= Copies(disk)
    ensures
      StartChoice(disk, true, repaired, copied).Untrusted? <==>
      (exists r, c :: r in Repairs(disk) && r !in repaired && c in Copies(disk) && c !in copied)
  {
  }
}
