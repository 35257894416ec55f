// Rolling back: a run undone by the command, and two runs undone newest first.
module Rollback {
  import opened Ordering
  import opened Records
  import opened Rules
  import opened Moves
  import opened Process
  import opened Store
  import opened BackfillRun
  import opened Settled
  import opened Restore
  import opened RestoreTheorems
  import RestoreRun

  // ------------------------------------------------------------ the two commands in a row

  // Log ids are drawn once each, never the zero id.
  ghost predicate DistinctStamps(stamps: Key -> Stamp) {
    && (forall k :: stamps(k).logId > 0)
    && (forall j, k :: stamps(j).logId == stamps(k).logId ==> j == k)
  }

  // The log rows of a run have the ids it drew.
  lemma RunLogsUnique(db: Db, w: World, run: nat, stamps: Key -> Stamp, keys: set<Key>)
    requires Selected(db.rows, keys) && FreshRun(db.log, run) && DistinctStamps(stamps)
    ensures RestoreRun.UniqueIds(ProcessRows(db, w, run, stamps, keys).log, run)
  {
    hide ProcessRows, Judge, InSet, DistinctStamps;
    ghost var log := ProcessRows(db, w, run, stamps, keys).log;
    forall l | l in log && l.run == run ensures l == LogKey(run, l.key) && log[l].id == stamps(l.key).logId {
      NothingElseLogged(db, w, run, stamps, keys, l);
      assert l == LogKey(run, l.key);
      EntryLogged(db, w, run, stamps, keys, l.key);
    }
    StampsApart(stamps);
  }

  lemma StampsApart(stamps: Key -> Stamp)
    requires DistinctStamps(stamps)
    ensures (forall k :: stamps(k).logId > 0) && (forall j, k :: stamps(j).logId == stamps(k).logId ==> j == k)
  {
  }

  // Every row as it was, but for copying attention items, versions and content.
  ghost predicate BackAsBefore(before: map<Key, Row>, after: map<Key, Row>) {
    && after.Keys == before.Keys
    && forall k :: k in before && EntityOf(k, before[k]).None? ==>
         after[k].owner == before[k].owner && after[k].vis == before[k].vis && after[k].updatedAt == before[k].updatedAt
  }

  ghost predicate OwnersActive(rows: map<Key, Row>, w: World, keys: set<Key>) {
    forall k :: k in keys && k in rows ==> Active(w, rows[k].ws, rows[k].owner)
  }

  lemma NoOtherKeys(log: map<LogKey, LogEntry>, run: nat, done: set<Key>)
    requires Logged(log, run, done)
    ensures done <= RestoreRun.KeysOfRun(log, run)
  {
    forall k | k in done ensures k in RestoreRun.KeysOfRun(log, run) { assert LogKey(run, k).key == k; }
  }

  lemma KeysLogged(log: map<LogKey, LogEntry>, run: nat, k: Key)
    ensures k in RestoreRun.KeysOfRun(log, run) <==> LogKey(run, k) in log
  {
    if LogKey(run, k) in log { assert LogKey(run, k).key == k; }
  }

  lemma UndoneBy(db: Db, w: World, run: nat, stamps: Key -> Stamp, keys: set<Key>, h: History, done: set<Key>)
    requires Selected(db.rows, keys) && FreshRun(db.log, run) && h.excludeRun == run && OwnersActive(db.rows, w, keys)
    requires var log := ProcessRows(db, w, run, stamps, keys).log;
      Logged(log, run, done) && done == RestoreRun.KeysOfRun(log, run)
    ensures var after := ProcessRows(db, w, run, stamps, keys);
      && BackAsBefore(db.rows, RestoreRows(after, w, h, None, done).rows)
      && RestoreRun.ReportFor(after, w, h, None, done).refused == map[]
  {
    hide ProcessRows, RestoreRows, VerdictOf, InSet;
    ghost var after := ProcessRows(db, w, run, stamps, keys);
    forall k ensures k in done <==> LogKey(run, k) in after.log { KeysLogged(after.log, run, k); }
    forall k | k in done && k in db.rows ensures Active(w, db.rows[k].ws, db.rows[k].owner) {
      NothingElseLogged(db, w, run, stamps, keys, LogKey(run, k));
    }
    RestoreUndoesRun(db, w, run, stamps, keys, h, done);
  }

  // The backfill and then its restore, for any batch and page size: unless a restore page
  // gives up, the restore refuses no row and puts every owner and visibility back, even when
  // the backfill gave up part of the way. The log ids it pages over are those the run drew.
  method RunAndUndo(conn: Database, workspaces: seq<nat>, limit: nat, run: nat, stamps: Key -> Stamp, page: nat)
    returns (ending: RestoreRun.Ending, report: RestoreRun.RestoreReport)
    requires limit > 0 && page > 0 && Distinct(workspaces)
    requires FreshRun(conn.log, run) && DistinctStamps(stamps)
    modifies conn
    ensures ending != RestoreRun.Raised && OwnersActive(old(conn.rows), conn.world, SetOf(Walk(old(conn.rows), workspaces))) ==>
      BackAsBefore(old(conn.rows), conn.rows) && report.refused == map[]
    ensures Surmountable(old(conn.attempts)) ==> ending != RestoreRun.Raised
  {
    hide ProcessRows, RestoreRows, Walk, InSet, DistinctStamps;
    ghost var db := conn.State();
    var ok, told, done := RunBackfill(conn, workspaces, limit, false, run, stamps);
    ghost var keys := SetOf(done);
    RunLogsUnique(db, conn.world, run, stamps, keys);
    ghost var log := conn.log;
    RunLogsKnown(db, conn.world, run, stamps, keys);
    var h;
    ghost var undone;
    ending, report, undone, h := RestoreRun.RunRestore(conn, run, None, page);
    NoOtherKeys(log, run, undone);
    if ending != RestoreRun.Raised && OwnersActive(db.rows, conn.world, SetOf(Walk(db.rows, workspaces))) {
      assert undone == RestoreRun.KeysOfRun(log, run);
      assert keys <= SetOf(Walk(db.rows, workspaces)) by { PrefixSet(done, Walk(db.rows, workspaces)); }
      UndoneBy(db, conn.world, run, stamps, keys, h, undone);
    }
  }

  // A run logs rows of its fourteen tables only.
  lemma RunLogsKnown(db: Db, w: World, run: nat, stamps: Key -> Stamp, keys: set<Key>)
    requires Selected(db.rows, keys) && FreshRun(db.log, run)
    ensures RestoreRun.KnownTables(ProcessRows(db, w, run, stamps, keys).log, run)
  {
    hide ProcessRows, Judge, InSet, TABLES;
    ghost var log := ProcessRows(db, w, run, stamps, keys).log;
    forall l | l in log && l.run == run ensures l.key.table in TABLES {
      NothingElseLogged(db, w, run, stamps, keys, l);
      if l.key.table.Other? { NotPersonal(db.rows, l.key); }
      KnownTable(l.key.table);
    }
  }

  lemma PrefixSet(a: seq<Key>, b: seq<Key>)
    requires a <= b
    ensures SetOf(a) <= SetOf(b)
  {
    forall k | k in a ensures k in b {
      var i :| 0 <= i < |a| && a[i] == k;
      assert b[i] == k;
    }
  }

  // --------------------------------------------------------------- two runs, newest first

  // A run over `db`, its log rows read as `h`.
  datatype Run = Run(db: Db, w: World, id: nat, stamps: Key -> Stamp, keys: set<Key>, h: History)

  ghost predicate Sound(r: Run) {
    Selected(r.db.rows, r.keys) && FreshRun(r.db.log, r.id) && r.h.excludeRun == r.id
  }

  ghost function Left(r: Run): Db
    requires Sound(r)
  {
    ProcessRows(r.db, r.w, r.id, r.stamps, r.keys)
  }

  // The first run, then edits of anything but what the rule of row `k` reads, taking none of
  // its versions back, and the second run.
  ghost predicate InTurn(first: Run, second: Run, k: Key) {
    && Sound(first) && Sound(second) && first.id != second.id && k in first.keys && k in second.keys
    && EditedSince(Left(first), first.w, second.db, second.w, first.id, k)
    && second.db.rows[k].version >= Left(first).rows[k].version
  }

  // The second run's restore, over the log rows `logged`.
  ghost predicate Undoes(second: Run, w: World, logged: set<Key>, k: Key)
    requires Sound(second)
  {
    && Logged(Left(second).log, second.id, logged) && k in logged
    && VerdictOf(Left(second), w, second.h, None, k).PutBack?
  }

  ghost function UndoneOnce(second: Run, w: World, logged: set<Key>): Db
    requires Sound(second) && Logged(Left(second).log, second.id, logged)
  {
    RestoreRows(Left(second), w, second.h, None, logged)
  }

  // A state since then in which the first run is restored: again anything else may have
  // changed, but the row has the owner and visibility it was put back to.
  ghost predicate Afterwards(first: Run, second: Run, w: World, logged: set<Key>, later: Db, w': World, k: Key)
    requires InTurn(first, second, k) && Undoes(second, w, logged, k)
  {
    && EditedSince(Left(first), first.w, later, w', first.id, k)
    && var once := UndoneOnce(second, w, logged).rows;
       && k in once && later.rows[k].owner == once[k].owner && later.rows[k].vis == once[k].vis
       && later.rows[k].version >= once[k].version
  }

  // Putting a row back gives what the second run found, one version on where there is one.
  lemma PutBackToFound(second: Run, w: World, logged: set<Key>, k: Key)
    requires Sound(second) && k in second.keys && Undoes(second, w, logged, k)
    ensures var now, found := UndoneOnce(second, w, logged).rows, second.db.rows;
      && k in now && k in found && InSet(found, k) && EntityOf(k, found[k]).None?
      && now[k].owner == found[k].owner && now[k].vis == found[k].vis
      && (Left(second).rows[k].owner != found[k].owner || Left(second).rows[k].vis != found[k].vis)
      && (Versioned(k.table) ==> now[k].version == found[k].version + 2)
  {
    hide Judge, Decide, InSet, SnapshotOf, SnapshotChange, VerdictOf, Effective;
    ghost var left := Left(second);
    KeyIsRow(second.db.rows, k);
    PutBackMeans(left, w, second.h, k);
    EntryLogged(second.db, second.w, second.id, second.stamps, second.keys, k);
    RowsSettled(second.db, second.w, second.id, second.stamps, second.keys, k);
    PutBackDiffers(left, w, second.h, k);
    KeyIsRow(left.rows, k);
    RestoredTo(left, w, second.h, logged, k);
  }

  lemma KeyIsRow(rows: map<Key, Row>, k: Key)
    requires k in rows && InSet(rows, k)
    ensures EntityOf(k, rows[k]).None?
  {
  }

  // A run and a restore change nothing a rule reads, and no other run's log.
  lemma ReadsThrough(second: Run, w: World, logged: set<Key>, w': World, first: nat, k: Key)
    requires Sound(second) && Logged(Left(second).log, second.id, logged) && first != second.id
    requires k in second.db.rows && InSet(second.db.rows, k) && LogKey(first, k) in second.db.log
    ensures var once := UndoneOnce(second, w, logged);
      && SameReads(second.db.rows, once.rows, w', w', k)
      && LogKey(first, k) in once.log && once.log[LogKey(first, k)] == second.db.log[LogKey(first, k)]
  {
    hide InSet, VerdictOf, ProcessRows, RestoreRows, SameReads;
    ghost var left, once := Left(second), UndoneOnce(second, w, logged);
    InputsKept(second.db, second.w, second.id, second.stamps, second.keys);
    InputsAreReads(second.db.rows, left.rows, w', k);
    RestoreKeepsInputs(left, w, second.h, None, logged);
    SameSet(second.db.rows, left.rows, k);
    InputsAreReads(left.rows, once.rows, w', k);
    ReadsCompose(second.db.rows, left.rows, once.rows, w', w', w', k);
    NothingElseLogged(second.db, second.w, second.id, second.stamps, second.keys, LogKey(first, k));
    RestoreRun.LogKept(left, w, second.h, None, logged);
  }

  // Restoring the first run straight after the second is such a state, if the threads and
  // messages its rule reads still say the same.
  lemma StraightAfter(first: Run, second: Run, w: World, logged: set<Key>, w': World, k: Key)
    requires InTurn(first, second, k) && Undoes(second, w, logged, k)
    requires SameReads(second.db.rows, second.db.rows, second.w, w', k)
    ensures Afterwards(first, second, w, logged, UndoneOnce(second, w, logged), w', k)
  {
    hide InSet, VerdictOf, ProcessRows, RestoreRows, SameReads;
    KeptInSet(Left(first).rows, second.db.rows, first.w, second.w, k);
    ReadsThrough(second, w, logged, w', first.id, k);
    ReadsCompose(Left(first).rows, second.db.rows, second.db.rows, first.w, second.w, w', k);
    ReadsCompose(Left(first).rows, second.db.rows, UndoneOnce(second, w, logged).rows, first.w, w', w', k);
    PutBackToFound(second, w, logged, k);
  }

  lemma KeptInSet(a: map<Key, Row>, b: map<Key, Row>, w: World, w': World, k: Key)
    requires SameReads(a, b, w, w', k)
    ensures k in a && k in b && InSet(a, k) && InSet(b, k) && a[k].ws == b[k].ws
  {
  }

  // Where the rules keep a row's owner or a table's visibility, they keep what it is.
  lemma KeptIsOwn(rows: map<Key, Row>, w: World, log: map<LogKey, LogEntry>, h: History, k: Key)
    requires k in rows && InSet(rows, k) && !Derived(k.table)
    ensures var d := Decide(rows, w, log, h, k);
      && (d.Target? && d.keepsOwner ==> d.owner == rows[k].owner)
      && (d.Target? && VisibilityKept(k.table) ==> d.vis == rows[k].vis)
  {
  }

  // A row that still is as the first run left it is not moved by the second.
  lemma NotMovedAgain(first: Run, second: Run, k: Key)
    requires InTurn(first, second, k) && !Derived(k.table)
    requires second.db.rows[k].owner == Left(first).rows[k].owner && second.db.rows[k].vis == Left(first).rows[k].vis
    ensures Left(second).rows[k].owner == second.db.rows[k].owner && Left(second).rows[k].vis == second.db.rows[k].vis
  {
    hide Decide, InSet, ProcessRows, Judge, SameReads;
    ReadsSinceBefore(first.db, first.w, first.id, first.stamps, first.keys, second.db.rows, second.w, k);
    AliasLogged(first.db, first.w, first.id, first.stamps, first.keys, k);
    RowsSettled(first.db, first.w, first.id, first.stamps, first.keys, k);
    DecisionVisibility(first.db, first.w, first.id, k);
    RowsSettled(second.db, second.w, second.id, second.stamps, second.keys, k);
    DecisionVisibility(second.db, second.w, second.id, k);
    ReconstructionExact(first.db.rows, second.db.rows, first.w, second.w, first.db.log, second.db.log,
                        History(first.id, None), History(second.id, None), k);
    KeptIsOwn(second.db.rows, second.w, second.db.log, History(second.id, None), k);
  }

  // Two runs moved a row and the second was undone: the first one's restore, whatever history
  // it reads and whatever else changed, does not write the row.
  lemma OlderRunNotUndone(first: Run, second: Run, w: World, logged: set<Key>, later: Db, w': World, k: Key)
    requires InTurn(first, second, k) && Undoes(second, w, logged, k)
    requires Afterwards(first, second, w, logged, later, w', k)
    ensures LogKey(first.id, k) in later.log && !VerdictOf(later, w', first.h, None, k).PutBack?
  {
    hide Judge, Decide, InSet, VerdictOf, ProcessRows, RestoreRows, SameReads;
    PutBackToFound(second, w, logged, k);
    if VerdictOf(later, w', first.h, None, k).PutBack? {
      if Derived(k.table) {
        DerivedIsCompareAndSet(first.db, first.w, first.id, first.stamps, first.keys, later, w', first.h, k);
      } else {
        RestoreIsCompareAndSet(first.db, first.w, first.id, first.stamps, first.keys, later, w', first.h, k);
        NotMovedAgain(first, second, k);
      }
    }
  }

  // Restoring two runs newest first brings a row both of them moved back to where it was
  // before the first exactly when the second run already found it there.
  lemma NewestFirst(first: Run, second: Run, w: World, logged: set<Key>, later: Db, w': World, older: set<Key>, k: Key)
    requires InTurn(first, second, k) && Undoes(second, w, logged, k)
    requires Afterwards(first, second, w, logged, later, w', k) && Logged(later.log, first.id, older)
    ensures var end := RestoreRows(later, w', first.h, None, older).rows;
      && k in end && k in first.db.rows && k in second.db.rows
      && end[k].owner == second.db.rows[k].owner && end[k].vis == second.db.rows[k].vis
      && (end[k].owner == first.db.rows[k].owner && end[k].vis == first.db.rows[k].vis
          <==> second.db.rows[k].owner == first.db.rows[k].owner && second.db.rows[k].vis == first.db.rows[k].vis)
  {
    hide Judge, InSet, VerdictOf, ProcessRows, SameReads;
    OlderRunNotUndone(first, second, w, logged, later, w', k);
    PutBackToFound(second, w, logged, k);
    KeptInSet(Left(first).rows, later.rows, first.w, w', k);
    KeyIsRow(later.rows, k);
    NotPutBack(later, w', first.h, older, k);
  }

  // ------------------------------------------------------- a row only the older run moved

  // The second run, the restore of it and any other changes since, none of them to the row.
  ghost predicate LeftAlone(first: Run, second: Run, w: World, logged: set<Key>, w': World, k: Key) {
    && Sound(first) && Sound(second) && first.id != second.id && k in first.keys
    && EditedSince(Left(first), first.w, second.db, second.w, first.id, k)
    && SameReads(second.db.rows, second.db.rows, second.w, w', k)
    && Unedited(Left(first).rows, second.db.rows, k)
    && (k in second.keys ==> Left(second).rows[k] == second.db.rows[k])
    && Logged(Left(second).log, second.id, logged)
  }

  lemma SecondRunPasses(second: Run, k: Key)
    requires Sound(second) && k in second.db.rows && InSet(second.db.rows, k)
    requires k in second.keys ==> Left(second).rows[k] == second.db.rows[k]
    ensures k in Left(second).rows && Left(second).rows[k] == second.db.rows[k]
    ensures ItemsOf(Left(second).rows, k) == ItemsOf(second.db.rows, k)
    ensures k in second.keys || LogKey(second.id, k) !in Left(second).log
  {
    hide Judge;
    KeyIsRow(second.db.rows, k);
    MovesAdmissible(second.db, second.w, second.id, second.keys);
    ProcessMoves(second.db, second.w, second.id, second.stamps, second.keys);
    ItemsStable(second.db.rows, MovesOf(second.db.rows, PlanOf(second.db, second.w, second.id, second.keys)), k);
    NothingElseLogged(second.db, second.w, second.id, second.stamps, second.keys, LogKey(second.id, k));
  }

  // A row the second run logged and did not move reads as already restored.
  lemma NotMovedAlready(second: Run, w: World, k: Key)
    requires Sound(second) && k in second.keys && k in Left(second).rows && InSet(Left(second).rows, k)
    requires Left(second).rows[k] == second.db.rows[k] && LogKey(second.id, k) in Left(second).log
    ensures VerdictOf(Left(second), w, second.h, None, k) == AlreadyRestored
  {
    hide Judge, InSet, ProcessRows, SnapshotOf, VerdictOf;
    EntryLogged(second.db, second.w, second.id, second.stamps, second.keys, k);
    AlreadyWhen(Left(second), w, second.h, k);
  }

  lemma AlreadyWhen(db: Db, w: World, h: History, k: Key)
    requires LogKey(h.excludeRun, k) in db.log && k in db.rows && InSet(db.rows, k)
    requires db.log[LogKey(h.excludeRun, k)].prevOwner == Some(db.rows[k].owner)
    requires db.log[LogKey(h.excludeRun, k)].prevVis == db.rows[k].vis
    ensures VerdictOf(db, w, h, None, k) == AlreadyRestored
  {
  }

  lemma RestorePasses(db: Db, w: World, h: History, logged: set<Key>, k: Key)
    requires Logged(db.log, h.excludeRun, logged) && k in db.rows && EntityOf(k, db.rows[k]).None?
    requires k in logged ==> VerdictOf(db, w, h, None, k) == AlreadyRestored
    ensures var after := RestoreRows(db, w, h, None, logged).rows;
      k in after && after[k] == db.rows[k] && ItemsOf(after, k) == ItemsOf(db.rows, k)
  {
    RestoreAdmissible(db, w, h, None, logged);
    ItemsStable(db.rows, RestoreMoves(db, w, h, None, logged), k);
  }

  lemma LeftInSet(second: Run, k: Key)
    requires Sound(second) && k in second.db.rows && InSet(second.db.rows, k)
    ensures k in Left(second).rows && InSet(Left(second).rows, k)
  {
    InputsKept(second.db, second.w, second.id, second.stamps, second.keys);
    SameSet(second.db.rows, Left(second).rows, k);
  }

  // Undoing the second run leaves the row and its items as the second run found them.
  lemma StillUnedited(first: Run, second: Run, w: World, logged: set<Key>, w': World, k: Key)
    requires LeftAlone(first, second, w, logged, w', k)
    ensures var once := UndoneOnce(second, w, logged).rows;
      && k in once && once[k] == second.db.rows[k] && ItemsOf(once, k) == ItemsOf(second.db.rows, k)
  {
    hide InSet, ProcessRows, RestoreRows, SameReads, VerdictOf, ItemsOf;
    KeptInSet(Left(first).rows, second.db.rows, first.w, second.w, k);
    LeftInSet(second, k);
    SecondRunPasses(second, k);
    KeyIsRow(second.db.rows, k);
    if k in logged { NotMovedAlready(second, w, k); }
    RestorePasses(Left(second), w, second.h, logged, k);
  }

  // A row the first run moved and the second did not, edited by nobody: restoring both newest
  // first puts it back, if its owner before the first run is still active.
  lemma OlderRunUndone(first: Run, second: Run, w: World, logged: set<Key>, w': World, older: set<Key>, k: Key)
    requires LeftAlone(first, second, w, logged, w', k)
    requires Left(first).rows[k].owner != first.db.rows[k].owner || Left(first).rows[k].vis != first.db.rows[k].vis
    requires Active(w', first.db.rows[k].ws, first.db.rows[k].owner)
    requires Logged(UndoneOnce(second, w, logged).log, first.id, older) && k in older
    ensures var end := RestoreRows(UndoneOnce(second, w, logged), w', first.h, None, older).rows;
      && k in end && end[k].owner == first.db.rows[k].owner && end[k].vis == first.db.rows[k].vis
      && end[k].updatedAt == first.db.rows[k].updatedAt
  {
    hide Judge, InSet, VerdictOf, ProcessRows, RestoreRows, SameReads, ItemsOf;
    ghost var once := UndoneOnce(second, w, logged);
    KeptInSet(Left(first).rows, second.db.rows, first.w, second.w, k);
    ReadsThrough(second, w, logged, w', first.id, k);
    ReadsCompose(Left(first).rows, second.db.rows, second.db.rows, first.w, second.w, w', k);
    ReadsCompose(Left(first).rows, second.db.rows, once.rows, first.w, w', w', k);
    StillUnedited(first, second, w, logged, w', k);
    UneditedIsPutBack(first.db, first.w, first.id, first.stamps, first.keys, once, w', first.h, k);
    KeyIsRow(second.db.rows, k);
    RestoredTo(once, w', first.h, older, k);
    RowsSettled(first.db, first.w, first.id, first.stamps, first.keys, k);
  }

  lemma NotPutBack(db: Db, w: World, h: History, keys: set<Key>, k: Key)
    requires Logged(db.log, h.excludeRun, keys) && k in db.rows && EntityOf(k, db.rows[k]).None?
    requires LogKey(h.excludeRun, k) in db.log && !VerdictOf(db, w, h, None, k).PutBack?
    ensures RestoreRows(db, w, h, None, keys).rows[k] == db.rows[k]
  {
  }
}
