// The restore command: the run's log, page by page, each page one transaction.
module RestoreRun {
  import opened Ordering
  import opened Records
  import opened Rules
  import opened Moves
  import opened Process
  import opened Store
  import opened Restore

  // The rows put back, and the reported rows with their reason.
  datatype RestoreReport = RestoreReport(restored: set<Key>, refused: map<Key, Reason>)

  function ReportFor(db: Db, w: World, h: History, scope: Option<nat>, keys: set<Key>): RestoreReport
    requires Logged(db.log, h.excludeRun, keys)
  {
    RestoreReport(set k | k in keys && VerdictOf(db, w, h, scope, k).PutBack?,
                  map k | k in keys && VerdictOf(db, w, h, scope, k).Refused? :: VerdictOf(db, w, h, scope, k).why)
  }

  function MergeReports(a: RestoreReport, b: RestoreReport): RestoreReport {
    RestoreReport(a.restored + b.restored, a.refused + b.refused)
  }

  function KeysOfRun(log: map<LogKey, LogEntry>, run: nat): set<Key> {
    set l | l in log && l.run == run :: l.key
  }

  // Log ids are a primary key, never the zero id.
  ghost predicate UniqueIds(log: map<LogKey, LogEntry>, run: nat) {
    && (forall l :: l in log && l.run == run ==> log[l].id > 0)
    && (forall l, m :: l in log && m in log && l.run == m.run == run && log[l].id == log[m].id ==> l == m)
  }

  function IdsOf(log: map<LogKey, LogEntry>, run: nat): set<nat> {
    set l | l in log && l.run == run :: log[l].id
  }

  // The rows logged under these log ids.
  function KeysAt(log: map<LogKey, LogEntry>, run: nat, ids: set<nat>): set<Key> {
    set l | l in log && l.run == run && log[l].id in ids :: l.key
  }

  lemma KeysAtIs(log: map<LogKey, LogEntry>, run: nat, ids: set<nat>, k: Key)
    ensures k in KeysAt(log, run, ids) <==> (LogKey(run, k) in log && log[LogKey(run, k)].id in ids)
  {
    if LogKey(run, k) in log && log[LogKey(run, k)].id in ids { assert LogKey(run, k).key == k; }
  }

  lemma RestoresAdd(db: Db, w: World, h: History, scope: Option<nat>, a: set<Key>, b: set<Key>)
    requires Logged(db.log, h.excludeRun, a) && Logged(db.log, h.excludeRun, b) && a !! b
    ensures var mid := RestoreRows(db, w, h, scope, a);
      MergeReports(ReportFor(db, w, h, scope, a), ReportFor(mid, w, h, scope, b)) == ReportFor(db, w, h, scope, a + b)
  {
    ghost var mid := RestoreRows(db, w, h, scope, a);
    forall k | k in b ensures VerdictOf(mid, w, h, scope, k) == VerdictOf(db, w, h, scope, k) {
      VerdictStable(db, w, h, scope, a, k);
    }
    ghost var x, y, z := ReportFor(db, w, h, scope, a), ReportFor(mid, w, h, scope, b), ReportFor(db, w, h, scope, a + b);
    MapsEqual(x.refused + y.refused, z.refused);
    assert x.restored + y.restored == z.restored;
  }

  // What to put back of the rows of one table; refused rows are reported.
  method RestoreValues(conn: Database, h: History, scope: Option<nat>, keys: set<Key>)
    returns (values: map<Key, (nat, Visibility)>, report: RestoreReport)
    requires Logged(conn.log, h.excludeRun, keys)
    ensures report == ReportFor(conn.State(), conn.world, h, scope, keys)
    ensures forall k :: k in values <==> k in keys && VerdictOf(conn.State(), conn.world, h, scope, k).PutBack?
    ensures forall k :: k in values ==>
      var v := VerdictOf(conn.State(), conn.world, h, scope, k);
      values[k] == (v.owner, v.vis)
  {
    hide VerdictOf, ReportFor;
    var db := conn.State();
    values, report := map[], RestoreReport({}, map[]);
    ghost var done := {};
    ReportOfNone(db, conn.world, h, scope);
    var todo := keys;
    while todo != {}
      invariant done + todo == keys && done !! todo
      invariant report == ReportFor(db, conn.world, h, scope, done)
      invariant forall k :: k in values <==> k in done && VerdictOf(db, conn.world, h, scope, k).PutBack?
      invariant forall k :: k in values ==>
        var v := VerdictOf(db, conn.world, h, scope, k);
        values[k] == (v.owner, v.vis)
      decreases |todo|
    {
      var k :| k in todo;
      var v := VerdictOf(db, conn.world, h, scope, k);
      ReportGrows(db, conn.world, h, scope, done, k);
      todo, done := todo - {k}, done + {k};
      match v {
        case PutBack(owner, vis) =>
          values := values[k := (owner, vis)];
          report := report.(restored := report.restored + {k});
        case Refused(why) => report := report.(refused := report.refused[k := why]);
        case OutOfScope =>
        case AlreadyRestored =>
      }
    }
    assert done == keys;
  }

  lemma ReportOfNone(db: Db, w: World, h: History, scope: Option<nat>)
    ensures ReportFor(db, w, h, scope, {}) == RestoreReport({}, map[])
  {
  }

  // One table's rows of a page.
  method RestoreTable(conn: Database, h: History, scope: Option<nat>, keys: set<Key>) returns (report: RestoreReport)
    requires Logged(conn.log, h.excludeRun, keys)
    modifies conn
    ensures conn.State() == RestoreRows(old(conn.State()), conn.world, h, scope, keys)
    ensures report == ReportFor(old(conn.State()), conn.world, h, scope, keys)
    ensures conn.attempts == old(conn.attempts)
  {
    hide VerdictOf, ReportFor;
    ghost var db := conn.State();
    var values;
    values, report := RestoreValues(conn, h, scope, keys);
    RestoreAdmissible(db, conn.world, h, scope, keys);
    PutBackMoves(db, conn.world, h, scope, keys, values);
    var updated := conn.UpdateRows(values);
    ghost var mid, moves := conn.rows, RestoreMoves(db, conn.world, h, scope, keys);
    assert updated == moves.Keys;
    conn.MirrorAttention(updated, updated);
    UpdateThenMirror(db.rows, mid, moves, updated);
    forall k | k in db.rows ensures conn.rows[k] == MoveOne(db.rows, moves, k) {
      assert conn.rows[k] == MirroredBy(mid, updated, updated, k);
    }
    MapsEqual(conn.rows, ApplyMoves(db.rows, moves));
  }

  lemma ReportGrows(db: Db, w: World, h: History, scope: Option<nat>, keys: set<Key>, k: Key)
    requires Logged(db.log, h.excludeRun, keys) && LogKey(h.excludeRun, k) in db.log && k !in keys
    ensures var r, v := ReportFor(db, w, h, scope, keys), VerdictOf(db, w, h, scope, k);
      ReportFor(db, w, h, scope, keys + {k})
      == RestoreReport(if v.PutBack? then r.restored + {k} else r.restored,
                       if v.Refused? then r.refused[k := v.why] else r.refused)
  {
    ghost var r, v, z := ReportFor(db, w, h, scope, keys), VerdictOf(db, w, h, scope, k),
      ReportFor(db, w, h, scope, keys + {k});
    MapsEqual(z.refused, if v.Refused? then r.refused[k := v.why] else r.refused);
    assert z.restored == if v.PutBack? then r.restored + {k} else r.restored;
  }

  // What is put back always differs from what the row holds.
  lemma PutBackMoves(db: Db, w: World, h: History, scope: Option<nat>, keys: set<Key>, values: map<Key, (nat, Visibility)>)
    requires Logged(db.log, h.excludeRun, keys)
    requires forall k :: k in values <==> k in keys && VerdictOf(db, w, h, scope, k).PutBack?
    requires forall k :: k in values ==>
      values[k] == (VerdictOf(db, w, h, scope, k).owner, VerdictOf(db, w, h, scope, k).vis)
    ensures values.Keys == RestoreMoves(db, w, h, scope, keys).Keys && values.Keys <= db.rows.Keys
    ensures forall k :: k in values ==>
      && (db.rows[k].owner, db.rows[k].vis) != values[k]
      && RestoreMoves(db, w, h, scope, keys)[k] == MovedRow(k.table, db.rows[k], values[k].0, values[k].1)
  {
  }

  lemma ReportAdds(db: Db, w: World, h: History, scope: Option<nat>, a: set<Key>, b: set<Key>, state: Db,
                   report: RestoreReport, state': Db, more: RestoreReport)
    requires Logged(db.log, h.excludeRun, a) && Logged(db.log, h.excludeRun, b) && a !! b
    requires state == RestoreRows(db, w, h, scope, a) && report == ReportFor(db, w, h, scope, a)
    requires state' == RestoreRows(state, w, h, scope, b) && more == ReportFor(state, w, h, scope, b)
    ensures state' == RestoreRows(db, w, h, scope, a + b)
    ensures MergeReports(report, more) == ReportFor(db, w, h, scope, a + b)
  {
    RestoreComposes(db, w, h, scope, a, b);
    RestoresAdd(db, w, h, scope, a, b);
  }

  function OfTables(keys: set<Key>, tables: seq<Table>): set<Key> {
    set k | k in keys && k.table in tables
  }

  // One page of the run's log, table by table.
  method RestorePage(conn: Database, h: History, scope: Option<nat>, keys: set<Key>) returns (report: RestoreReport)
    requires Logged(conn.log, h.excludeRun, keys)
    requires forall k :: k in keys ==> k.table in TABLES
    modifies conn
    ensures conn.State() == RestoreRows(old(conn.State()), conn.world, h, scope, keys)
    ensures report == ReportFor(old(conn.State()), conn.world, h, scope, keys)
    ensures conn.attempts == old(conn.attempts)
  {
    hide RestoreRows, ReportFor;
    ghost var db := conn.State();
    report := RestoreReport({}, map[]);
    RestoredNone(db, conn.world, h, scope);
    assert OfTables(keys, TABLES[..0]) == {};
    for j := 0 to |TABLES|
      invariant conn.State() == RestoreRows(db, conn.world, h, scope, OfTables(keys, TABLES[..j]))
      invariant report == ReportFor(db, conn.world, h, scope, OfTables(keys, TABLES[..j]))
      invariant conn.attempts == old(conn.attempts) && conn.log == db.log
    {
      var t := TABLES[j];
      var part := set k | k in keys && k.table == t;
      ghost var done, state, told := OfTables(keys, TABLES[..j]), conn.State(), report;
      NextTable(keys, j);
      var more := RestoreTable(conn, h, scope, part);
      ReportAdds(db, conn.world, h, scope, done, part, state, told, conn.State(), more);
      report := MergeReports(report, more);
      LogKept(state, conn.world, h, scope, part);
    }
    assert OfTables(keys, TABLES[..|TABLES|]) == keys by { assert TABLES[..|TABLES|] == TABLES; }
  }

  lemma LogKept(db: Db, w: World, h: History, scope: Option<nat>, keys: set<Key>)
    requires Logged(db.log, h.excludeRun, keys)
    ensures RestoreRows(db, w, h, scope, keys).log == db.log
  {
  }

  lemma RestoredNone(db: Db, w: World, h: History, scope: Option<nat>)
    ensures RestoreRows(db, w, h, scope, {}) == db
    ensures ReportFor(db, w, h, scope, {}) == RestoreReport({}, map[])
  {
    MovesNothing(db.rows, RestoreMoves(db, w, h, scope, {}));
  }

  lemma NextTable(keys: set<Key>, j: nat)
    requires j < |TABLES|
    ensures var part := set k | k in keys && k.table == TABLES[j];
      OfTables(keys, TABLES[..j]) !! part && OfTables(keys, TABLES[..j]) + part == OfTables(keys, TABLES[..j + 1])
  {
    assert TABLES[..j + 1] == TABLES[..j] + [TABLES[j]];
    forall i | 0 <= i < j ensures TABLES[i] != TABLES[j] {}
  }

  const MAX_ATTEMPTS := 5

  // A page in its own transaction, retried when the database rolls it back; a table name
  // outside the known ones raises.
  method RestorePageRetried(conn: Database, h: History, scope: Option<nat>, keys: set<Key>, report: RestoreReport)
    returns (ok: bool, merged: RestoreReport)
    requires Logged(conn.log, h.excludeRun, keys)
    modifies conn
    ensures conn.State() == if ok then RestoreRows(old(conn.State()), conn.world, h, scope, keys)
                            else old(conn.State())
    ensures merged == if ok then MergeReports(report, ReportFor(old(conn.State()), conn.world, h, scope, keys))
                      else report
    ensures ok <==> (forall k :: k in keys ==> k.table in TABLES) && GetsThrough(old(conn.attempts), 5)
    ensures Surmountable(old(conn.attempts)) ==> Surmountable(conn.attempts)
  {
    hide RestoreRows, ReportFor;
    if exists k :: k in keys && k.table !in TABLES { return false, report; }
    var before := conn.State();
    for attempt := 0 to MAX_ATTEMPTS
      invariant conn.State() == before
      invariant GetsThrough(old(conn.attempts), 5) <==> GetsThrough(conn.attempts, MAX_ATTEMPTS - attempt)
      invariant Surmountable(old(conn.attempts)) ==> Surmountable(conn.attempts)
    {
      if Surmountable(conn.attempts) { SurmountableOnce(conn.attempts); }
      var pageReport := RestorePage(conn, h, scope, keys);
      var end := conn.End(before);
      if end.Commits? { return true, MergeReports(report, pageReport); }
      if !end.retryable { return false, report; }
    }
    return false, report;
  }

  datatype Ending = Done | UnknownRun | Raised

  function IdSet(page: seq<nat>): set<nat> { set i | i in page }

  // What the pages read so far amount to.
  ghost predicate PagesDone(db: Db, w: World, h: History, scope: Option<nat>, seen: set<nat>, after: nat,
                            state: Db, report: RestoreReport, done: set<Key>)
  {
    && seen <= IdsOf(db.log, h.excludeRun)
    && (forall i :: i in IdsOf(db.log, h.excludeRun) ==> (i in seen <==> i <= after))
    && done == KeysAt(db.log, h.excludeRun, seen) && Logged(db.log, h.excludeRun, done)
    && state == RestoreRows(db, w, h, scope, done) && report == ReportFor(db, w, h, scope, done)
  }

  lemma NoPageDone(db: Db, w: World, h: History, scope: Option<nat>)
    requires UniqueIds(db.log, h.excludeRun)
    ensures PagesDone(db, w, h, scope, {}, 0, db, RestoreReport({}, map[]), {})
  {
    RestoredNone(db, w, h, scope);
  }

  lemma AnotherPage(db: Db, w: World, h: History, scope: Option<nat>, seen: set<nat>, after: nat, limit: nat,
                    state: Db, report: RestoreReport, done: set<Key>, page: seq<nat>, pageIds: set<nat>,
                    keys: set<Key>, state': Db)
    requires limit > 0 && UniqueIds(db.log, h.excludeRun)
    requires PagesDone(db, w, h, scope, seen, after, state, report, done)
    requires page == Page(IdsOf(db.log, h.excludeRun), after, limit) && page != []
    requires pageIds == IdSet(page)
    requires keys == KeysAt(db.log, h.excludeRun, pageIds)
    requires Logged(state.log, h.excludeRun, keys) && state' == RestoreRows(state, w, h, scope, keys)
    ensures PagesDone(db, w, h, scope, seen + pageIds, page[|page| - 1], state',
                      MergeReports(report, ReportFor(state, w, h, scope, keys)), done + keys)
    ensures IdsOf(db.log, h.excludeRun) - (seen + pageIds) < IdsOf(db.log, h.excludeRun) - seen
  {
    hide RestoreRows, ReportFor, UniqueIds, IdsOf, KeysAt, Page;
    PageIsNew(db.log, h.excludeRun, IdsOf(db.log, h.excludeRun), seen, after, limit);
    ReportAdds(db, w, h, scope, done, keys, state, report, state', ReportFor(state, w, h, scope, keys));
  }

  // The rows logged under a page's ids are logged.
  lemma PageLogged(db: Db, w: World, h: History, scope: Option<nat>, done: set<Key>, pageIds: set<nat>)
    requires Logged(db.log, h.excludeRun, done)
    ensures var state := RestoreRows(db, w, h, scope, done);
      state.log == db.log && Logged(state.log, h.excludeRun, KeysAt(db.log, h.excludeRun, pageIds))
  {
    forall k | k in KeysAt(db.log, h.excludeRun, pageIds) ensures LogKey(h.excludeRun, k) in db.log {
      KeysAtIs(db.log, h.excludeRun, pageIds, k);
    }
  }

  // The run's log names known tables only.
  ghost predicate KnownTables(log: map<LogKey, LogEntry>, run: nat) {
    forall l :: l in log && l.run == run ==> l.key.table in TABLES
  }

  lemma PageOfKnown(log: map<LogKey, LogEntry>, run: nat, ids: set<nat>)
    ensures KnownTables(log, run) ==> forall k :: k in KeysAt(log, run, ids) ==> k.table in TABLES
  {
    hide TABLES;
    if KnownTables(log, run) {
      forall k | k in KeysAt(log, run, ids) ensures k.table in TABLES {
        KeysAtIs(log, run, ids, k);
        assert LogKey(run, k) in log;
      }
    }
  }

  method RestorePages(conn: Database, h: History, scope: Option<nat>, limit: nat)
    returns (ok: bool, report: RestoreReport, ghost done: set<Key>)
    requires limit > 0 && UniqueIds(conn.log, h.excludeRun)
    modifies conn
    ensures Logged(old(conn.log), h.excludeRun, done)
    ensures conn.State() == RestoreRows(old(conn.State()), conn.world, h, scope, done)
    ensures report == ReportFor(old(conn.State()), conn.world, h, scope, done)
    ensures ok ==> done == KeysOfRun(old(conn.log), h.excludeRun)
    ensures Surmountable(old(conn.attempts)) && KnownTables(old(conn.log), h.excludeRun) ==> ok
  {
    hide RestoreRows, ReportFor, UniqueIds, IdsOf, KeysAt, Page, KeysOfRun, Surmountable, KnownTables;
    ghost var db := conn.State();
    var ids := IdsOf(conn.log, h.excludeRun);
    var after := 0;
    report, done := RestoreReport({}, map[]), {};
    ghost var seen := {};
    NoPageDone(db, conn.world, h, scope);
    while true
      invariant PagesDone(db, conn.world, h, scope, seen, after, conn.State(), report, done)
      invariant Surmountable(old(conn.attempts)) ==> Surmountable(conn.attempts)
      decreases |ids - seen|
    {
      ghost var state, told := conn.State(), report;
      var page := Page(ids, after, limit);
      if page == [] {
        PageEmpty(ids, after, limit);
        AllSeen(db.log, h.excludeRun, seen, after);
        return true, report, done;
      }
      var pageIds := IdSet(page);
      PageLogged(db, conn.world, h, scope, done, pageIds);
      var keys := KeysAt(conn.log, h.excludeRun, pageIds);
      var ok';
      if Surmountable(conn.attempts) { SurmountableOnce(conn.attempts); }
      PageOfKnown(db.log, h.excludeRun, pageIds);
      ok', report := RestorePageRetried(conn, h, scope, keys, report);
      if !ok' { return false, report, done; }
      AnotherPage(db, conn.world, h, scope, seen, after, limit, state, told, done, page, pageIds, keys, conn.State());
      Smaller(ids - (seen + pageIds), ids - seen);
      after, done, seen := page[|page| - 1], done + keys, seen + pageIds;
    }
  }

  lemma Smaller<T>(a: set<T>, b: set<T>)
    requires a < b
    ensures |a| < |b|
  {
    assert b == a + (b - a);
    assert |b - a| > 0;
  }

  lemma PageEmpty(ids: set<nat>, after: nat, limit: nat)
    requires limit > 0 && Page(ids, after, limit) == []
    ensures Above(ids, after) == {}
  {
  }

  // A restore limited to one workspace, against the same restore without a limit: rows of
  // other workspaces, copying attention items included, are untouched and unreported; rows of
  // the workspace end, and are reported, as without a limit; rows that are gone are reported
  // either way.
  ghost predicate Limited(before: Db, after: Db, report: RestoreReport, w: World, h: History, ws: nat, done: set<Key>)
    requires Logged(before.log, h.excludeRun, done)
  {
    var all, told := RestoreRows(before, w, h, None, done), ReportFor(before, w, h, None, done);
    && after.rows.Keys == before.rows.Keys && after.grants == before.grants && after.log == before.log
    && (forall k :: k in before.rows ==>
          k in all.rows && after.rows[k] == if before.rows[k].ws == ws then all.rows[k] else before.rows[k])
    && (forall k :: k in report.restored <==> k in told.restored && k in before.rows && before.rows[k].ws == ws)
    && (forall k :: k in report.refused <==> k in told.refused && (k in before.rows ==> before.rows[k].ws == ws))
    && (forall k :: k in report.refused ==> report.refused[k] == told.refused[k])
  }

  lemma ScopedVerdict(db: Db, w: World, h: History, ws: nat, k: Key)
    requires LogKey(h.excludeRun, k) in db.log
    ensures var v, all := VerdictOf(db, w, h, Some(ws), k), VerdictOf(db, w, h, None, k);
      && (k in db.rows && db.rows[k].ws != ws ==> !v.PutBack? && !v.Refused?)
      && (k in db.rows && db.rows[k].ws == ws ==> v == all)
      && (k !in db.rows ==> v == all && !v.PutBack?)
      && (all.PutBack? ==> k in db.rows)
  {
    hide Decide, InSet, Refusal, SnapshotOf;
  }

  lemma ScopeLimits(db: Db, w: World, h: History, ws: nat, done: set<Key>)
    requires Logged(db.log, h.excludeRun, done)
    ensures Limited(db, RestoreRows(db, w, h, Some(ws), done), ReportFor(db, w, h, Some(ws), done), w, h, ws, done)
  {
    hide VerdictOf, MovedRow, Mirrored;
    forall k | k in done
      ensures var v, all := VerdictOf(db, w, h, Some(ws), k), VerdictOf(db, w, h, None, k);
        && (k in db.rows && db.rows[k].ws != ws ==> !v.PutBack? && !v.Refused?)
        && (k in db.rows && db.rows[k].ws == ws ==> v == all)
        && (k !in db.rows ==> v == all && !v.PutBack?)
        && (all.PutBack? ==> k in db.rows)
    {
      ScopedVerdict(db, w, h, ws, k);
    }
    ghost var some, all := RestoreMoves(db, w, h, Some(ws), done), RestoreMoves(db, w, h, None, done);
    forall k | k in db.rows
      ensures MoveOne(db.rows, some, k) == if db.rows[k].ws == ws then MoveOne(db.rows, all, k) else db.rows[k]
    {
      assert k in some <==> k in all && db.rows[k].ws == ws;
      ghost var e := EntityOf(k, db.rows[k]);
      if e.Some? && e.value in db.rows { assert e.value in some <==> e.value in all && db.rows[e.value].ws == ws; }
    }
  }

  // The whole command: every log row of the run, whatever the page size.
  method RunRestore(conn: Database, run: nat, scope: Option<nat>, limit: nat)
    returns (ending: Ending, report: RestoreReport, ghost done: set<Key>, h: History)
    requires limit > 0 && UniqueIds(conn.log, run)
    modifies conn
    ensures h.excludeRun == run && Logged(old(conn.log), run, done)
    ensures conn.State() == RestoreRows(old(conn.State()), conn.world, h, scope, done)
    ensures report == ReportFor(old(conn.State()), conn.world, h, scope, done)
    ensures ending == UnknownRun <==> KeysOfRun(old(conn.log), run) == {}
    ensures ending == Done ==> done == KeysOfRun(old(conn.log), run)
    ensures ending != UnknownRun ==> StartedAt(old(conn.log), run, h.before)
    ensures Surmountable(old(conn.attempts)) && KnownTables(old(conn.log), run) ==> ending != Raised
    ensures scope.Some? ==> Limited(old(conn.State()), conn.State(), report, conn.world, h, scope.value, done)
  {
    hide RestoreRows, ReportFor, Limited;
    ghost var db := conn.State();
    var times := set l | l in conn.log && l.run == run :: conn.log[l].at;
    report, done, h := RestoreReport({}, map[]), {}, History(run, None);
    RestoredNone(db, conn.world, h, scope);
    TimesOfRun(conn.log, run, times);
    if times == {} {
      if scope.Some? { ScopeLimits(db, conn.world, h, scope.value, done); }
      return UnknownRun, report, done, h;
    }
    h := History(run, Some(Least(times)));
    Started(conn.log, run, times);
    var ok;
    ok, report, done := RestorePages(conn, h, scope, limit);
    ending := if ok then Done else Raised;
    if scope.Some? { ScopeLimits(db, conn.world, h, scope.value, done); }
  }

  lemma Started(log: map<LogKey, LogEntry>, run: nat, times: set<nat>)
    requires times == (set l | l in log && l.run == run :: log[l].at) && times != {}
    ensures StartedAt(log, run, Some(Least(times)))
  {
    assert Least(times) in times;
    forall l | l in log && l.run == run ensures Least(times) <= log[l].at { assert log[l].at in times; }
  }

  // The time of the run's first log row.
  ghost predicate StartedAt(log: map<LogKey, LogEntry>, run: nat, before: Option<nat>) {
    && before.Some?
    && (exists l :: l in log && l.run == run && log[l].at == before.value)
    && (forall l :: l in log && l.run == run ==> before.value <= log[l].at)
  }

  lemma TimesOfRun(log: map<LogKey, LogEntry>, run: nat, times: set<nat>)
    requires times == set l | l in log && l.run == run :: log[l].at
    ensures times == {} <==> KeysOfRun(log, run) == {}
  {
    if times != {} {
      var at :| at in times;
      var l :| l in log && l.run == run && log[l].at == at;
      assert l.key in KeysOfRun(log, run);
    }
    if KeysOfRun(log, run) != {} {
      var k :| k in KeysOfRun(log, run);
      assert log[LogKey(run, k)].at in times;
    }
  }

  lemma AllSeen(log: map<LogKey, LogEntry>, run: nat, seen: set<nat>, after: nat)
    requires Above(IdsOf(log, run), after) == {}
    requires forall i :: i in IdsOf(log, run) ==> (i in seen <==> i <= after)
    ensures KeysAt(log, run, seen) == KeysOfRun(log, run)
  {
    forall l | l in log && l.run == run ensures log[l].id in seen {
      assert log[l].id in IdsOf(log, run);
      assert log[l].id !in Above(IdsOf(log, run), after);
    }
  }

  lemma KeysApart(log: map<LogKey, LogEntry>, run: nat, a: set<nat>, b: set<nat>)
    requires UniqueIds(log, run) && a !! b
    ensures KeysAt(log, run, a) !! KeysAt(log, run, b)
    ensures KeysAt(log, run, a + b) == KeysAt(log, run, a) + KeysAt(log, run, b)
    ensures Logged(log, run, KeysAt(log, run, b))
  {
    hide KeysAt;
    forall k ensures k in KeysAt(log, run, b) ==> LogKey(run, k) in log
      ensures !(k in KeysAt(log, run, a) && k in KeysAt(log, run, b))
      ensures k in KeysAt(log, run, a + b) <==> k in KeysAt(log, run, a) || k in KeysAt(log, run, b)
    {
      KeysAtIs(log, run, a, k);
      KeysAtIs(log, run, b, k);
      KeysAtIs(log, run, a + b, k);
    }
  }

  lemma PageIsNew(log: map<LogKey, LogEntry>, run: nat, ids: set<nat>, seen: set<nat>, after: nat, limit: nat)
    requires limit > 0 && UniqueIds(log, run) && ids == IdsOf(log, run) && seen <= ids
    requires forall i :: i in ids ==> (i in seen <==> i <= after)
    requires Page(ids, after, limit) != []
    ensures var page := Page(ids, after, limit);
      var pageIds := IdSet(page);
      var last := page[|page| - 1];
      && KeysAt(log, run, seen) !! KeysAt(log, run, pageIds)
      && KeysAt(log, run, seen + pageIds) == KeysAt(log, run, seen) + KeysAt(log, run, pageIds)
      && Logged(log, run, KeysAt(log, run, pageIds))
      && seen + pageIds <= ids && ids - (seen + pageIds) < ids - seen
      && forall i :: i in ids ==> (i in seen + pageIds <==> i <= last)
  {
    hide KeysAt, UniqueIds, IdsOf, Page, Logged;
    var page := Page(ids, after, limit);
    var pageIds := IdSet(page);
    var last := page[|page| - 1];
    PageRange(ids, after, limit);
    assert last in page;
    assert forall i :: i in pageIds <==> i in ids && after < i <= last;
    assert seen !! pageIds;
    KeysApart(log, run, seen, pageIds);
    assert last in pageIds && last !in seen;
  }

  // A page is the ids above the cursor up to its last one.
  lemma PageRange(ids: set<nat>, after: nat, limit: nat)
    requires limit > 0 && Page(ids, after, limit) != []
    ensures var page := Page(ids, after, limit);
      forall i :: i in page <==> (i in ids && after < i <= page[|page| - 1])
  {
    var all, page := Sorted(Above(ids, after)), Page(ids, after, limit);
    forall i ensures i in page <==> (i in ids && after < i <= page[|page| - 1]) {
      if i in page {
        var j :| 0 <= j < |page| && page[j] == i;
        assert all[j] in all;
      }
      if i in ids && after < i <= page[|page| - 1] {
        assert i in all;
        var j :| 0 <= j < |all| && all[j] == i;
        assert j < |page| && page[j] == i;
      }
    }
  }
}
