// The backfill command: workspaces x tables x keyset batches, dry or real.
module BackfillRun {
  import opened Ordering
  import opened Records
  import opened Rules
  import opened Moves
  import opened Process
  import opened Store
  import opened Personal

  datatype Stats = Stats(changed: nat, grantsRevoked: nat, unresolved: nat)

  datatype UnresolvedRow = UnresolvedRow(key: Key, reason: Reason, grantsRevoked: nat)

  datatype Report = Report(stats: map<Table, Stats>, unresolved: seq<UnresolvedRow>)

  const NOTHING := Report(map[], [])

  function StatsOf(r: Report, t: Table): Stats {
    if t in r.stats then r.stats[t] else Stats(0, 0, 0)
  }

  function Plus(a: Stats, b: Stats): Stats {
    Stats(a.changed + b.changed, a.grantsRevoked + b.grantsRevoked, a.unresolved + b.unresolved)
  }

  // Adds a committed batch's report.
  function Merge(a: Report, b: Report): Report {
    Report(map t | t in a.stats.Keys + b.stats.Keys :: Plus(StatsOf(a, t), StatsOf(b, t)), a.unresolved + b.unresolved)
  }

  function RowReport(k: Key, o: Outcome): Report {
    Report(map[k.table := Stats(if o.logged then 1 else 0, o.grants, if o.reason.Some? then 1 else 0)],
           if o.reason.Some? then [UnresolvedRow(k, o.reason.value, o.grants)] else [])
  }

  ghost predicate AllSelected(rows: map<Key, Row>, keys: seq<Key>) {
    forall k :: k in keys ==> k in rows && InSet(rows, k)
  }

  ghost function SetOf(keys: seq<Key>): set<Key> { set k | k in keys }

  // What a run over `keys`, in this order, reports.
  ghost function ReportOf(db: Db, w: World, run: nat, keys: seq<Key>): Report
    requires AllSelected(db.rows, keys)
    decreases |keys|
  {
    if keys == [] then NOTHING
    else
      var n := |keys| - 1;
      assert keys[n] in keys;
      Merge(ReportOf(db, w, run, keys[..n]), RowReport(keys[n], Judge(db, w, run, keys[n])))
  }

  // ------------------------------------------------------------------- the walk

  function ScopeOf(rows: map<Key, Row>, ws: nat, t: Table): set<nat> {
    set k | k in rows && k.table == t && rows[k].ws == ws && InSet(rows, k) :: k.id
  }

  function KeysOf(t: Table, ids: seq<nat>): (q: seq<Key>)
    ensures |q| == |ids| && forall i :: 0 <= i < |ids| ==> q[i] == Key(t, ids[i])
  {
    seq(|ids|, i requires 0 <= i < |ids| => Key(t, ids[i]))
  }

  // The walk starts after the zero id.
  ghost function TableIds(rows: map<Key, Row>, ws: nat, t: Table): seq<nat> {
    Sorted(Above(ScopeOf(rows, ws, t), 0))
  }

  ghost function TableWalk(rows: map<Key, Row>, ws: nat, t: Table): seq<Key> {
    KeysOf(t, TableIds(rows, ws, t))
  }

  ghost function TablesWalk(rows: map<Key, Row>, ws: nat, tables: seq<Table>): seq<Key> {
    if tables == [] then []
    else TablesWalk(rows, ws, tables[..|tables| - 1]) + TableWalk(rows, ws, tables[|tables| - 1])
  }

  // Every row of the set, workspace by workspace, table by table, by ascending id.
  ghost function Walk(rows: map<Key, Row>, workspaces: seq<nat>): seq<Key> {
    if workspaces == [] then []
    else
      var n := |workspaces| - 1;
      Walk(rows, workspaces[..n]) + TablesWalk(rows, workspaces[n], TABLES)
  }

  lemma {:induction false} TablesWalkIs(rows: map<Key, Row>, ws: nat, tables: seq<Table>, k: Key)
    ensures k in TablesWalk(rows, ws, tables)
      <==> (k in rows && k.table in tables && rows[k].ws == ws && k.id > 0 && InSet(rows, k))
    decreases |tables|
  {
    hide InSet, TableWalk;
    if tables != [] {
      var n := |tables| - 1;
      var t := tables[n];
      TablesWalkIs(rows, ws, tables[..n], k);
      assert tables == tables[..n] + [t];
      TableWalkIs(rows, ws, t, k);
    }
  }

  lemma TableWalkIs(rows: map<Key, Row>, ws: nat, t: Table, k: Key)
    ensures k in TableWalk(rows, ws, t)
      <==> (k in rows && k.table == t && rows[k].ws == ws && k.id > 0 && InSet(rows, k))
  {
    var ids, q := TableIds(rows, ws, t), TableWalk(rows, ws, t);
    if k in q {
      var i :| 0 <= i < |q| && q[i] == k;
      assert ids[i] in ids;
      assert k == Key(t, k.id);
    }
    if k in rows && k.table == t && rows[k].ws == ws && k.id > 0 && InSet(rows, k) {
      assert k.id in ids;
      var i :| 0 <= i < |ids| && ids[i] == k.id;
      assert q[i] == k;
    }
  }

  // The walk visits exactly the rows of the set in these workspaces.
  lemma {:induction false} WalkIs(rows: map<Key, Row>, workspaces: seq<nat>, k: Key)
    ensures k in Walk(rows, workspaces)
      <==> (k in rows && rows[k].ws in workspaces && k.table in TABLES && k.id > 0 && InSet(rows, k))
    decreases |workspaces|
  {
    hide InSet, TablesWalk;
    if workspaces != [] {
      var n := |workspaces| - 1;
      WalkIs(rows, workspaces[..n], k);
      assert workspaces == workspaces[..n] + [workspaces[n]];
      TablesWalkIs(rows, workspaces[n], TABLES, k);
    }
  }

  // The same on the tables' own columns: every row of the personal data set and every row
  // derived from it, of all fourteen tables.
  lemma WalkOnColumns(rows: map<Key, Row>, workspaces: seq<nat>, k: Key)
    ensures k in Walk(rows, workspaces)
      <==> (k in rows && rows[k].ws in workspaces && k.id > 0 && OnColumns(rows, k))
  {
    hide Walk, InSet, OnColumns, TABLES;
    WalkIs(rows, workspaces, k);
    if k in rows { SetOnColumns(rows, k); }
    if !k.table.Other? { KnownTable(k.table); } else if k in rows { NotPersonal(rows, k); }
  }

  lemma NotPersonal(rows: map<Key, Row>, k: Key)
    requires k in rows && k.table.Other?
    ensures !InSet(rows, k)
  {
  }

  lemma KnownTable(t: Table)
    requires !t.Other?
    ensures t in TABLES
  {
    match t {
      case ConnectorAccounts => assert TABLES[0] == t;
      case SyncRuns => assert TABLES[1] == t;
      case SyncCursors => assert TABLES[2] == t;
      case AttentionItems => assert TABLES[3] == t;
      case Recommendations => assert TABLES[4] == t;
      case AiRuns => assert TABLES[5] == t;
      case AiRunSteps => assert TABLES[6] == t;
      case PkosEvidence => assert TABLES[7] == t;
      case EntityAliases => assert TABLES[8] == t;
      case Tasks => assert TABLES[9] == t;
      case Commitments => assert TABLES[10] == t;
      case Risks => assert TABLES[11] == t;
      case RecommendationFeedback => assert TABLES[12] == t;
      case AttentionFeedback => assert TABLES[13] == t;
    }
  }

  // ------------------------------------------------------------------ reports add up

  lemma MergeNothing(a: Report)
    ensures Merge(NOTHING, a) == a && Merge(a, NOTHING) == a
  {
    assert NOTHING.unresolved + a.unresolved == a.unresolved;
    assert a.unresolved + NOTHING.unresolved == a.unresolved;
  }

  lemma MergedStats(a: Report, b: Report, t: Table)
    ensures StatsOf(Merge(a, b), t) == Plus(StatsOf(a, t), StatsOf(b, t))
    ensures t in Merge(a, b).stats <==> t in a.stats || t in b.stats
  {
  }

  lemma MergedUnresolved(a: Report, b: Report)
    ensures Merge(a, b).unresolved == a.unresolved + b.unresolved
  {
    hide StatsOf, Plus;
  }

  lemma MergeAssociates(a: Report, b: Report, c: Report)
    ensures Merge(Merge(a, b), c) == Merge(a, Merge(b, c))
  {
    hide Merge, StatsOf;
    ghost var x, y := Merge(Merge(a, b), c), Merge(a, Merge(b, c));
    MergedUnresolved(a, b);
    MergedUnresolved(b, c);
    MergedUnresolved(Merge(a, b), c);
    MergedUnresolved(a, Merge(b, c));
    Associate(a.unresolved, b.unresolved, c.unresolved);
    forall t
      ensures t in x.stats <==> t in y.stats
      ensures StatsOf(x, t) == StatsOf(y, t)
    {
      MergedStats(a, b, t);
      MergedStats(b, c, t);
      MergedStats(Merge(a, b), c, t);
      MergedStats(a, Merge(b, c), t);
    }
    SameStats(x, y);
  }

  lemma SameStats(x: Report, y: Report)
    requires x.unresolved == y.unresolved
    requires forall t :: t in x.stats <==> t in y.stats
    requires forall t :: StatsOf(x, t) == StatsOf(y, t)
    ensures x == y
  {
    forall t | t in x.stats ensures x.stats[t] == y.stats[t] {
      assert StatsOf(x, t) == StatsOf(y, t);
    }
    MapsEqual(x.stats, y.stats);
  }

  lemma {:induction false} ReportsAdd(db: Db, w: World, run: nat, x: seq<Key>, y: seq<Key>)
    requires AllSelected(db.rows, x) && AllSelected(db.rows, y)
    ensures AllSelected(db.rows, x + y)
    ensures ReportOf(db, w, run, x + y) == Merge(ReportOf(db, w, run, x), ReportOf(db, w, run, y))
    decreases |y|
  {
    if y == [] {
      assert x + y == x;
      MergeNothing(ReportOf(db, w, run, x));
    } else {
      var n := |y| - 1;
      assert (x + y)[..|x + y| - 1] == x + y[..n] && (x + y)[|x + y| - 1] == y[n];
      assert y[n] in y;
      ReportsAdd(db, w, run, x, y[..n]);
      MergeAssociates(ReportOf(db, w, run, x), ReportOf(db, w, run, y[..n]), RowReport(y[n], Judge(db, w, run, y[n])));
    }
  }

  // A row reports the same, whatever other rows were processed before it.
  lemma {:induction false} ReportStable(db: Db, w: World, run: nat, stamps: Key -> Stamp, done: set<Key>, keys: seq<Key>)
    requires Selected(db.rows, done) && AllSelected(db.rows, keys) && SetOf(keys) !! done
    ensures var mid := ProcessRows(db, w, run, stamps, done);
      AllSelected(mid.rows, keys) && ReportOf(mid, w, run, keys) == ReportOf(db, w, run, keys)
    decreases |keys|
  {
    ghost var mid := ProcessRows(db, w, run, stamps, done);
    SelectedStable(db, w, run, stamps, done, SetOf(keys));
    forall k | k in keys ensures k in mid.rows && InSet(mid.rows, k) { assert k in SetOf(keys); }
    if keys != [] {
      var n := |keys| - 1;
      assert keys[n] in SetOf(keys);
      assert SetOf(keys[..n]) <= SetOf(keys);
      ReportStable(db, w, run, stamps, done, keys[..n]);
      JudgeStable(db, w, run, stamps, done, keys[n]);
    }
  }

  // ------------------------------------------------------------------------- a batch

  predicate InScope(rows: map<Key, Row>, ws: nat, t: Table, id: nat) {
    Key(t, id) in rows && rows[Key(t, id)].ws == ws && InSet(rows, Key(t, id))
  }

  lemma ScopeIs(rows: map<Key, Row>, ws: nat, t: Table, id: nat)
    ensures id in ScopeOf(rows, ws, t) <==> InScope(rows, ws, t, id)
  {
    hide InSet;
    if InScope(rows, ws, t, id) { assert Key(t, id).id == id; }
  }

  // Reads the next rows of the walk and the cursor to continue from (None: done): ascending
  // ids of the set above the cursor, at most `limit`, none left out before the new cursor and
  // none at all when there is no new cursor.
  method BatchRows(conn: Database, t: Table, ws: nat, after: nat, limit: nat)
    returns (ids: seq<nat>, cursor: Option<nat>)
    requires limit > 0
    ensures Increasing(ids) && |ids| <= limit
    ensures forall x :: x in ids ==> x > after && InScope(conn.rows, ws, t, x)
    ensures forall x :: x > after && InScope(conn.rows, ws, t, x) && x !in ids ==>
      cursor.Some? && |ids| == limit && cursor.value < x
    ensures cursor.Some? <==> ids != []
    ensures cursor.Some? ==> cursor.value in ids && cursor.value > after && forall x :: x in ids ==> x <= cursor.value
  {
    hide InScope, ScopeOf;
    ids := Page(ScopeOf(conn.rows, ws, t), after, limit);
    cursor := if ids == [] then None else Some(ids[|ids| - 1]);
    PageIsOne(ScopeOf(conn.rows, ws, t), after, limit);
    forall x ensures x in ScopeOf(conn.rows, ws, t) <==> InScope(conn.rows, ws, t, x) { ScopeIs(conn.rows, ws, t, x); }
  }

  lemma BatchIsPage(rows: map<Key, Row>, t: Table, ws: nat, after: nat, limit: nat, ids: seq<nat>, cursor: Option<nat>)
    requires limit > 0 && Increasing(ids) && |ids| <= limit
    requires forall x :: x in ids ==> x > after && InScope(rows, ws, t, x)
    requires forall x :: x > after && InScope(rows, ws, t, x) && x !in ids ==>
      cursor.Some? && |ids| == limit && cursor.value < x
    requires cursor.Some? <==> ids != []
    requires cursor.Some? ==> cursor.value in ids && forall x :: x in ids ==> x <= cursor.value
    ensures ids == Page(ScopeOf(rows, ws, t), after, limit)
    ensures cursor == if ids == [] then None else Some(ids[|ids| - 1])
  {
    hide InScope, ScopeOf;
    forall x ensures x in ScopeOf(rows, ws, t) <==> InScope(rows, ws, t, x) { ScopeIs(rows, ws, t, x); }
    if ids != [] {
      var i :| 0 <= i < |ids| && ids[i] == cursor.value;
      assert ids[|ids| - 1] in ids;
    }
    PageMeaning(ScopeOf(rows, ws, t), after, limit, ids);
  }

  lemma PageSelected(rows: map<Key, Row>, ws: nat, t: Table, after: nat, limit: nat)
    ensures AllSelected(rows, KeysOf(t, Page(ScopeOf(rows, ws, t), after, limit)))
  {
    var ids := Page(ScopeOf(rows, ws, t), after, limit);
    var keys := KeysOf(t, ids);
    forall k | k in keys ensures k in rows && InSet(rows, k) {
      var i :| 0 <= i < |keys| && keys[i] == k;
      assert ids[i] in Sorted(Above(ScopeOf(rows, ws, t), after));
    }
  }

  // One more row decided.
  lemma OneMoreRow(db: Db, w: World, run: nat, keys: seq<Key>, i: nat)
    requires AllSelected(db.rows, keys) && i < |keys|
    ensures AllSelected(db.rows, keys[..i]) && AllSelected(db.rows, keys[..i + 1])
    ensures keys[i] in db.rows && InSet(db.rows, keys[i])
    ensures var k, o := keys[i], Judge(db, w, run, keys[i]);
      && PlanOf(db, w, run, SetOf(keys[..i + 1])) == PlanOf(db, w, run, SetOf(keys[..i]))[k := o]
      && ReportOf(db, w, run, keys[..i + 1]) == Merge(ReportOf(db, w, run, keys[..i]), RowReport(k, o))
  {
    hide Judge, Merge, RowReport, InSet;
    assert keys[..i + 1] == keys[..i] + [keys[i]];
    assert keys[..i + 1][..i] == keys[..i];
    assert SetOf(keys[..i + 1]) == SetOf(keys[..i]) + {keys[i]};
    MapsEqual(PlanOf(db, w, run, SetOf(keys[..i + 1])),
              PlanOf(db, w, run, SetOf(keys[..i]))[keys[i] := Judge(db, w, run, keys[i])]);
  }

  // The batch's decisions and changes; what it reports.
  method Changes(conn: Database, run: nat, keys: seq<Key>) returns (plan: Plan, report: Report)
    requires AllSelected(conn.rows, keys)
    ensures plan == PlanOf(conn.State(), conn.world, run, SetOf(keys))
    ensures report == ReportOf(conn.State(), conn.world, run, keys)
  {
    hide Judge, Merge, RowReport, InSet, ReportOf, PlanOf;
    plan, report := map[], NOTHING;
    NoRow(conn.State(), conn.world, run, keys);
    for i := 0 to |keys|
      invariant AllSelected(conn.rows, keys[..i])
      invariant plan == PlanOf(conn.State(), conn.world, run, SetOf(keys[..i]))
      invariant report == ReportOf(conn.State(), conn.world, run, keys[..i])
    {
      OneMoreRow(conn.State(), conn.world, run, keys, i);
      var o := Judge(conn.State(), conn.world, run, keys[i]);
      plan := plan[keys[i] := o];
      report := Merge(report, RowReport(keys[i], o));
    }
    assert keys[..|keys|] == keys;
  }

  lemma NoRow(db: Db, w: World, run: nat, keys: seq<Key>)
    ensures AllSelected(db.rows, keys[..0])
    ensures PlanOf(db, w, run, SetOf(keys[..0])) == map[] && ReportOf(db, w, run, keys[..0]) == NOTHING
  {
    assert SetOf(keys[..0]) == {};
  }

  // Logs the changes: one row each, the existing one kept on a conflict.
  method LogChanges(conn: Database, run: nat, stamps: Key -> Stamp, plan: Plan, keys: seq<Key>)
    requires SetOf(keys) == plan.Keys && plan.Keys <= conn.rows.Keys
    modifies conn`log
    ensures conn.log == NewEntries(conn.rows, plan, run, stamps) + old(conn.log)
  {
    ghost var before := conn.log;
    for i := 0 to |keys|
      invariant forall l :: l in conn.log <==>
        (l in before || (l.run == run && l.key in keys[..i] && l.key in plan && plan[l.key].logged))
      invariant forall l :: l in conn.log ==>
        conn.log[l] == if l in before then before[l] else EntryOf(conn.rows, l.key, plan[l.key], stamps(l.key))
    {
      var k := keys[i];
      assert k in SetOf(keys);
      assert keys[..i + 1] == keys[..i] + [k];
      if plan[k].logged && LogKey(run, k) !in conn.log {
        conn.log := conn.log[LogKey(run, k) := EntryOf(conn.rows, k, plan[k], stamps(k))];
      }
    }
    assert keys[..|keys|] == keys;
    var all := NewEntries(conn.rows, plan, run, stamps) + before;
    forall l ensures l in conn.log <==> l in all ensures l in all ==> conn.log[l] == all[l] {
      EntriesAt(conn.rows, plan, run, stamps, l);
      assert l.key in plan ==> l.key in SetOf(keys);
    }
    MapsEqual(conn.log, all);
  }

  // Revokes the grants, logs and applies the changes, and mirrors the attention items.
  method Apply(conn: Database, run: nat, stamps: Key -> Stamp, plan: Plan, keys: seq<Key>)
    requires SetOf(keys) == plan.Keys && plan.Keys <= conn.rows.Keys
    requires Admissible(conn.rows, MovesOf(conn.rows, plan))
    requires forall k :: k in plan && !plan[k].logged ==>
      plan[k].owner == conn.rows[k].owner && plan[k].vis == conn.rows[k].vis
    modifies conn
    ensures conn.State() == ApplyPlan(old(conn.State()), plan, run, stamps)
    ensures conn.attempts == old(conn.attempts)
  {
    hide Revoked, MirroredBy, ApplyMoves, NewEntries;
    ghost var rows := conn.rows;
    conn.grants := map g | g in conn.grants ::
      if Revoked(conn.rows, plan, conn.grants[g])
      then conn.grants[g].(revokedAt := Some(stamps(conn.grants[g].resource).at)) else conn.grants[g];
    LogChanges(conn, run, stamps, plan, keys);
    var values := map k | k in plan && plan[k].logged :: (plan[k].owner, plan[k].vis);
    var updated := conn.UpdateRows(values);
    ghost var mid := conn.rows;
    conn.MirrorAttention(plan.Keys, updated);
    AppliedMoves(rows, plan, mid, updated, conn.rows);
  }

  lemma AppliedMoves(rows: map<Key, Row>, plan: Plan, mid: map<Key, Row>, updated: set<Key>, after: map<Key, Row>)
    requires plan.Keys <= rows.Keys && mid.Keys == rows.Keys
    requires Admissible(rows, MovesOf(rows, plan))
    requires forall k :: k in plan && !plan[k].logged ==> plan[k].owner == rows[k].owner && plan[k].vis == rows[k].vis
    requires forall k :: k in rows ==>
      mid[k] == if k in plan && plan[k].logged then MovedRow(k.table, rows[k], plan[k].owner, plan[k].vis) else rows[k]
    requires forall k :: k in updated <==>
      k in plan && plan[k].logged && (rows[k].owner, rows[k].vis) != (plan[k].owner, plan[k].vis)
    requires after.Keys == rows.Keys && forall k :: k in rows ==> after[k] == MirroredBy(mid, plan.Keys, updated, k)
    ensures after == ApplyMoves(rows, MovesOf(rows, plan))
  {
    UpdateThenMirror(rows, mid, MovesOf(rows, plan), updated);
    MapsEqual(after, ApplyMoves(rows, MovesOf(rows, plan)));
  }

  // One batch; returns the cursor to continue from, or None when done.
  method ProcessBatch(conn: Database, t: Table, ws: nat, after: nat, limit: nat, write: bool, run: nat,
                      stamps: Key -> Stamp) returns (cursor: Option<nat>, report: Report, ghost keys: seq<Key>)
    requires limit > 0
    modifies conn
    ensures keys == KeysOf(t, Page(ScopeOf(old(conn.rows), ws, t), after, limit))
    ensures AllSelected(old(conn.rows), keys)
    ensures cursor == if keys == [] then None else Some(keys[|keys| - 1].id)
    ensures conn.State() == if write then ProcessRows(old(conn.State()), conn.world, run, stamps, SetOf(keys))
                            else old(conn.State())
    ensures report == ReportOf(old(conn.State()), conn.world, run, keys)
    ensures conn.attempts == old(conn.attempts)
  {
    var ids;
    ids, cursor := BatchRows(conn, t, ws, after, limit);
    BatchIsPage(conn.rows, t, ws, after, limit, ids, cursor);
    PageSelected(conn.rows, ws, t, after, limit);
    var batch := KeysOf(t, ids);
    keys := batch;
    ghost var before := conn.State();
    var plan;
    plan, report := Changes(conn, run, batch);
    if write {
      MovesAdmissible(before, conn.world, run, SetOf(batch));
      UnloggedUnchanged(before, conn.world, run, plan);
      Apply(conn, run, stamps, plan, batch);
    }
  }

  lemma UnloggedUnchanged(db: Db, w: World, run: nat, plan: Plan)
    requires Selected(db.rows, plan.Keys) && plan == PlanOf(db, w, run, plan.Keys)
    ensures forall k :: k in plan && !plan[k].logged ==>
      plan[k].owner == db.rows[k].owner && plan[k].vis == db.rows[k].vis
  {
  }

  const MAX_ATTEMPTS := 5

  // One committed batch, retried from the same cursor when the database rolls it back;
  // `ok` is false when it gives up, with nothing of the batch left behind.
  method WriteBatch(conn: Database, t: Table, ws: nat, after: nat, limit: nat, run: nat,
                    stamps: Key -> Stamp, report: Report)
    returns (ok: bool, cursor: Option<nat>, merged: Report, ghost keys: seq<Key>)
    requires limit > 0
    modifies conn
    ensures keys == KeysOf(t, Page(ScopeOf(old(conn.rows), ws, t), after, limit))
    ensures AllSelected(old(conn.rows), keys)
    ensures ok <==> GetsThrough(old(conn.attempts), 5)
    ensures Surmountable(old(conn.attempts)) ==> ok && Surmountable(conn.attempts)
    ensures ok ==> cursor == if keys == [] then None else Some(keys[|keys| - 1].id)
    ensures ok ==> conn.State() == ProcessRows(old(conn.State()), conn.world, run, stamps, SetOf(keys))
    ensures ok ==> merged == Merge(report, ReportOf(old(conn.State()), conn.world, run, keys))
    ensures !ok ==> conn.State() == old(conn.State()) && merged == report
  {
    hide ProcessRows, ReportOf, Merge, Page, ScopeOf, KeysOf, AllSelected;
    var before := conn.State();
    keys := KeysOf(t, Page(ScopeOf(conn.rows, ws, t), after, limit));
    PageSelected(conn.rows, ws, t, after, limit);
    if Surmountable(conn.attempts) { SurmountableOnce(conn.attempts); }
    for attempt := 0 to MAX_ATTEMPTS
      invariant conn.State() == before
      invariant keys == KeysOf(t, Page(ScopeOf(before.rows, ws, t), after, limit))
      invariant GetsThrough(old(conn.attempts), 5) <==> GetsThrough(conn.attempts, MAX_ATTEMPTS - attempt)
      invariant Surmountable(old(conn.attempts)) ==> Surmountable(conn.attempts)
    {
      if Surmountable(conn.attempts) { SurmountableOnce(conn.attempts); }
      var batchReport;
      cursor, batchReport, keys := ProcessBatch(conn, t, ws, after, limit, true, run, stamps);
      var end := conn.End(before);
      if end.Commits? {
        merged := Merge(report, batchReport);
        return true, cursor, merged, keys;
      }
      if !end.retryable { return false, None, report, keys; }
    }
    return false, None, report, keys;
  }

  // -------------------------------------------------------------------------- the run

  // The state and the report are those of having processed `walked` from `db`.
  ghost predicate Reached(db: Db, w: World, run: nat, stamps: Key -> Stamp, write: bool, walked: seq<Key>,
                          state: Db, report: Report)
  {
    && AllSelected(db.rows, walked)
    && state == (if write then ProcessRows(db, w, run, stamps, SetOf(walked)) else db)
    && report == ReportOf(db, w, run, walked)
  }

  lemma ReachedStep(db: Db, w: World, run: nat, stamps: Key -> Stamp, write: bool, walked: seq<Key>,
                    state: Db, report: Report, keys: seq<Key>, state': Db, report': Report)
    requires Reached(db, w, run, stamps, write, walked, state, report)
    requires AllSelected(db.rows, keys) && SetOf(keys) !! SetOf(walked)
    requires AllSelected(state.rows, keys)
    requires state' == if write then ProcessRows(state, w, run, stamps, SetOf(keys)) else state
    requires report' == Merge(report, ReportOf(state, w, run, keys))
    ensures Reached(db, w, run, stamps, write, walked + keys, state', report')
  {
    ReportsAdd(db, w, run, walked, keys);
    assert SetOf(walked + keys) == SetOf(walked) + SetOf(keys);
    if write {
      ReportStable(db, w, run, stamps, SetOf(walked), keys);
      Compose(db, w, run, stamps, SetOf(walked), SetOf(keys));
    }
  }

  lemma ScopeStable(a: map<Key, Row>, b: map<Key, Row>, ws: nat, t: Table)
    requires SameFacts(a, b)
    ensures ScopeOf(a, ws, t) == ScopeOf(b, ws, t)
  {
    forall k | k in a ensures InSet(a, k) == InSet(b, k) { SameSet(a, b, k); }
    forall x ensures x in ScopeOf(a, ws, t) <==> x in ScopeOf(b, ws, t) {
      assert x in ScopeOf(a, ws, t) <==> Key(t, x) in a && a[Key(t, x)].ws == ws && InSet(a, Key(t, x)) by {
        assert Key(t, x).id == x;
      }
      assert x in ScopeOf(b, ws, t) <==> Key(t, x) in b && b[Key(t, x)].ws == ws && InSet(b, Key(t, x)) by {
        assert Key(t, x).id == x;
      }
    }
  }

  lemma ReachedScope(db: Db, w: World, run: nat, stamps: Key -> Stamp, write: bool, walked: seq<Key>,
                     state: Db, report: Report, ws: nat, t: Table)
    requires Reached(db, w, run, stamps, write, walked, state, report)
    ensures ScopeOf(state.rows, ws, t) == ScopeOf(db.rows, ws, t)
  {
    if write {
      InputsKept(db, w, run, stamps, SetOf(walked));
      ScopeStable(db.rows, state.rows, ws, t);
    }
  }

  function Min(a: nat, b: nat): nat { if a <= b then a else b }

  lemma RestAt(scope: set<nat>, n: nat)
    requires n <= |Sorted(Above(scope, 0))|
    ensures var s := Sorted(Above(scope, 0));
      Sorted(Above(scope, if n == 0 then 0 else s[n - 1])) == s[n..]
  {
    var s := Sorted(Above(scope, 0));
    if n > 0 {
      SortedAbove(Above(scope, 0), n);
      assert s[n - 1] in s;
      assert Above(Above(scope, 0), s[n - 1]) == Above(scope, s[n - 1]);
    }
  }

  // The page after the first n ids of a walk is its next stretch.
  lemma PageAt(scope: set<nat>, n: nat, limit: nat)
    requires limit > 0
    requires n <= |Sorted(Above(scope, 0))|
    ensures var s := Sorted(Above(scope, 0));
      Page(scope, if n == 0 then 0 else s[n - 1], limit) == s[n..Min(n + limit, |s|)]
  {
    RestAt(scope, n);
    Cut(Sorted(Above(scope, 0)), n, limit);
  }

  lemma Cut<T>(s: seq<T>, n: nat, limit: nat)
    requires n <= |s|
    ensures (if |s[n..]| <= limit then s[n..] else s[n..][..limit]) == s[n..Min(n + limit, |s|)]
  {
  }

  lemma KeysSlice(t: Table, ids: seq<nat>, n: nat, m: nat)
    requires n <= m <= |ids|
    ensures KeysOf(t, ids[n..m]) == KeysOf(t, ids)[n..m]
  {
  }

  // One batch, dry or real, reported on top of `report`.
  method Batch(conn: Database, t: Table, ws: nat, after: nat, limit: nat, write: bool, run: nat,
               stamps: Key -> Stamp, report: Report)
    returns (ok: bool, cursor: Option<nat>, report': Report, ghost keys: seq<Key>)
    requires limit > 0
    modifies conn
    ensures keys == KeysOf(t, Page(ScopeOf(old(conn.rows), ws, t), after, limit))
    ensures AllSelected(old(conn.rows), keys)
    ensures ok ==> cursor == if keys == [] then None else Some(keys[|keys| - 1].id)
    ensures conn.State() == if ok && write then ProcessRows(old(conn.State()), conn.world, run, stamps, SetOf(keys))
                            else old(conn.State())
    ensures report' == if ok then Merge(report, ReportOf(old(conn.State()), conn.world, run, keys)) else report
    ensures !write ==> ok
    ensures Surmountable(old(conn.attempts)) ==> ok && Surmountable(conn.attempts)
  {
    if write {
      ok, cursor, report', keys := WriteBatch(conn, t, ws, after, limit, run, stamps, report);
    } else {
      var pageReport;
      cursor, pageReport, keys := ProcessBatch(conn, t, ws, after, limit, false, run, stamps);
      ok, report' := true, Merge(report, pageReport);
    }
  }

  lemma SlicesJoin<T>(walked: seq<T>, all: seq<T>, n: nat, m: nat)
    requires n <= m <= |all|
    ensures (walked + all[..n]) + all[n..m] == walked + all[..m]
  {
  }

  lemma CursorAt(t: Table, ids: seq<nat>, n: nat, m: nat)
    requires n <= m <= |ids|
    ensures var keys := KeysOf(t, ids)[n..m];
      (if keys == [] then None else Some(keys[|keys| - 1].id)) == (if n == m then None else Some(ids[m - 1]))
  {
  }

  // The cursor after the first n ids, and the batch read from it.
  function AfterFirst(ids: seq<nat>, n: nat): nat
    requires n <= |ids|
  {
    if n == 0 then 0 else ids[n - 1]
  }

  function Stretch<T>(q: seq<T>, n: nat, limit: nat): seq<T>
    requires n <= |q|
  {
    q[n..Min(n + limit, |q|)]
  }

  lemma BatchKeys(db: Db, w: World, run: nat, stamps: Key -> Stamp, write: bool, walked: seq<Key>, ws: nat, t: Table,
                  n: nat, limit: nat, state: Db, report: Report)
    requires limit > 0 && n <= |TableIds(db.rows, ws, t)|
    requires Reached(db, w, run, stamps, write, walked + TableWalk(db.rows, ws, t)[..n], state, report)
    ensures KeysOf(t, Page(ScopeOf(state.rows, ws, t), AfterFirst(TableIds(db.rows, ws, t), n), limit))
      == Stretch(TableWalk(db.rows, ws, t), n, limit)
  {
    hide Reached, ScopeOf, Page, Sorted, Above, InSet, KeysOf;
    ghost var ids := TableIds(db.rows, ws, t);
    ReachedScope(db, w, run, stamps, write, walked + TableWalk(db.rows, ws, t)[..n], state, report, ws, t);
    PageAt(ScopeOf(db.rows, ws, t), n, limit);
    KeysSlice(t, ids, n, Min(n + limit, |ids|));
  }

  // One table of one workspace; `done` is what the run has walked when it returns.
  method RunTable(conn: Database, t: Table, ws: nat, limit: nat, write: bool, run: nat, stamps: Key -> Stamp,
                  report: Report, ghost db: Db, ghost walked: seq<Key>)
    returns (ok: bool, report': Report, ghost done: seq<Key>)
    requires limit > 0
    requires Reached(db, conn.world, run, stamps, write, walked, conn.State(), report)
    requires forall k :: k in walked ==> k in db.rows && (k.table != t || db.rows[k].ws != ws)
    modifies conn
    ensures Reached(db, conn.world, run, stamps, write, done, conn.State(), report')
    ensures done <= walked + TableWalk(db.rows, ws, t)
    ensures ok ==> done == walked + TableWalk(db.rows, ws, t)
    ensures !write ==> ok
    ensures Surmountable(old(conn.attempts)) ==> ok && Surmountable(conn.attempts)
  {
    hide Reached, ReportOf, ProcessRows, Merge, ScopeOf, Page, InSet, Sorted, Surmountable;
    ok, report' := true, report;
    var after := Some(0);
    ghost var n := 0;
    ghost var ids, all := TableIds(db.rows, ws, t), TableWalk(db.rows, ws, t);
    assert walked + all[..0] == walked;
    while after.Some?
      invariant 0 <= n <= |ids| == |all|
      invariant Reached(db, conn.world, run, stamps, write, walked + all[..n], conn.State(), report')
      invariant after.Some? ==> after.value == if n == 0 then 0 else ids[n - 1]
      invariant after.None? ==> n == |ids|
      invariant Surmountable(old(conn.attempts)) ==> Surmountable(conn.attempts)
      decreases after.Some?, |ids| - n
    {
      ghost var state, told := conn.State(), report';
      ghost var keys;
      BatchKeys(db, conn.world, run, stamps, write, walked, ws, t, n, limit, state, report');
      ok, after, report', keys := Batch(conn, t, ws, after.value, limit, write, run, stamps, report');
      if !ok {
        done := walked + all[..n];
        return;
      }
      ghost var m := Min(n + limit, |ids|);
      NextStretch(db, ws, t, walked, n, m);
      CursorAt(t, ids, n, m);
      ReachedStep(db, conn.world, run, stamps, write, walked + all[..n], state, told, keys, conn.State(), report');
      SlicesJoin(walked, all, n, m);
      n := m;
    }
    done := walked + all[..n];
    assert all[..|all|] == all;
  }

  // A row of a table's walk is of the set, and has one place in it.
  lemma InWalk(rows: map<Key, Row>, ws: nat, t: Table, i: nat, j: nat)
    requires i < |TableWalk(rows, ws, t)| && j < i
    ensures var k := TableWalk(rows, ws, t)[i];
      k in rows && InSet(rows, k) && k.table == t && rows[k].ws == ws && TableWalk(rows, ws, t)[j] != k
  {
    assert TableIds(rows, ws, t)[j] < TableIds(rows, ws, t)[i];
    TableWalkIs(rows, ws, t, TableWalk(rows, ws, t)[i]);
  }

  // The next stretch of a table's walk is of the set, and new.
  lemma NextStretch(db: Db, ws: nat, t: Table, walked: seq<Key>, n: nat, m: nat)
    requires n <= m <= |TableWalk(db.rows, ws, t)|
    requires forall k :: k in walked ==> k in db.rows && (k.table != t || db.rows[k].ws != ws)
    ensures var all := TableWalk(db.rows, ws, t);
      AllSelected(db.rows, all[n..m]) && SetOf(all[n..m]) !! SetOf(walked + all[..n])
  {
    hide TableWalk, InSet;
    ghost var all := TableWalk(db.rows, ws, t);
    forall k | k in all[n..m] ensures k in db.rows && InSet(db.rows, k) && k !in walked + all[..n] {
      var i :| n <= i < m && all[i] == k;
      TableWalkIs(db.rows, ws, t, k);
      forall j | 0 <= j < n ensures all[j] != k { InWalk(db.rows, ws, t, i, j); }
    }
  }

  lemma TablesDistinct(i: nat, j: nat)
    requires i < j < |TABLES|
    ensures TABLES[i] != TABLES[j]
  {
  }

  lemma TableIsNew(db: Db, ws: nat, walked: seq<Key>, j: nat)
    requires j < |TABLES|
    requires forall k :: k in walked ==> k in db.rows && db.rows[k].ws != ws
    ensures forall k :: k in walked + TablesWalk(db.rows, ws, TABLES[..j]) ==>
      k in db.rows && (k.table != TABLES[j] || db.rows[k].ws != ws)
  {
    forall k | k in TablesWalk(db.rows, ws, TABLES[..j]) ensures k in db.rows && k.table != TABLES[j] {
      TablesWalkIs(db.rows, ws, TABLES[..j], k);
      var i :| 0 <= i < j && TABLES[..j][i] == k.table;
      TablesDistinct(i, j);
    }
  }

  lemma TablesGrow(rows: map<Key, Row>, ws: nat, walked: seq<Key>, j: nat)
    requires j < |TABLES|
    ensures (walked + TablesWalk(rows, ws, TABLES[..j])) + TableWalk(rows, ws, TABLES[j])
      == walked + TablesWalk(rows, ws, TABLES[..j + 1])
  {
    var x, y := TablesWalk(rows, ws, TABLES[..j]), TableWalk(rows, ws, TABLES[j]);
    OneMoreTable(rows, ws, TABLES[..j + 1]);
    assert TABLES[..j + 1][..j] == TABLES[..j];
    Associate(walked, x, y);
  }

  lemma OneMoreTable(rows: map<Key, Row>, ws: nat, tables: seq<Table>)
    requires tables != []
    ensures TablesWalk(rows, ws, tables)
      == TablesWalk(rows, ws, tables[..|tables| - 1]) + TableWalk(rows, ws, tables[|tables| - 1])
  {
  }

  lemma Associate<T>(x: seq<T>, y: seq<T>, z: seq<T>)
    ensures (x + y) + z == x + (y + z)
  {
  }

  lemma {:induction false} TablesPrefix(rows: map<Key, Row>, ws: nat, tables: seq<Table>, j: nat)
    requires j <= |tables|
    ensures TablesWalk(rows, ws, tables[..j]) <= TablesWalk(rows, ws, tables)
    decreases |tables|
  {
    hide TableWalk;
    if j < |tables| {
      var n := |tables| - 1;
      assert tables[..n][..j] == tables[..j];
      TablesPrefix(rows, ws, tables[..n], j);
    } else {
      assert tables[..j] == tables;
    }
  }

  // One workspace.
  method RunWorkspace(conn: Database, ws: nat, limit: nat, write: bool, run: nat, stamps: Key -> Stamp,
                      report: Report, ghost db: Db, ghost walked: seq<Key>)
    returns (ok: bool, report': Report, ghost done: seq<Key>)
    requires limit > 0
    requires Reached(db, conn.world, run, stamps, write, walked, conn.State(), report)
    requires forall k :: k in walked ==> k in db.rows && db.rows[k].ws != ws
    modifies conn
    ensures Reached(db, conn.world, run, stamps, write, done, conn.State(), report')
    ensures done <= walked + TablesWalk(db.rows, ws, TABLES)
    ensures ok ==> done == walked + TablesWalk(db.rows, ws, TABLES)
    ensures !write ==> ok
    ensures Surmountable(old(conn.attempts)) ==> ok && Surmountable(conn.attempts)
  {
    hide Reached, TableWalk, TablesWalk, Surmountable;
    ok, report', done := true, report, walked;
    TablesStart(db.rows, ws, walked);
    for j := 0 to |TABLES|
      invariant Reached(db, conn.world, run, stamps, write, done, conn.State(), report')
      invariant done == walked + TablesWalk(db.rows, ws, TABLES[..j])
      invariant ok
      invariant Surmountable(old(conn.attempts)) ==> Surmountable(conn.attempts)
    {
      TableIsNew(db, ws, walked, j);
      TablesGrow(db.rows, ws, walked, j);
      TablesPrefix(db.rows, ws, TABLES, j + 1);
      ok, report', done := RunTable(conn, TABLES[j], ws, limit, write, run, stamps, report', db, done);
      if !ok {
        PrefixTrans(done, walked, TablesWalk(db.rows, ws, TABLES[..j + 1]), TablesWalk(db.rows, ws, TABLES));
        return;
      }
    }
    assert TABLES[..|TABLES|] == TABLES;
  }

  lemma TablesStart(rows: map<Key, Row>, ws: nat, walked: seq<Key>)
    ensures walked + TablesWalk(rows, ws, TABLES[..0]) == walked
  {
  }

  lemma PrefixTrans<T>(done: seq<T>, walked: seq<T>, a: seq<T>, b: seq<T>)
    requires done <= walked + a && a <= b
    ensures done <= walked + b
  {
  }

  ghost predicate Distinct<T>(q: seq<T>) {
    forall i, j :: 0 <= i < j < |q| ==> q[i] != q[j]
  }

  lemma WorkspaceIsNew(db: Db, workspaces: seq<nat>, i: nat)
    requires i < |workspaces| && Distinct(workspaces)
    ensures forall k :: k in Walk(db.rows, workspaces[..i]) ==> k in db.rows && db.rows[k].ws != workspaces[i]
  {
    forall k | k in Walk(db.rows, workspaces[..i]) ensures k in db.rows && db.rows[k].ws != workspaces[i] {
      WalkIs(db.rows, workspaces[..i], k);
    }
  }

  lemma WalkGrows(rows: map<Key, Row>, workspaces: seq<nat>, i: nat)
    requires i < |workspaces|
    ensures Walk(rows, workspaces[..i]) + TablesWalk(rows, workspaces[i], TABLES) == Walk(rows, workspaces[..i + 1])
  {
    assert workspaces[..i + 1][..i] == workspaces[..i];
  }

  lemma {:induction false} WalkPrefix(rows: map<Key, Row>, workspaces: seq<nat>, i: nat)
    requires i <= |workspaces|
    ensures Walk(rows, workspaces[..i]) <= Walk(rows, workspaces)
    decreases |workspaces|
  {
    if i < |workspaces| {
      var n := |workspaces| - 1;
      assert workspaces[..n][..i] == workspaces[..i];
      WalkPrefix(rows, workspaces[..n], i);
    } else {
      assert workspaces[..i] == workspaces;
    }
  }

  // The whole command. A dry run writes nothing and reports what a real run reports, for
  // every batch size; a real run that gives up stops after some prefix of the walk.
  method RunBackfill(conn: Database, workspaces: seq<nat>, limit: nat, dryRun: bool, run: nat, stamps: Key -> Stamp)
    returns (ok: bool, report: Report, ghost done: seq<Key>)
    requires limit > 0 && Distinct(workspaces)
    modifies conn
    ensures AllSelected(old(conn.rows), done) && done <= Walk(old(conn.rows), workspaces)
    ensures ok ==> done == Walk(old(conn.rows), workspaces)
    ensures ok ==> forall k :: k in done <==> k in old(conn.rows) && old(conn.rows)[k].ws in workspaces && k.id > 0
                                              && OnColumns(old(conn.rows), k)
    ensures dryRun ==> ok
    ensures Surmountable(old(conn.attempts)) ==> ok && Surmountable(conn.attempts)
    ensures conn.State() == if dryRun then old(conn.State())
                            else ProcessRows(old(conn.State()), conn.world, run, stamps, SetOf(done))
    ensures report == ReportOf(old(conn.State()), conn.world, run, done)
  {
    hide Walk, TablesWalk, OnColumns, Surmountable;
    ghost var db := conn.State();
    ok, report, done := true, NOTHING, [];
    ReachedStart(db, conn.world, run, stamps, !dryRun, workspaces);
    for i := 0 to |workspaces|
      invariant Reached(db, conn.world, run, stamps, !dryRun, done, conn.State(), report)
      invariant done == Walk(db.rows, workspaces[..i])
      invariant ok
      invariant Surmountable(old(conn.attempts)) ==> Surmountable(conn.attempts)
    {
      WorkspaceIsNew(db, workspaces, i);
      WalkGrows(db.rows, workspaces, i);
      WalkPrefix(db.rows, workspaces, i + 1);
      ok, report, done := RunWorkspace(conn, workspaces[i], limit, !dryRun, run, stamps, report, db, done);
      if !ok { return; }
    }
    assert workspaces[..|workspaces|] == workspaces;
    forall k ensures k in Walk(db.rows, workspaces)
      <==> k in db.rows && db.rows[k].ws in workspaces && k.id > 0 && OnColumns(db.rows, k)
    {
      WalkOnColumns(db.rows, workspaces, k);
    }
  }

  lemma ReachedStart(db: Db, w: World, run: nat, stamps: Key -> Stamp, write: bool, workspaces: seq<nat>)
    ensures Walk(db.rows, workspaces[..0]) == []
    ensures Reached(db, w, run, stamps, write, [], db, NOTHING)
  {
    if write { ProcessNone(db, w, run, stamps); }
  }

  lemma ProcessNone(db: Db, w: World, run: nat, stamps: Key -> Stamp)
    ensures ProcessRows(db, w, run, stamps, {}) == db
    ensures SetOf([]) == {}
  {
    PlanLeavesRows(db.rows, db.grants, db.log, PlanOf(db, w, run, {}), run, stamps);
  }
}
