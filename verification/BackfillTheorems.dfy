// What whole runs of the backfill command amount to.
module BackfillTheorems {
  import opened Records
  import opened Rules
  import opened Moves
  import opened Process
  import opened BackfillRun
  import opened Settled

  // ---------------------------------------------------------------- the walk, once each

  lemma DistinctAppend<T>(a: seq<T>, b: seq<T>)
    requires Distinct(a) && Distinct(b) && forall x :: x in a ==> x !in b
    ensures Distinct(a + b)
  {
    var q := a + b;
    forall i, j | 0 <= i < j < |q| ensures q[i] != q[j] {
      if i < |a| <= j {
        assert q[i] in a && q[j] == b[j - |a|];
      } else if |a| <= i {
        assert q[i] == b[i - |a|] && q[j] == b[j - |a|];
      }
    }
  }

  lemma TableWalkDistinct(rows: map<Key, Row>, ws: nat, t: Table)
    ensures Distinct(TableWalk(rows, ws, t))
  {
    var ids, q := TableIds(rows, ws, t), TableWalk(rows, ws, t);
    forall i, j | 0 <= i < j < |q| ensures q[i] != q[j] { assert ids[i] < ids[j]; }
  }

  lemma {:induction false} TablesWalkDistinct(rows: map<Key, Row>, ws: nat, tables: seq<Table>)
    requires Distinct(tables)
    ensures Distinct(TablesWalk(rows, ws, tables))
    decreases |tables|
  {
    if tables != [] {
      var n := |tables| - 1;
      var a, b := TablesWalk(rows, ws, tables[..n]), TableWalk(rows, ws, tables[n]);
      TablesWalkDistinct(rows, ws, tables[..n]);
      TableWalkDistinct(rows, ws, tables[n]);
      forall k | k in a ensures k !in b {
        TablesWalkIs(rows, ws, tables[..n], k);
        TableWalkIs(rows, ws, tables[n], k);
      }
      DistinctAppend(a, b);
    }
  }

  // Every row of the walk is visited once.
  lemma {:induction false} WalkVisitsOnce(rows: map<Key, Row>, workspaces: seq<nat>)
    requires Distinct(workspaces)
    ensures Distinct(Walk(rows, workspaces))
    decreases |workspaces|
  {
    if workspaces != [] {
      var n := |workspaces| - 1;
      var a, b := Walk(rows, workspaces[..n]), TablesWalk(rows, workspaces[n], TABLES);
      WalkVisitsOnce(rows, workspaces[..n]);
      forall i, j | 0 <= i < j < |TABLES| ensures TABLES[i] != TABLES[j] { TablesDistinct(i, j); }
      TablesWalkDistinct(rows, workspaces[n], TABLES);
      forall k | k in a ensures k !in b {
        WalkIs(rows, workspaces[..n], k);
        TablesWalkIs(rows, workspaces[n], TABLES, k);
      }
      DistinctAppend(a, b);
    }
  }

  // -------------------------------------------------------------- what the report counts

  // The rows of a table among `keys` that the run changes or takes grants from.
  ghost function ChangedRows(db: Db, w: World, run: nat, keys: seq<Key>, t: Table): set<Key>
    requires AllSelected(db.rows, keys)
  {
    set k | k in keys && k.table == t && Judge(db, w, run, k).logged
  }

  // The active grants on those rows; aliases keep theirs.
  ghost function GrantsTaken(db: Db, keys: seq<Key>, t: Table): set<nat>
    requires AllSelected(db.rows, keys)
  {
    set g | g in db.grants && db.grants[g].resource in keys && db.grants[g].resource.table == t
            && t != EntityAliases && g in ActiveGrantIds(db, db.grants[g].resource)
  }

  lemma SelectedPrefix(rows: map<Key, Row>, keys: seq<Key>, n: nat)
    requires AllSelected(rows, keys) && n <= |keys|
    ensures AllSelected(rows, keys[..n])
  {
  }

  lemma SizeOfDisjoint<T>(a: set<T>, b: set<T>)
    requires a !! b
    ensures |a + b| == |a| + |b|
  {
  }

  lemma GrantsGrow(db: Db, keys: seq<Key>, k: Key, t: Table)
    requires AllSelected(db.rows, keys) && AllSelected(db.rows, keys + [k]) && k in db.rows && k !in keys
    ensures GrantsTaken(db, keys + [k], t)
      == GrantsTaken(db, keys, t) + (if k.table == t && t != EntityAliases then ActiveGrantIds(db, k) else {})
    ensures GrantsTaken(db, keys, t) !! (if k.table == t && t != EntityAliases then ActiveGrantIds(db, k) else {})
  {
    assert forall x :: x in keys + [k] <==> x in keys || x == k;
  }

  lemma ChangedGrow(db: Db, w: World, run: nat, keys: seq<Key>, k: Key, t: Table)
    requires AllSelected(db.rows, keys) && AllSelected(db.rows, keys + [k]) && k in db.rows && InSet(db.rows, k) && k !in keys
    ensures ChangedRows(db, w, run, keys + [k], t)
      == ChangedRows(db, w, run, keys, t) + (if k.table == t && Judge(db, w, run, k).logged then {k} else {})
  {
    assert forall x :: x in keys + [k] <==> x in keys || x == k;
  }

  // The report's counts are the rows changed and the grants revoked, table by table.
  lemma {:induction false} ReportCounts(db: Db, w: World, run: nat, keys: seq<Key>, t: Table)
    requires AllSelected(db.rows, keys) && Distinct(keys)
    ensures StatsOf(ReportOf(db, w, run, keys), t).changed == |ChangedRows(db, w, run, keys, t)|
    ensures StatsOf(ReportOf(db, w, run, keys), t).grantsRevoked == |GrantsTaken(db, keys, t)|
    decreases |keys|
  {
    hide Judge, InSet, Merge, StatsOf, GrantsTaken, ChangedRows, ActiveGrantIds, GrantCount;
    if keys == [] {
      NothingCounted(db, w, run, t);
    } else {
      var n := |keys| - 1;
      var k := keys[n];
      assert keys[..n] + [k] == keys;
      SelectedPrefix(db.rows, keys, n);
      assert k in keys;
      forall i | 0 <= i < n ensures keys[i] != k {}
      assert k !in keys[..n];
      ReportCounts(db, w, run, keys[..n], t);
      ghost var o := Judge(db, w, run, k);
      ghost var more := RowReport(k, o);
      MergedStats(ReportOf(db, w, run, keys[..n]), more, t);
      RowCounts(db, w, run, k, t);
      GrantsGrow(db, keys[..n], k, t);
      ChangedGrow(db, w, run, keys[..n], k, t);
      SizeOfDisjoint(GrantsTaken(db, keys[..n], t), if k.table == t && t != EntityAliases then ActiveGrantIds(db, k) else {});
      NotYetChanged(db, w, run, keys[..n], k, t);
      SizeOfDisjoint(ChangedRows(db, w, run, keys[..n], t), if k.table == t && o.logged then {k} else {});
    }
  }

  lemma NothingCounted(db: Db, w: World, run: nat, t: Table)
    ensures StatsOf(NOTHING, t) == Stats(0, 0, 0)
    ensures ChangedRows(db, w, run, [], t) == {} && GrantsTaken(db, [], t) == {}
  {
  }

  lemma NotYetChanged(db: Db, w: World, run: nat, keys: seq<Key>, k: Key, t: Table)
    requires AllSelected(db.rows, keys) && k !in keys
    ensures k !in ChangedRows(db, w, run, keys, t)
  {
  }

  lemma RowCounts(db: Db, w: World, run: nat, k: Key, t: Table)
    requires k in db.rows && InSet(db.rows, k)
    ensures var o, s := Judge(db, w, run, k), StatsOf(RowReport(k, Judge(db, w, run, k)), t);
      && s.changed == (if k.table == t && o.logged then |{k}| else 0)
      && s.grantsRevoked == if k.table == t && t != EntityAliases then |ActiveGrantIds(db, k)| else 0
  {
  }

  // The rows of a table among `keys` that the run reports.
  ghost function ReportedRows(db: Db, w: World, run: nat, keys: seq<Key>, t: Table): set<Key>
    requires AllSelected(db.rows, keys)
  {
    set k | k in keys && k.table == t && Judge(db, w, run, k).reason.Some?
  }

  // Every reported row is listed once, with its reason and the grants revoked on it, and
  // counted; nothing else is.
  lemma {:induction false} UnresolvedListed(db: Db, w: World, run: nat, keys: seq<Key>, t: Table)
    requires AllSelected(db.rows, keys) && Distinct(keys)
    ensures var r := ReportOf(db, w, run, keys);
      && StatsOf(r, t).unresolved == |ReportedRows(db, w, run, keys, t)|
      && (forall u :: u in r.unresolved
            <==> && u.key in keys && Judge(db, w, run, u.key).reason == Some(u.reason)
                 && u.grantsRevoked == if u.key.table == EntityAliases then 0 else |ActiveGrantIds(db, u.key)|)
      && (forall i, j :: 0 <= i < j < |r.unresolved| ==> r.unresolved[i].key != r.unresolved[j].key)
    decreases |keys|
  {
    hide Judge, InSet, StatsOf, Merge, ReportedRows, ActiveGrantIds, RowReport;
    if keys == [] {
      NothingCounted(db, w, run, t);
      assert ReportedRows(db, w, run, [], t) == {} by { NoneReported(db, w, run, t); }
    } else {
      var n := |keys| - 1;
      var k := keys[n];
      assert keys[..n] + [k] == keys;
      SelectedPrefix(db.rows, keys, n);
      assert k in keys;
      forall i | 0 <= i < n ensures keys[i] != k {}
      assert k !in keys[..n];
      UnresolvedListed(db, w, run, keys[..n], t);
      ghost var o := Judge(db, w, run, k);
      MergedStats(ReportOf(db, w, run, keys[..n]), RowReport(k, o), t);
      RowListed(db, w, run, k, t);
      MergedList(ReportOf(db, w, run, keys[..n]), RowReport(k, o));
      ReportedGrow(db, w, run, keys[..n], k, t);
      SizeOfDisjoint(ReportedRows(db, w, run, keys[..n], t), if k.table == t && o.reason.Some? then {k} else {});
    }
  }

  lemma NoneReported(db: Db, w: World, run: nat, t: Table)
    ensures ReportedRows(db, w, run, [], t) == {}
  {
  }

  lemma ReportedGrow(db: Db, w: World, run: nat, keys: seq<Key>, k: Key, t: Table)
    requires AllSelected(db.rows, keys) && AllSelected(db.rows, keys + [k]) && k in db.rows && InSet(db.rows, k) && k !in keys
    ensures ReportedRows(db, w, run, keys + [k], t)
      == ReportedRows(db, w, run, keys, t) + (if k.table == t && Judge(db, w, run, k).reason.Some? then {k} else {})
    ensures k !in ReportedRows(db, w, run, keys, t)
  {
    assert forall x :: x in keys + [k] <==> x in keys || x == k;
  }

  lemma MergedList(a: Report, b: Report)
    ensures Merge(a, b).unresolved == a.unresolved + b.unresolved
  {
  }

  lemma RowListed(db: Db, w: World, run: nat, k: Key, t: Table)
    requires k in db.rows && InSet(db.rows, k)
    ensures var o := Judge(db, w, run, k);
      var grants := if k.table == EntityAliases then 0 else |ActiveGrantIds(db, k)|;
      && StatsOf(RowReport(k, o), t).unresolved == (if k.table == t && o.reason.Some? then |{k}| else 0)
      && RowReport(k, o).unresolved == if o.reason.Some? then [UnresolvedRow(k, o.reason.value, grants)] else []
  {
  }

  // A grant ends revoked by the run exactly when the report counts it.
  lemma GrantsConserved(db: Db, w: World, run: nat, stamps: Key -> Stamp, keys: seq<Key>, g: nat)
    requires AllSelected(db.rows, keys) && g in db.grants
    ensures var after := ProcessRows(db, w, run, stamps, SetOf(keys)).grants;
      g in after
      && (after[g] != db.grants[g] <==> g in GrantsTaken(db, keys, db.grants[g].resource.table))
      && (after[g] != db.grants[g] ==> after[g] == db.grants[g].(revokedAt := Some(stamps(db.grants[g].resource).at)))
  {
    var k := db.grants[g].resource;
    if k in keys && g in ActiveGrantIds(db, k) {
      assert |ActiveGrantIds(db, k)| > 0;
    }
  }

  // ------------------------------------------------------------------- complete runs

  // After a complete run over some workspaces, a row of the personal data set in one of
  // them: private with its rule's owner unless unresolved, an alias or feedback; without an
  // active grant unless an alias; logged once, with its prior values, if it changed.
  lemma CompleteRun(db: Db, w: World, run: nat, stamps: Key -> Stamp, workspaces: seq<nat>, k: Key)
    requires FreshRun(db.log, run)
    requires k in db.rows && db.rows[k].ws in workspaces && k.table in TABLES && k.id > 0 && InSet(db.rows, k)
    ensures AllSelected(db.rows, Walk(db.rows, workspaces))
    ensures var after := ProcessRows(db, w, run, stamps, SetOf(Walk(db.rows, workspaces)));
      var d, row := Effective(db, w, run, k), after.rows[k];
      && (d.Target? && !VisibilityKept(k.table) ==> row.vis == Private && row.owner == d.owner)
      && (d.Target? && VisibilityKept(k.table) ==> row.vis == db.rows[k].vis && row.owner == d.owner)
      && (d.Unresolved? ==> row == db.rows[k])
      && (k.table != EntityAliases ==> ActiveGrantIds(after, k) == {})
      && (LogKey(run, k) in after.log
          <==> (row != db.rows[k] || ActiveGrantIds(after, k) != ActiveGrantIds(db, k)))
      && (LogKey(run, k) in after.log ==>
            after.log[LogKey(run, k)].prevOwner == Some(db.rows[k].owner)
            && after.log[LogKey(run, k)].prevVis == db.rows[k].vis)
  {
    WalkSelected(db.rows, workspaces);
    WalkIs(db.rows, workspaces, k);
    ghost var keys := SetOf(Walk(db.rows, workspaces));
    assert k in keys;
    hide InSet, Effective, ProcessRows, Walk, ActiveGrantIds, TABLES;
    RowsSettled(db, w, run, stamps, keys, k);
    GrantsSettled(db, w, run, stamps, keys, k);
    ChangesLogged(db, w, run, stamps, keys, k);
  }

  lemma WalkSelected(rows: map<Key, Row>, workspaces: seq<nat>)
    ensures AllSelected(rows, Walk(rows, workspaces))
  {
    forall k | k in Walk(rows, workspaces) ensures k in rows && InSet(rows, k) { WalkIs(rows, workspaces, k); }
  }

  lemma {:induction false} WalkStable(a: map<Key, Row>, b: map<Key, Row>, workspaces: seq<nat>)
    requires SameFacts(a, b)
    ensures Walk(a, workspaces) == Walk(b, workspaces)
    decreases |workspaces|
  {
    if workspaces != [] {
      var n := |workspaces| - 1;
      WalkStable(a, b, workspaces[..n]);
      TablesWalkStable(a, b, workspaces[n], TABLES);
    }
  }

  lemma {:induction false} TablesWalkStable(a: map<Key, Row>, b: map<Key, Row>, ws: nat, tables: seq<Table>)
    requires SameFacts(a, b)
    ensures TablesWalk(a, ws, tables) == TablesWalk(b, ws, tables)
    decreases |tables|
  {
    if tables != [] {
      var n := |tables| - 1;
      TablesWalkStable(a, b, ws, tables[..n]);
      ScopeStable(a, b, ws, tables[n]);
    }
  }

  // The command run again right after a complete run walks the same rows, leaves everything
  // as it is, and reports nothing but the rows reported before, for the same reasons.
  lemma RunAgain(db: Db, w: World, run: nat, stamps: Key -> Stamp, workspaces: seq<nat>, again: nat, stamps': Key -> Stamp)
    requires FreshRun(db.log, run) && FreshRun(db.log, again) && run != again
    ensures AllSelected(db.rows, Walk(db.rows, workspaces))
    ensures var walk := Walk(db.rows, workspaces);
      var after := ProcessRows(db, w, run, stamps, SetOf(walk));
      && Walk(after.rows, workspaces) == walk && AllSelected(after.rows, walk)
      && ProcessRows(after, w, again, stamps', SetOf(walk)) == after
      && forall k :: k in walk ==>
           && Judge(after, w, again, k).reason == Judge(db, w, run, k).reason
           && !Judge(after, w, again, k).logged && Judge(after, w, again, k).grants == 0
  {
    hide Walk, Judge, InSet, ProcessRows;
    WalkSelected(db.rows, workspaces);
    ghost var walk := Walk(db.rows, workspaces);
    ghost var keys := SetOf(walk);
    ghost var after := ProcessRows(db, w, run, stamps, keys);
    InputsKept(db, w, run, stamps, keys);
    WalkStable(db.rows, after.rows, workspaces);
    WalkSelected(after.rows, workspaces);
    SecondRunChangesNothing(db, w, run, stamps, keys, again, stamps', keys);
    forall k | k in walk
      ensures Judge(after, w, again, k).reason == Judge(db, w, run, k).reason
      ensures !Judge(after, w, again, k).logged && Judge(after, w, again, k).grants == 0
    {
      NothingLeftToDo(db, w, run, stamps, keys, again, k);
    }
  }
}
