// Processing a set of rows: what any sequence of backfill batches over them amounts to.
module Process {
  import opened Records
  import opened Rules
  import opened Moves

  // The id and time a log row gets when it is inserted.
  datatype Stamp = Stamp(logId: nat, at: nat)

  type Plan = map<Key, Outcome>

  ghost predicate Selected(rows: map<Key, Row>, keys: set<Key>) {
    forall k :: k in keys ==> k in rows && InSet(rows, k)
  }

  function PlanOf(db: Db, w: World, run: nat, keys: set<Key>): (p: Plan)
    requires Selected(db.rows, keys)
    ensures p.Keys == keys
  {
    map k | k in keys :: Judge(db, w, run, k)
  }

  function MovesOf(rows: map<Key, Row>, plan: Plan): (m: map<Key, Row>)
    requires plan.Keys <= rows.Keys
    ensures m.Keys == plan.Keys
  {
    map k | k in plan :: MovedRow(k.table, rows[k], plan[k].owner, plan[k].vis)
  }

  function ItemsOf(rows: map<Key, Row>, k: Key): map<nat, MemberFields> {
    map i | i in rows && Mirrors(rows, i, k) && i.table == AttentionItems :: i.id := rows[i].member
  }

  // The snapshot columns of the (locked) row; none for tables without one.
  function SnapshotOf(rows: map<Key, Row>, k: Key, bump: nat, derivedRule: Option<bool>): Option<Snapshot>
    requires k in rows
  {
    var row := rows[k];
    if Derived(k.table) then
      Some(DerivedSnapshot(row.version, row.updatedAt, ItemsOf(rows, k), bump, derivedRule))
    else if k.table == AttentionItems then Some(ItemSnapshot(row.member))
    else None
  }

  function EntryOf(rows: map<Key, Row>, k: Key, o: Outcome, stamp: Stamp): LogEntry
    requires k in rows
  {
    var row := rows[k];
    var bump := if row.owner != o.owner || row.vis != o.vis then 1 else 0;
    LogEntry(stamp.logId, stamp.at, Some(row.owner), row.vis, o.grants,
             SnapshotOf(rows, k, bump, Some(o.derivedRule)))
  }

  function NewEntries(rows: map<Key, Row>, plan: Plan, run: nat, stamps: Key -> Stamp): map<LogKey, LogEntry>
    requires plan.Keys <= rows.Keys
  {
    map k | k in plan && plan[k].logged :: LogKey(run, k) := EntryOf(rows, k, plan[k], stamps(k))
  }

  predicate Revoked(rows: map<Key, Row>, plan: Plan, g: Grant) {
    g.revokedAt.None? && g.resource in plan && plan[g.resource].grants > 0
    && Peer(rows, g.ws, g.resource)
  }

  function RevokeGrants(rows: map<Key, Row>, grants: map<nat, Grant>, plan: Plan, stamps: Key -> Stamp)
    : map<nat, Grant>
  {
    map g | g in grants ::
      if Revoked(rows, plan, grants[g]) then grants[g].(revokedAt := Some(stamps(grants[g].resource).at))
      else grants[g]
  }

  // `ON CONFLICT (run_id, table_name, row_id) DO NOTHING`: an existing log row wins.
  function ApplyPlan(db: Db, plan: Plan, run: nat, stamps: Key -> Stamp): Db
    requires plan.Keys <= db.rows.Keys
  {
    Db(ApplyMoves(db.rows, MovesOf(db.rows, plan)),
       RevokeGrants(db.rows, db.grants, plan, stamps),
       NewEntries(db.rows, plan, run, stamps) + db.log)
  }

  function ProcessRows(db: Db, w: World, run: nat, stamps: Key -> Stamp, keys: set<Key>): Db
    requires Selected(db.rows, keys)
  {
    ApplyPlan(db, PlanOf(db, w, run, keys), run, stamps)
  }

  // ------------------------------------------- what no batch changes for another

  ghost predicate SameFacts(a: map<Key, Row>, b: map<Key, Row>) {
    a.Keys == b.Keys && forall k :: k in a ==> a[k].ws == b[k].ws && a[k].facts == b[k].facts
  }

  // The rows agree on everything a rule reads of a row other than the one it decides.
  ghost predicate SameInputs(a: map<Key, Row>, b: map<Key, Row>) {
    && SameFacts(a, b)
    && forall k :: k in a && k.table in {ConnectorAccounts, Recommendations, AiRuns} ==> a[k].owner == b[k].owner
  }

  lemma SameSources(a: map<Key, Row>, b: map<Key, Row>, ws: nat, k: Key)
    requires SameFacts(a, b)
    ensures SourceIds(a, ws, k) == SourceIds(b, ws, k)
  {
    forall r | r in a ensures Sources(a, ws, r.id, k) == Sources(b, ws, r.id, k) {
      var p := Key(Recommendations, r.id);
      assert p in a <==> p in b;
    }
  }

  lemma SameSet(a: map<Key, Row>, b: map<Key, Row>, k: Key)
    requires SameFacts(a, b) && k in a
    ensures InSet(a, k) == InSet(b, k)
  {
    SameSources(a, b, a[k].ws, k);
  }

  lemma SameContradicted(a: map<Key, Row>, b: map<Key, Row>, w: World, ws: nat, evidence: seq<nat>, mailbox: nat)
    requires SameFacts(a, b)
    ensures Contradicted(a, w, ws, evidence, mailbox) == Contradicted(b, w, ws, evidence, mailbox)
  {
    forall e | e in evidence
      ensures IsGmailEvidence(a, ws, e) == IsGmailEvidence(b, ws, e) && SourceRefOf(a, ws, e) == SourceRefOf(b, ws, e)
    {
      var p := Key(PkosEvidence, e);
      assert p in a <==> p in b;
    }
  }

  lemma SameSourceDecision(a: map<Key, Row>, b: map<Key, Row>, w: World, k: Key)
    requires SameInputs(a, b) && k in a
    ensures SourceDecision(a, w, k) == SourceDecision(b, w, k)
  {
    SameSources(a, b, a[k].ws, k);
    forall r | r in a && r.table == Recommendations && a[r].facts.RecommendationFacts?
      ensures RecommendationDecision(a, w, a[r]) == RecommendationDecision(b, w, b[r])
    {
      SameContradicted(a, b, w, a[r].ws, a[r].facts.evidence, a[r].facts.createdBy);
    }
  }

  lemma DerivedStable(a: map<Key, Row>, b: map<Key, Row>, w: World, la: map<LogKey, LogEntry>,
                      lb: map<LogKey, LogEntry>, h: History, k: Key)
    requires SameInputs(a, b) && k in a && a[k].facts.DerivedFacts?
    requires a[k].owner == b[k].owner && a[k].vis == b[k].vis
    requires EarlierOf(la, h, k) == EarlierOf(lb, h, k)
    ensures DerivedRowDecision(a, w, la, h, k) == DerivedRowDecision(b, w, lb, h, k)
  {
    hide SourceDecision, EarlierOf;
    SameSourceDecision(a, b, w, k);
  }

  // A row's decision reads other rows only through `SameInputs`, and the log only
  // through its earlier entries.
  lemma DecideStable(a: map<Key, Row>, b: map<Key, Row>, w: World, la: map<LogKey, LogEntry>,
                     lb: map<LogKey, LogEntry>, h: History, k: Key)
    requires SameInputs(a, b) && k in a && InSet(a, k)
    requires a[k].owner == b[k].owner && a[k].vis == b[k].vis
    requires EarlierOf(la, h, k) == EarlierOf(lb, h, k)
    ensures InSet(b, k) && Decide(a, w, la, h, k) == Decide(b, w, lb, h, k)
  {
    hide DerivedRowDecision, Contradicted, EarlierOf, SourceIds, EvidenceOwner;
    SameSet(a, b, k);
    if Derived(k.table) {
      DerivedStable(a, b, w, la, lb, h, k);
    } else if k.table == Recommendations {
      SameContradicted(a, b, w, a[k].ws, a[k].facts.evidence, a[k].facts.createdBy);
    }
  }

  // The rows whose owner the rules read are never re-owned.
  lemma SourceOwnersKept(db: Db, w: World, run: nat, k: Key)
    requires k in db.rows && InSet(db.rows, k)
    requires k.table in {ConnectorAccounts, Recommendations, AiRuns}
    ensures Judge(db, w, run, k).owner == db.rows[k].owner
  {
  }

  lemma MovesAdmissible(db: Db, w: World, run: nat, keys: set<Key>)
    requires Selected(db.rows, keys)
    ensures Admissible(db.rows, MovesOf(db.rows, PlanOf(db, w, run, keys)))
  {
    forall k | k in keys ensures EntityOf(k, db.rows[k]).None? { assert InSet(db.rows, k); }
  }

  lemma MovesKeepFacts(rows: map<Key, Row>, moves: map<Key, Row>)
    requires Admissible(rows, moves)
    ensures SameFacts(rows, ApplyMoves(rows, moves))
    ensures forall k :: k in rows && k.table != AttentionItems && k !in moves ==> ApplyMoves(rows, moves)[k] == rows[k]
  {
  }

  lemma InputsKept(db: Db, w: World, run: nat, stamps: Key -> Stamp, keys: set<Key>)
    requires Selected(db.rows, keys)
    ensures SameInputs(db.rows, ProcessRows(db, w, run, stamps, keys).rows)
  {
    hide Judge, InSet;
    MovesAdmissible(db, w, run, keys);
    MovesKeepFacts(db.rows, MovesOf(db.rows, PlanOf(db, w, run, keys)));
    forall k | k in keys && k.table in {ConnectorAccounts, Recommendations, AiRuns}
      ensures Judge(db, w, run, k).owner == db.rows[k].owner
    {
      SourceOwnersKept(db, w, run, k);
    }
  }

  lemma OwnRunIsNoHistory(log: map<LogKey, LogEntry>, more: map<LogKey, LogEntry>, h: History, k: Key)
    requires forall l :: l in more ==> l.run == h.excludeRun
    ensures EarlierOf(more + log, h, k) == EarlierOf(log, h, k)
  {
    var a, b := EarlierOf(more + log, h, k), EarlierOf(log, h, k);
    forall e | e in a ensures e in b {
      var l :| l in more + log && l.key == k && Counts(more + log, h, l)
        && e == Earlier((more + log)[l].prevOwner, RuleFlag((more + log)[l].state));
      assert l in log && Counts(log, h, l);
    }
    forall e | e in b ensures e in a {
      var l :| l in log && l.key == k && Counts(log, h, l)
        && e == Earlier(log[l].prevOwner, RuleFlag(log[l].state));
      assert l in more + log && (more + log)[l] == log[l] && Counts(more + log, h, l);
    }
  }

  // The grants a plan leaves active on a row it does not touch are the row's own.
  lemma GrantsStable(db: Db, w: World, run: nat, stamps: Key -> Stamp, keys: set<Key>, k: Key)
    requires Selected(db.rows, keys) && k in db.rows && k !in keys
    ensures ActiveGrantIds(ProcessRows(db, w, run, stamps, keys), k) == ActiveGrantIds(db, k)
  {
    InputsKept(db, w, run, stamps, keys);
  }

  // No batch changes what a later batch decides about another row.
  lemma JudgeStable(db: Db, w: World, run: nat, stamps: Key -> Stamp, keys: set<Key>, k: Key)
    requires Selected(db.rows, keys) && k in db.rows && InSet(db.rows, k) && k !in keys
    ensures var after := ProcessRows(db, w, run, stamps, keys);
      InSet(after.rows, k) && Judge(after, w, run, k) == Judge(db, w, run, k)
  {
    var after := ProcessRows(db, w, run, stamps, keys);
    InputsKept(db, w, run, stamps, keys);
    GrantsStable(db, w, run, stamps, keys, k);
    OwnRunIsNoHistory(db.log, NewEntries(db.rows, PlanOf(db, w, run, keys), run, stamps), History(run, None), k);
    assert after.rows[k].owner == db.rows[k].owner && after.rows[k].vis == db.rows[k].vis by {
      assert EntityOf(k, db.rows[k]).None?;
    }
    DecideStable(db.rows, after.rows, w, db.log, after.log, History(run, None), k);
  }

  lemma SelectedStable(db: Db, w: World, run: nat, stamps: Key -> Stamp, keys: set<Key>, more: set<Key>)
    requires Selected(db.rows, keys) && Selected(db.rows, more)
    ensures Selected(ProcessRows(db, w, run, stamps, keys).rows, more)
  {
    InputsKept(db, w, run, stamps, keys);
    forall k | k in more ensures InSet(ProcessRows(db, w, run, stamps, keys).rows, k) {
      SameSet(db.rows, ProcessRows(db, w, run, stamps, keys).rows, k);
    }
  }

  lemma SnapshotStable(rows: map<Key, Row>, moves: map<Key, Row>, k: Key, bump: nat, rule: Option<bool>)
    requires Admissible(rows, moves) && k in rows && k !in moves && EntityOf(k, rows[k]).None?
    ensures SnapshotOf(ApplyMoves(rows, moves), k, bump, rule) == SnapshotOf(rows, k, bump, rule)
  {
    var after := ApplyMoves(rows, moves);
    forall i | i in rows ensures Mirrors(after, i, k) == Mirrors(rows, i, k) && after[i].member == rows[i].member {
    }
    assert ItemsOf(after, k) == ItemsOf(rows, k);
  }

  lemma EntriesAt(rows: map<Key, Row>, plan: Plan, run: nat, stamps: Key -> Stamp, l: LogKey)
    requires plan.Keys <= rows.Keys
    ensures l in NewEntries(rows, plan, run, stamps)
      <==> (l.run == run && l.key in plan && plan[l.key].logged)
    ensures l in NewEntries(rows, plan, run, stamps) ==>
      NewEntries(rows, plan, run, stamps)[l] == EntryOf(rows, l.key, plan[l.key], stamps(l.key))
  {
    if l.run == run && l.key in plan && plan[l.key].logged {
      assert l == LogKey(run, l.key);
    }
  }

  lemma MapsJoin<K, V>(x: map<K, V>, y: map<K, V>, z: map<K, V>, rest: map<K, V>)
    requires x.Keys !! y.Keys && z.Keys == x.Keys + y.Keys
    requires forall k :: k in z ==> z[k] == if k in x then x[k] else y[k]
    ensures z == y + x && x + (y + rest) == z + rest
  {
  }

  lemma EntriesSplit(rows: map<Key, Row>, run: nat, stamps: Key -> Stamp, pa: Plan, pb: Plan,
                     mid: map<Key, Row>, l: LogKey)
    requires pa.Keys !! pb.Keys && pa.Keys + pb.Keys <= rows.Keys && mid.Keys == rows.Keys
    requires forall k :: k in pb ==> EntryOf(mid, k, pb[k], stamps(k)) == EntryOf(rows, k, pb[k], stamps(k))
    ensures var x, y, z := NewEntries(mid, pb, run, stamps), NewEntries(rows, pa, run, stamps),
        NewEntries(rows, pa + pb, run, stamps);
      && !(l in x && l in y) && (l in z <==> (l in x || l in y))
      && (l in z ==> z[l] == if l in x then x[l] else y[l])
  {
    EntriesAt(mid, pb, run, stamps, l);
    EntriesAt(rows, pa, run, stamps, l);
    EntriesAt(rows, pa + pb, run, stamps, l);
  }

  lemma ComposeLogs(rows: map<Key, Row>, log: map<LogKey, LogEntry>, run: nat, stamps: Key -> Stamp,
                    pa: Plan, pb: Plan, mid: map<Key, Row>)
    requires pa.Keys !! pb.Keys && pa.Keys + pb.Keys <= rows.Keys && mid.Keys == rows.Keys
    requires forall k :: k in pb ==> EntryOf(mid, k, pb[k], stamps(k)) == EntryOf(rows, k, pb[k], stamps(k))
    ensures NewEntries(mid, pb, run, stamps) + (NewEntries(rows, pa, run, stamps) + log)
      == NewEntries(rows, pa + pb, run, stamps) + log
  {
    ghost var x, y, z := NewEntries(mid, pb, run, stamps), NewEntries(rows, pa, run, stamps),
      NewEntries(rows, pa + pb, run, stamps);
    forall l
      ensures !(l in x && l in y) && (l in z <==> (l in x || l in y))
      ensures l in z ==> z[l] == if l in x then x[l] else y[l]
    {
      EntriesSplit(rows, run, stamps, pa, pb, mid, l);
    }
    MapsJoin(x, y, z, log);
  }

  // A row outside the first batch enters the second as it was.
  lemma Untouched(db: Db, w: World, run: nat, stamps: Key -> Stamp, a: set<Key>, k: Key, o: Outcome)
    requires Selected(db.rows, a) && k in db.rows && InSet(db.rows, k) && k !in a
    ensures var mid := ProcessRows(db, w, run, stamps, a).rows;
      mid[k] == db.rows[k] && EntryOf(mid, k, o, stamps(k)) == EntryOf(db.rows, k, o, stamps(k))
  {
    var moves := MovesOf(db.rows, PlanOf(db, w, run, a));
    MovesAdmissible(db, w, run, a);
    assert EntityOf(k, db.rows[k]).None?;
    var bump := if db.rows[k].owner != o.owner || db.rows[k].vis != o.vis then 1 else 0;
    SnapshotStable(db.rows, moves, k, bump, Some(o.derivedRule));
  }

  lemma PlansSplit(db: Db, w: World, run: nat, a: set<Key>, b: set<Key>)
    requires Selected(db.rows, a) && Selected(db.rows, b) && a !! b
    ensures PlanOf(db, w, run, a) + PlanOf(db, w, run, b) == PlanOf(db, w, run, a + b)
  {
    MapsJoin(PlanOf(db, w, run, b), PlanOf(db, w, run, a), PlanOf(db, w, run, a + b), map[]);
  }

  lemma PlanStable(db: Db, w: World, run: nat, stamps: Key -> Stamp, a: set<Key>, b: set<Key>)
    requires Selected(db.rows, a) && Selected(db.rows, b) && a !! b
    ensures Selected(ProcessRows(db, w, run, stamps, a).rows, b)
    ensures PlanOf(ProcessRows(db, w, run, stamps, a), w, run, b) == PlanOf(db, w, run, b)
  {
    SelectedStable(db, w, run, stamps, a, b);
    var mid := ProcessRows(db, w, run, stamps, a);
    forall k | k in b ensures Judge(mid, w, run, k) == Judge(db, w, run, k) {
      JudgeStable(db, w, run, stamps, a, k);
    }
    MapsEqual(PlanOf(mid, w, run, b), PlanOf(db, w, run, b));
  }

  lemma MapsEqual<K, V>(x: map<K, V>, y: map<K, V>)
    requires x.Keys == y.Keys && forall k :: k in x ==> x[k] == y[k]
    ensures x == y
  {
  }

  // Two batches amount to one: the state after a run depends on the set of rows it
  // processed, not on how they were batched or ordered.
  lemma Compose(db: Db, w: World, run: nat, stamps: Key -> Stamp, a: set<Key>, b: set<Key>)
    requires Selected(db.rows, a) && Selected(db.rows, b) && a !! b
    ensures Selected(ProcessRows(db, w, run, stamps, a).rows, b)
    ensures ProcessRows(ProcessRows(db, w, run, stamps, a), w, run, stamps, b)
      == ProcessRows(db, w, run, stamps, a + b)
  {
    var mid := ProcessRows(db, w, run, stamps, a);
    PlanStable(db, w, run, stamps, a, b);
    PlansSplit(db, w, run, a, b);
    MovesAdmissible(db, w, run, a);
    MovesAdmissible(db, w, run, b);
    InputsKept(db, w, run, stamps, a);
    var pa, pb := PlanOf(db, w, run, a), PlanOf(db, w, run, b);
    ApplyTwice(db, pa, pb, run, stamps, mid) by {
      forall k | k in pb
        ensures mid.rows[k] == db.rows[k]
        ensures EntryOf(mid.rows, k, pb[k], stamps(k)) == EntryOf(db.rows, k, pb[k], stamps(k))
      {
        Untouched(db, w, run, stamps, a, k, pb[k]);
      }
    }
  }

  lemma MovesSplit(rows: map<Key, Row>, mid: map<Key, Row>, pa: Plan, pb: Plan)
    requires pa.Keys !! pb.Keys && pa.Keys + pb.Keys <= rows.Keys && mid.Keys == rows.Keys
    requires forall k :: k in pb ==> mid[k] == rows[k]
    ensures MovesOf(mid, pb) == MovesOf(rows, pb)
    ensures MovesOf(rows, pa) + MovesOf(rows, pb) == MovesOf(rows, pa + pb)
  {
    MapsEqual(MovesOf(mid, pb), MovesOf(rows, pb));
    MapsJoin(MovesOf(rows, pb), MovesOf(rows, pa), MovesOf(rows, pa + pb), map[]);
  }

  lemma ApplyTwice(db: Db, pa: Plan, pb: Plan, run: nat, stamps: Key -> Stamp, mid: Db)
    requires pa.Keys !! pb.Keys && pa.Keys + pb.Keys <= db.rows.Keys
    requires mid == ApplyPlan(db, pa, run, stamps)
    requires Admissible(db.rows, MovesOf(db.rows, pa)) && Admissible(db.rows, MovesOf(db.rows, pb))
    requires SameInputs(db.rows, mid.rows)
    requires forall k :: k in pb ==> mid.rows[k] == db.rows[k]
    requires forall k :: k in pb ==>
      EntryOf(mid.rows, k, pb[k], stamps(k)) == EntryOf(db.rows, k, pb[k], stamps(k))
    ensures ApplyPlan(mid, pb, run, stamps) == ApplyPlan(db, pa + pb, run, stamps)
  {
    MovesSplit(db.rows, mid.rows, pa, pb);
    ComposeMoves(db.rows, MovesOf(db.rows, pa), MovesOf(db.rows, pb));
    ComposeLogs(db.rows, db.log, run, stamps, pa, pb, mid.rows);
    ComposeGrants(db, pa, pb, mid.rows, stamps);
  }

  lemma ComposeGrants(db: Db, pa: Plan, pb: Plan, mid: map<Key, Row>, stamps: Key -> Stamp)
    requires pa.Keys !! pb.Keys
    requires SameInputs(db.rows, mid)
    ensures RevokeGrants(mid, RevokeGrants(db.rows, db.grants, pa, stamps), pb, stamps)
      == RevokeGrants(db.rows, db.grants, pa + pb, stamps)
  {
  }

  // A plan without changes leaves the state as it is.
  lemma RevokesNothing(rows: map<Key, Row>, grants: map<nat, Grant>, plan: Plan, stamps: Key -> Stamp)
    requires forall k :: k in plan ==> plan[k].grants == 0
    ensures RevokeGrants(rows, grants, plan, stamps) == grants
  {
  }

  lemma LogsNothing(rows: map<Key, Row>, log: map<LogKey, LogEntry>, plan: Plan, run: nat, stamps: Key -> Stamp)
    requires plan.Keys <= rows.Keys && forall k :: k in plan ==> !plan[k].logged
    ensures NewEntries(rows, plan, run, stamps) + log == log
  {
    var none := NewEntries(rows, plan, run, stamps);
    forall l ensures l !in none { EntriesAt(rows, plan, run, stamps, l); }
    assert none == map[];
  }

  lemma PlanLeavesRows(rows: map<Key, Row>, grants: map<nat, Grant>, log: map<LogKey, LogEntry>, plan: Plan,
                       run: nat, stamps: Key -> Stamp)
    requires plan.Keys <= rows.Keys
    requires forall k :: k in plan ==>
      plan[k].owner == rows[k].owner && plan[k].vis == rows[k].vis && plan[k].grants == 0 && !plan[k].logged
    requires forall k, e :: k in rows && EntityOf(k, rows[k]) == Some(e) && e in plan && Peer(rows, rows[k].ws, e) ==>
      rows[k].owner == rows[e].owner && rows[k].vis == rows[e].vis
    ensures ApplyPlan(Db(rows, grants, log), plan, run, stamps) == Db(rows, grants, log)
  {
    var db := Db(rows, grants, log);
    var moves := MovesOf(rows, plan);
    MovesNothing(rows, moves);
    RevokesNothing(rows, grants, plan, stamps);
    LogsNothing(rows, log, plan, run, stamps);
  }
}
