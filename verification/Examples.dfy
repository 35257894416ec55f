// Concrete cases in which the obvious claim fails, or a theorem's premises are met.
module Examples {
  import opened Ordering
  import opened Records
  import opened Rules
  import opened Moves
  import opened Process
  import opened Settled
  import opened Restore
  import opened RestoreTheorems
  import Rollback
  import Sharing
  import Grants
  import InertGrants
  import Lock = MembershipLock
  import Remediation
  import Feed = ActivityFeed
  import Search = SearchPaging
  import Idem = Idempotency

  // ------------------------------------------------------------------- restore

  const CONNECTOR := Key(ConnectorAccounts, 1)

  function SharedConnector(): Db {
    Db(map[CONNECTOR := Row(1, 7, Workspace, 3, 5, ConnectorFacts(Gmail), NO_MEMBER_FIELDS, Mark(0, None))],
       map[4 := Grant(1, CONNECTOR, 8, {Read}, 7, None, None)], map[])
  }

  // A shared Gmail connector: made private, its grant revoked, logged, and put back.
  lemma ConnectorRoundTrip(w: World, stamps: Key -> Stamp)
    requires Active(w, 1, 7)
    ensures var db, keys := SharedConnector(), {CONNECTOR};
      && Selected(db.rows, keys) && FreshRun(db.log, 0)
      && var after := ProcessRows(db, w, 0, stamps, keys);
         && after.rows[CONNECTOR].vis == Private && after.rows[CONNECTOR].version == 4
         && after.grants[4].revokedAt.Some?
         && LogKey(0, CONNECTOR) in after.log && after.log[LogKey(0, CONNECTOR)].grantsRevoked == 1
         && VerdictOf(after, w, History(0, None), None, CONNECTOR) == PutBack(7, Workspace)
  {
    var db, keys := SharedConnector(), {CONNECTOR};
    var after := ProcessRows(db, w, 0, stamps, keys);
    assert ActiveGrantIds(db, CONNECTOR) == {4};
    assert Judge(db, w, 0, CONNECTOR) == Outcome(7, Private, None, 1, true, false);
    EntriesAt(db.rows, PlanOf(db, w, 0, keys), 0, stamps, LogKey(0, CONNECTOR));
    VerdictAfterRun(db, w, 0, stamps, keys, History(0, None), CONNECTOR);
  }

  function Connector(vis: Visibility, version: nat): map<Key, Row> {
    map[CONNECTOR := Row(1, 7, vis, version, 5, ConnectorFacts(Gmail), NO_MEMBER_FIELDS, Mark(0, None))]
  }

  lemma ConnectorJudged(db: Db, w: World, run: nat, vis: Visibility, version: nat)
    requires db.rows == Connector(vis, version) && db.grants == map[] && vis != Private
    ensures Selected(db.rows, {CONNECTOR}) && Judge(db, w, run, CONNECTOR) == Outcome(7, Private, None, 0, true, false)
  {
    assert ActiveGrantIds(db, CONNECTOR) == {};
  }

  lemma ConnectorMoved(vis: Visibility, version: nat)
    requires vis != Private
    ensures var plan: Plan := map[CONNECTOR := Outcome(7, Private, None, 0, true, false)];
      ApplyMoves(Connector(vis, version), MovesOf(Connector(vis, version), plan)) == Connector(Private, version + 1)
  {
  }

  // A connector run over once: private, and logged with what it was.
  lemma ConnectorRun(db: Db, w: World, run: nat, stamps: Key -> Stamp, vis: Visibility, version: nat)
    requires db.rows == Connector(vis, version) && db.grants == map[] && FreshRun(db.log, run) && vis != Private
    requires Active(w, 1, 7)
    ensures Selected(db.rows, {CONNECTOR})
    ensures var after := ProcessRows(db, w, run, stamps, {CONNECTOR});
      && after.rows == Connector(Private, version + 1) && LogKey(run, CONNECTOR) in after.log
      && (forall l :: l in after.log ==> l in db.log || l == LogKey(run, CONNECTOR))
      && (forall h: History :: h.excludeRun == run ==> VerdictOf(after, w, h, None, CONNECTOR) == PutBack(7, vis))
  {
    hide Judge, InSet, VerdictOf, MovesOf, ApplyMoves;
    ConnectorJudged(db, w, run, vis, version);
    ghost var after := ProcessRows(db, w, run, stamps, {CONNECTOR});
    ConnectorMoved(vis, version);
    MapsEqual(PlanOf(db, w, run, {CONNECTOR}), map[CONNECTOR := Outcome(7, Private, None, 0, true, false)]);
    EntriesAt(db.rows, PlanOf(db, w, run, {CONNECTOR}), run, stamps, LogKey(run, CONNECTOR));
    forall l | l in after.log ensures l in db.log || l == LogKey(run, CONNECTOR) {
      NothingElseLogged(db, w, run, stamps, {CONNECTOR}, l);
    }
    forall h: History | h.excludeRun == run ensures VerdictOf(after, w, h, None, CONNECTOR) == PutBack(7, vis) {
      VerdictAfterRun(db, w, run, stamps, {CONNECTOR}, h, CONNECTOR);
    }
  }

  // Run 0 over a workspace connector, and run 1 over it once shared explicitly.
  ghost function First(w: World, stamps: Key -> Stamp): Rollback.Run {
    Rollback.Run(Db(Connector(Workspace, 3), map[], map[]), w, 0, stamps, {CONNECTOR}, History(0, None))
  }

  lemma FirstSound(w: World, stamps: Key -> Stamp)
    requires Active(w, 1, 7)
    ensures Rollback.Sound(First(w, stamps))
    ensures var left := Rollback.Left(First(w, stamps));
      && left.rows == Connector(Private, 4) && LogKey(0, CONNECTOR) in left.log
      && forall l :: l in left.log ==> l == LogKey(0, CONNECTOR)
  {
    hide ProcessRows, InSet;
    ConnectorRun(First(w, stamps).db, w, 0, stamps, Workspace, 3);
  }

  ghost function Second(w: World, stamps: Key -> Stamp): Rollback.Run
    requires Rollback.Sound(First(w, stamps))
  {
    Rollback.Run(Db(Connector(SharedExplicitly, 4), map[], Rollback.Left(First(w, stamps)).log), w, 1, stamps, {CONNECTOR},
                 History(1, None))
  }

  lemma BothRuns(w: World, stamps: Key -> Stamp)
    requires Active(w, 1, 7)
    ensures Rollback.Sound(First(w, stamps)) && Rollback.Sound(Second(w, stamps))
    ensures Rollback.InTurn(First(w, stamps), Second(w, stamps), CONNECTOR)
    ensures Rollback.Undoes(Second(w, stamps), w, {CONNECTOR}, CONNECTOR)
    ensures Second(w, stamps).w == w
    ensures SameReads(Second(w, stamps).db.rows, Second(w, stamps).db.rows, w, w, CONNECTOR)
  {
    ConnectorReads(w);
    hide ProcessRows, InSet, VerdictOf, First, Rollback.Left;
    FirstIs(w, stamps);
    FirstSound(w, stamps);
    ConnectorRun(Second(w, stamps).db, w, 1, stamps, SharedExplicitly, 4);
    LeftIs(Second(w, stamps));
  }

  lemma ConnectorReads(w: World)
    ensures SameReads(Connector(Private, 4), Connector(SharedExplicitly, 4), w, w, CONNECTOR)
    ensures SameReads(Connector(SharedExplicitly, 4), Connector(SharedExplicitly, 4), w, w, CONNECTOR)
  {
  }

  lemma FirstIs(w: World, stamps: Key -> Stamp)
    ensures var r := First(w, stamps);
      r.w == w && r.id == 0 && r.keys == {CONNECTOR} && r.h == History(0, None) && r.db.rows == Connector(Workspace, 3)
  {
  }

  lemma LeftIs(r: Rollback.Run)
    requires Rollback.Sound(r)
    ensures Rollback.Left(r) == ProcessRows(r.db, r.w, r.id, r.stamps, r.keys)
  {
  }

  // Restoring both newest first leaves it as the second run found it.
  ghost predicate EndsAs(first: Rollback.Run, second: Rollback.Run, w: World, vis: Visibility)
    requires Rollback.Sound(first) && Rollback.Sound(second)
  {
    && Logged(Rollback.Left(second).log, second.id, {CONNECTOR})
    && var once := Rollback.UndoneOnce(second, w, {CONNECTOR});
       && Logged(once.log, first.id, {CONNECTOR})
       && var end := RestoreRows(once, w, first.h, None, {CONNECTOR}).rows;
          CONNECTOR in end && end[CONNECTOR].vis == vis
  }

  lemma EndsAsFound(first: Rollback.Run, second: Rollback.Run, w: World)
    requires Rollback.InTurn(first, second, CONNECTOR) && Rollback.Undoes(second, w, {CONNECTOR}, CONNECTOR)
    requires SameReads(second.db.rows, second.db.rows, second.w, w, CONNECTOR)
    ensures EndsAs(first, second, w, second.db.rows[CONNECTOR].vis)
  {
    hide ProcessRows, VerdictOf, RestoreRows, InSet, SameReads, Rollback.Left;
    Rollback.StraightAfter(first, second, w, {CONNECTOR}, w, CONNECTOR);
    ghost var once := Rollback.UndoneOnce(second, w, {CONNECTOR});
    Rollback.OlderRunNotUndone(first, second, w, {CONNECTOR}, once, w, CONNECTOR);
    Rollback.NewestFirst(first, second, w, {CONNECTOR}, once, w, {CONNECTOR}, CONNECTOR);
  }

  // A workspace connector made private, shared explicitly since, made private again:
  // restoring both runs newest first leaves it shared explicitly.
  lemma NewestFirstStops(w: World, stamps: Key -> Stamp)
    requires Active(w, 1, 7)
    ensures First(w, stamps).db.rows[CONNECTOR].vis == Workspace
    ensures Rollback.Sound(First(w, stamps)) && Rollback.Sound(Second(w, stamps))
    ensures EndsAs(First(w, stamps), Second(w, stamps), w, SharedExplicitly)
  {
    BothRuns(w, stamps);
    SecondIs(w, stamps);
    hide ProcessRows, EndsAs, InSet, SameReads, Rollback.Left, Rollback.InTurn, Rollback.Undoes, Rollback.Sound, Second;
    EndsAsFound(First(w, stamps), Second(w, stamps), w);
  }

  lemma SecondIs(w: World, stamps: Key -> Stamp)
    requires Rollback.Sound(First(w, stamps))
    ensures var rows := Second(w, stamps).db.rows;
      CONNECTOR in rows && rows[CONNECTOR].vis == SharedExplicitly
  {
  }

  const SOURCE := Key(Recommendations, 1)
  const ENTITY := Key(Tasks, 2)

  // A task created from an email recommendation of 7, confirmed by `confirmer`.
  function TaskRows(confirmer: nat, owner: nat, vis: Visibility, version: nat): map<Key, Row> {
    map[SOURCE := Row(1, 7, Private, 1, 0, RecommendationFacts(EmailActionDetected, 7, [],
                        Some(Execution(true, TaskEntity, 2))), NO_MEMBER_FIELDS, Mark(0, None)),
        ENTITY := Row(1, owner, vis, version, 9, DerivedFacts(confirmer), NO_MEMBER_FIELDS, Mark(0, None))]
  }

  // One confirmed by 7 and since given to somebody else.
  function TransferredTask(owner: nat, vis: Visibility, version: nat): map<Key, Row> {
    TaskRows(7, owner, vis, version)
  }

  lemma TaskSource(w: World, confirmer: nat, owner: nat, vis: Visibility, version: nat)
    ensures var rows := TaskRows(confirmer, owner, vis, version);
      && InSet(rows, ENTITY)
      && SourceDecision(rows, w, ENTITY) == Some(Target(7, Private, None, true))
  {
    var rows := TaskRows(confirmer, owner, vis, version);
    assert SourceIds(rows, 1, ENTITY) == {1} by {
      assert SOURCE in rows && SOURCE.table == Recommendations && Sources(rows, 1, SOURCE.id, ENTITY);
    }
    assert Least(SourceIds(rows, 1, ENTITY)) == 1;
    assert !Contradicted(rows, w, 1, [], 7);
  }

  // The row before the run, and what the run leaves of it.
  function Before(): Db { Db(TransferredTask(5, Workspace, 3), map[], map[]) }

  const LEFT := Outcome(5, Private, Some(DerivedOwnerChanged), 0, true, true)

  lemma TaskJudged(w: World)
    ensures Selected(Before().rows, {ENTITY}) && Judge(Before(), w, 0, ENTITY) == LEFT
  {
    TaskSource(w, 7, 5, Workspace, 3);
    hide InSet, SourceDecision;
    EffectiveOfDerived(Before(), w, 0, ENTITY);
    assert EarlierOf(Before().log, History(0, None), ENTITY) == {};
    assert ActiveGrantIds(Before(), ENTITY) == {};
  }

  lemma NoItems(confirmer: nat, owner: nat, vis: Visibility, version: nat)
    ensures SnapshotOf(TaskRows(confirmer, owner, vis, version), ENTITY, 1, Some(true))
      == Some(DerivedSnapshot(version, 9, map[], 1, Some(true)))
    ensures SnapshotOf(TaskRows(confirmer, owner, vis, version), ENTITY, 0, None)
      == Some(DerivedSnapshot(version, 9, map[], 0, None))
  {
    assert ItemsOf(TaskRows(confirmer, owner, vis, version), ENTITY) == map[];
  }

  function LeftEntry(stamp: Stamp): LogEntry {
    LogEntry(stamp.logId, stamp.at, Some(5), Workspace, 0, Some(DerivedSnapshot(3, 9, map[], 1, Some(true))))
  }

  // Left private with its owner 5 and reported `derived_owner_changed`.
  lemma TaskLogged(w: World, stamps: Key -> Stamp)
    ensures Selected(Before().rows, {ENTITY})
    ensures var log := ProcessRows(Before(), w, 0, stamps, {ENTITY}).log;
      LogKey(0, ENTITY) in log && log[LogKey(0, ENTITY)] == LeftEntry(stamps(ENTITY))
  {
    hide InSet, Judge, TaskRows, SnapshotOf;
    TaskJudged(w);
    NoItems(7, 5, Workspace, 3);
    TaskRow();
    EntriesAt(Before().rows, PlanOf(Before(), w, 0, {ENTITY}), 0, stamps, LogKey(0, ENTITY));
  }

  lemma TaskRow()
    ensures ENTITY in Before().rows && Before().rows[ENTITY].owner == 5 && Before().rows[ENTITY].vis == Workspace
  {
  }

  // Given to 7 by hand since: restore takes 7 for what the run left, and gives the row back
  // to 5.
  lemma OwnerFixLost(w: World, stamps: Key -> Stamp)
    requires Active(w, 1, 5)
    ensures Selected(Before().rows, {ENTITY})
    ensures LogKey(0, ENTITY) in ProcessRows(Before(), w, 0, stamps, {ENTITY}).log
    ensures var later := ProcessRows(Before(), w, 0, stamps, {ENTITY}).(rows := TransferredTask(7, Private, 4));
      VerdictOf(later, w, History(0, None), None, ENTITY) == PutBack(5, Workspace)
  {
    hide ProcessRows, InSet, SourceDecision, VerdictOf, SnapshotOf, LeftEntry;
    TaskLogged(w, stamps);
    TaskSource(w, 7, 7, Private, 4);
    NoItems(7, 7, Private, 4);
    FixUndone(ProcessRows(Before(), w, 0, stamps, {ENTITY}).(rows := TransferredTask(7, Private, 4)), w, stamps(ENTITY));
  }

  lemma FixUndone(later: Db, w: World, stamp: Stamp)
    requires Active(w, 1, 5) && later.rows == TransferredTask(7, Private, 4)
    requires LogKey(0, ENTITY) in later.log && later.log[LogKey(0, ENTITY)] == LeftEntry(stamp)
    ensures VerdictOf(later, w, History(0, None), None, ENTITY) == PutBack(5, Workspace)
  {
    TaskSource(w, 7, 7, Private, 4);
    NoItems(7, 7, Private, 4);
    hide InSet, SourceDecision, VerdictOf, SnapshotOf;
    OwnerFixIsUndone(later, w, History(0, None), ENTITY, 5, Workspace);
  }

  // ------------------------------------------- restore, with rows that came since the run

  // The row as the run left it, and an attention item copying it created since.
  function WithNewItem(member: MemberFields): map<Key, Row> {
    TransferredTask(5, Private, 4)[Key(AttentionItems, 8) :=
      Row(1, 5, Private, 1, 0, AttentionFacts(TaskEntity, 2), member, Mark(4, None))]
  }

  lemma NewItemRows(w: World, member: MemberFields)
    ensures var rows := WithNewItem(member);
      && InSet(rows, ENTITY) && SourceDecision(rows, w, ENTITY) == Some(Target(7, Private, None, true))
      && SnapshotOf(rows, ENTITY, 0, None) == Some(DerivedSnapshot(4, 9, map[8 := member], 0, None))
  {
    var rows := WithNewItem(member);
    assert SourceIds(rows, 1, ENTITY) == {1} by {
      assert SOURCE in rows && SOURCE.table == Recommendations && Sources(rows, 1, SOURCE.id, ENTITY);
    }
    assert Least(SourceIds(rows, 1, ENTITY)) == 1;
    assert !Contradicted(rows, w, 1, [], 7);
    assert Mirrors(rows, Key(AttentionItems, 8), ENTITY);
    MapsEqual(ItemsOf(rows, ENTITY), map[8 := member]);
  }

  // Whatever threads and messages came since as well: the row is put back while the new item
  // has no member fields, and refused as changed attention once it has.
  lemma ItemCreatedSince(w: World, w': World, stamps: Key -> Stamp, member: MemberFields)
    requires Active(w', 1, 5)
    ensures Selected(Before().rows, {ENTITY})
    ensures var after := ProcessRows(Before(), w, 0, stamps, {ENTITY});
      var later := after.(rows := WithNewItem(member));
      && EditedSince(after, w, later, w', 0, ENTITY)
      && VerdictOf(later, w', History(0, None), None, ENTITY)
         == if member == NO_MEMBER_FIELDS then PutBack(5, Workspace) else Refused(ChangedAttention)
  {
    TaskLogged(w, stamps);
    TaskLeft(w, stamps);
    TaskSource(w, 7, 5, Private, 4);
    NewItemRows(w', member);
    hide ProcessRows, InSet, SourceDecision, VerdictOf, SnapshotOf, LeftEntry;
    ghost var after := ProcessRows(Before(), w, 0, stamps, {ENTITY});
    NewItemVerdict(after.(rows := WithNewItem(member)), w', stamps(ENTITY), member);
  }

  lemma TaskLeft(w: World, stamps: Key -> Stamp)
    ensures Selected(Before().rows, {ENTITY})
    ensures ProcessRows(Before(), w, 0, stamps, {ENTITY}).rows == TransferredTask(5, Private, 4)
  {
    TaskJudged(w);
    hide InSet, Judge;
    MapsEqual(PlanOf(Before(), w, 0, {ENTITY}), map[ENTITY := LEFT]);
    TaskMoves();
  }

  lemma TaskMoves()
    ensures ApplyMoves(Before().rows, MovesOf(Before().rows, map[ENTITY := LEFT])) == TransferredTask(5, Private, 4)
  {
    MapsEqual(ApplyMoves(Before().rows, MovesOf(Before().rows, map[ENTITY := LEFT])), TransferredTask(5, Private, 4));
  }

  lemma NewItemVerdict(later: Db, w: World, stamp: Stamp, member: MemberFields)
    requires Active(w, 1, 5) && later.rows == WithNewItem(member)
    requires LogKey(0, ENTITY) in later.log && later.log[LogKey(0, ENTITY)] == LeftEntry(stamp)
    ensures VerdictOf(later, w, History(0, None), None, ENTITY)
      == if member == NO_MEMBER_FIELDS then PutBack(5, Workspace) else Refused(ChangedAttention)
  {
    NewItemRows(w, member);
    DerivedDecides(later.rows, w, later.log, History(0, None), ENTITY);
    hide InSet, SourceDecision, SnapshotOf, Decide;
    assert ItemChanged(map[], map[8 := member], 8) <==> member != NO_MEMBER_FIELDS;
  }

  // ---------------------------------------------------------- restore, with earlier history

  // The same task, confirmed by 5 and theirs, `workspace`-visible again although run 9 once
  // made it private.
  function Reopened(): Db {
    Db(TaskRows(5, 5, Workspace, 3), map[],
       map[LogKey(9, ENTITY) := LogEntry(1, 1, Some(5), Workspace, 0, Some(DerivedSnapshot(1, 9, map[], 1, Some(true))))])
  }

  lemma ReopenedRow()
    ensures ENTITY in Reopened().rows && Reopened().rows[ENTITY].owner == 5 && Reopened().rows[ENTITY].vis == Workspace
    ensures FreshRun(Reopened().log, 0)
  {
  }

  lemma ReopenedJudged(w: World)
    requires Active(w, 1, 7)
    ensures Selected(Reopened().rows, {ENTITY})
    ensures Judge(Reopened(), w, 0, ENTITY) == Outcome(7, Private, None, 0, true, true)
  {
    TaskSource(w, 5, 5, Workspace, 3);
    hide InSet, SourceDecision, EarlierOf;
    EffectiveOfDerived(Reopened(), w, 0, ENTITY);
    assert ActiveGrantIds(Reopened(), ENTITY) == {};
  }

  // The run gives it to 7 and makes it private.
  lemma ReopenedLogged(w: World, stamps: Key -> Stamp)
    requires Active(w, 1, 7)
    ensures Selected(Reopened().rows, {ENTITY})
    ensures var log := ProcessRows(Reopened(), w, 0, stamps, {ENTITY}).log;
      && LogKey(0, ENTITY) in log && log[LogKey(0, ENTITY)] == LeftEntry(stamps(ENTITY))
      && LogKey(9, ENTITY) in log && log[LogKey(9, ENTITY)] == Reopened().log[LogKey(9, ENTITY)]
  {
    hide InSet, Judge, TaskRows, SnapshotOf;
    ReopenedJudged(w);
    NoItems(5, 5, Workspace, 3);
    ReopenedRow();
    EntriesAt(Reopened().rows, PlanOf(Reopened(), w, 0, {ENTITY}), 0, stamps, LogKey(0, ENTITY));
    EntriesAt(Reopened().rows, PlanOf(Reopened(), w, 0, {ENTITY}), 0, stamps, LogKey(9, ENTITY));
  }

  // Given back to 5 by hand since: with run 9 in its history restore takes 5 for what the run
  // left, although the run left 7, and makes the row `workspace`-visible again.
  lemma HandBackUndone(w: World, stamps: Key -> Stamp, started: nat)
    requires Active(w, 1, 7) && Active(w, 1, 5) && started > 1
    ensures Selected(Reopened().rows, {ENTITY}) && Judge(Reopened(), w, 0, ENTITY).owner == 7
    ensures LogKey(0, ENTITY) in ProcessRows(Reopened(), w, 0, stamps, {ENTITY}).log
    ensures var later := ProcessRows(Reopened(), w, 0, stamps, {ENTITY}).(rows := TaskRows(5, 5, Private, 4));
      VerdictOf(later, w, History(0, Some(started)), None, ENTITY) == PutBack(5, Workspace)
  {
    hide ProcessRows, InSet, SourceDecision, VerdictOf, SnapshotOf, LeftEntry, EarlierOf;
    ReopenedJudged(w);
    ReopenedLogged(w, stamps);
    HandBack(ProcessRows(Reopened(), w, 0, stamps, {ENTITY}).(rows := TaskRows(5, 5, Private, 4)), w, stamps(ENTITY), started);
  }

  lemma HandBack(later: Db, w: World, stamp: Stamp, started: nat)
    requires Active(w, 1, 5) && later.rows == TaskRows(5, 5, Private, 4) && started > 1
    requires LogKey(0, ENTITY) in later.log && later.log[LogKey(0, ENTITY)] == LeftEntry(stamp)
    requires LogKey(9, ENTITY) in later.log && later.log[LogKey(9, ENTITY)] == Reopened().log[LogKey(9, ENTITY)]
    ensures VerdictOf(later, w, History(0, Some(started)), None, ENTITY) == PutBack(5, Workspace)
  {
    TaskSource(w, 5, 5, Private, 4);
    NoItems(5, 5, Private, 4);
    var h := History(0, Some(started));
    assert Earlier(Some(5), true) in EarlierOf(later.log, h, ENTITY) by {
      assert Counts(later.log, h, LogKey(9, ENTITY));
    }
    hide InSet, SourceDecision, VerdictOf, SnapshotOf, EarlierOf;
    DerivedPutBackIff(later, w, h, ENTITY, 5);
    PutBackMeans(later, w, h, ENTITY);
  }

  // ------------------------------------------------------------------- sharing

  // Two live grants of `read` on one row: listed, reported, and `authorize` raises.
  lemma OverlapRaises()
    ensures var k, m := Key(Other("notes"), 1), Membership(1, 8);
      var row := Row(1, 7, SharedExplicitly, 1, 0, OtherFacts, NO_MEMBER_FIELDS, Mark(0, None));
      var g := Grant(1, k, 80, {Read}, 7, None, None);
      var db, dir := Db(map[k := row], map[1 := g, 2 := g], map[]), map[m := Sharing.Seat(80, Sharing.Member, true)];
      && Sharing.Authorize(db, dir, m, k, Read, 0) == Sharing.Raised
      && k in Sharing.ListVisible(db, dir, m, Other("notes"), Read, 0)
  {
    var k, m := Key(Other("notes"), 1), Membership(1, 8);
    var g := Grant(1, k, 80, {Read}, 7, None, None);
    var grants: map<nat, Grant> := map[1 := g, 2 := g];
    assert Sharing.LiveGrantsFor(grants, 1, 80, k, Read, 0) == {1, 2};
  }

  const ITEM := Key(AttentionItems, 3)

  function ItemRow(vis: Visibility): Row {
    Row(1, 7, vis, 1, 0, AttentionFacts(TaskEntity, 2), NO_MEMBER_FIELDS, Mark(3, None))
  }

  function SharedItem(action: Action): Grant { Grant(1, ITEM, 80, {action}, 7, None, None) }

  // A workspace task, and the attention item copying it, shared with account 80.
  function TaskAndItem(vis: Visibility, version: nat, item: Visibility): map<Key, Row> {
    TransferredTask(7, vis, version)[ITEM := ItemRow(item)]
  }

  function ItemShared(): Db { Db(TaskAndItem(Workspace, 3, SharedExplicitly), map[4 := SharedItem(Write)], map[]) }

  lemma ItemTask(w: World)
    ensures InSet(ItemShared().rows, ENTITY)
    ensures SourceDecision(ItemShared().rows, w, ENTITY) == Some(Target(7, Private, None, true))
  {
    var rows := ItemShared().rows;
    assert SourceIds(rows, 1, ENTITY) == {1} by {
      assert SOURCE in rows && SOURCE.table == Recommendations && Sources(rows, 1, SOURCE.id, ENTITY);
    }
    assert Least(SourceIds(rows, 1, ENTITY)) == 1;
    assert !Contradicted(rows, w, 1, [], 7);
  }

  lemma ItemTaskJudged(w: World)
    requires Active(w, 1, 7)
    ensures Selected(ItemShared().rows, {ENTITY})
    ensures Judge(ItemShared(), w, 0, ENTITY) == Outcome(7, Private, None, 0, true, true)
  {
    ItemTask(w);
    hide InSet, SourceDecision, EarlierOf;
    EffectiveOfDerived(ItemShared(), w, 0, ENTITY);
    assert ActiveGrantIds(ItemShared(), ENTITY) == {};
  }

  // What the batch leaves: the entity private, the item with it, the item's grant as it was.
  function ItemLeft(): Db { Db(TaskAndItem(Private, 4, Private), map[4 := SharedItem(Write)], map[]) }

  const ITEM_PLAN: Plan := map[ENTITY := Outcome(7, Private, None, 0, true, true)]

  lemma ItemFollowsTask()
    ensures ApplyMoves(ItemShared().rows, MovesOf(ItemShared().rows, ITEM_PLAN)) == ItemLeft().rows
  {
    var rows := ItemShared().rows;
    var moves := MovesOf(rows, ITEM_PLAN);
    assert MoveOne(rows, moves, ENTITY) == ItemLeft().rows[ENTITY];
    assert MoveOne(rows, moves, SOURCE) == ItemLeft().rows[SOURCE];
    assert MoveOne(rows, moves, ITEM) == ItemLeft().rows[ITEM];
    MapsEqual(ApplyMoves(rows, moves), ItemLeft().rows);
  }

  lemma ItemGrantStays(stamps: Key -> Stamp)
    ensures RevokeGrants(ItemShared().rows, ItemShared().grants, ITEM_PLAN, stamps) == ItemLeft().grants
  {
  }

  lemma ItemEffects()
    ensures InertGrants.AllEffective(ItemShared())
    ensures forall db: Db :: db.rows == ItemLeft().rows && db.grants == ItemLeft().grants ==>
      InertGrants.WithoutEffect(db, ItemLeft().grants[4])
  {
  }

  // Every grant has its effect; after the batch the one on the item has none.
  lemma CopyLosesEffect(w: World, stamps: Key -> Stamp)
    requires Active(w, 1, 7)
    ensures InertGrants.AllEffective(ItemShared()) && Selected(ItemShared().rows, {ENTITY})
    ensures var after := ProcessRows(ItemShared(), w, 0, stamps, {ENTITY});
      && after.rows == ItemLeft().rows && after.grants == ItemLeft().grants
      && 4 in after.grants && InertGrants.WithoutEffect(after, after.grants[4])
  {
    ItemTaskJudged(w);
    ItemFollowsTask();
    ItemGrantStays(stamps);
    ItemEffects();
    hide InSet, Judge, TaskAndItem, MovesOf, ApplyMoves, RevokeGrants, InertGrants.WithoutEffect, InertGrants.AllEffective;
    MapsEqual(PlanOf(ItemShared(), w, 0, {ENTITY}), ITEM_PLAN);
  }

  function Seats(): Sharing.Directory {
    map[Membership(1, 7) := Sharing.Seat(70, Sharing.Member, true),
        Membership(1, 8) := Sharing.Seat(80, Sharing.Member, true)]
  }

  // The item the batch left private, shared with account 80 again, for reading: the preview
  // says `read` is gained, but the old grant's `write` comes back to life as well.
  lemma DormantGrantWakes(now: nat)
    ensures var db := ItemLeft();
      var r := Grants.GrantRequest(ITEM, 80, {Read}, None, false);
      var p := Grants.PreviewGrant(db, Seats(), true, Membership(1, 7), r, now);
      && p.Previewed? && p.preview.gains == {Read}
      && Grants.ActionsOf(db, Seats(), Membership(1, 8), ITEM, now) == {}
      && Grants.ActionsOf(Grants.Granted(db, Membership(1, 7), r, 5), Seats(), Membership(1, 8), ITEM, now) == {Read, Write}
  {
    var db := ItemLeft();
    var r := Grants.GrantRequest(ITEM, 80, {Read}, None, false);
    var after := Grants.Granted(db, Membership(1, 7), r, 5);
    assert Seats()[Membership(1, 8)].account == 80;
    assert Grants.ActiveAccount(Seats(), 1, 80);
    forall a ensures a in Grants.ActionsOf(after, Seats(), Membership(1, 8), ITEM, now) {
      Grants.ActionsMeaning(after, Seats(), Membership(1, 8), ITEM, a, now);
      var g := if a == Read then 5 else 4;
      assert g in after.grants && Sharing.Names(after.grants[g], 1, 80, ITEM, now) && a in after.grants[g].actions;
    }
  }

  function Note(vis: Visibility): Db {
    Db(map[Key(Other("notes"), 1) := Row(1, 7, vis, 1, 0, OtherFacts, NO_MEMBER_FIELDS, Mark(0, None))], map[], map[])
  }

  // The owner of a private note as the grantee: the preview says `read` is gained, the owner
  // can do everything before and after.
  lemma OwnerGainsNothing(now: nat)
    ensures var db, k := Note(Private), Key(Other("notes"), 1);
      var r := Grants.GrantRequest(k, 70, {Read}, None, false);
      var p := Grants.PreviewGrant(db, Seats(), true, Membership(1, 7), r, now);
      && p.Previewed? && p.preview.gains == {Read}
      && Grants.ActionsOf(db, Seats(), Membership(1, 7), k, now) == {Read, Write}
      && Grants.ActionsOf(Grants.Granted(db, Membership(1, 7), r, 5), Seats(), Membership(1, 7), k, now) == {Read, Write}
  {
    assert Seats()[Membership(1, 7)].account == 70;
    assert Grants.ActiveAccount(Seats(), 1, 70);
  }

  // A member granted `read` on a workspace note loses the `write` their role gave; the
  // preview shows no gain and no member losing access.
  lemma NarrowingTakesWrite(now: nat)
    ensures var db, k := Note(Workspace), Key(Other("notes"), 1);
      var r := Grants.GrantRequest(k, 80, {Read}, None, true);
      var p := Grants.PreviewGrant(db, Seats(), true, Membership(1, 7), r, now);
      && p.Previewed? && p.preview.gains == {} && p.preview.losing == {}
      && Grants.ActionsOf(db, Seats(), Membership(1, 8), k, now) == {Read, Write}
      && Grants.ActionsOf(Grants.Granted(db, Membership(1, 7), r, 5), Seats(), Membership(1, 8), k, now) == {Read}
  {
    var db, k := Note(Workspace), Key(Other("notes"), 1);
    var r := Grants.GrantRequest(k, 80, {Read}, None, true);
    var after := Grants.Granted(db, Membership(1, 7), r, 5);
    assert Seats()[Membership(1, 8)].account == 80;
    assert Grants.ActiveAccount(Seats(), 1, 80);
    forall a ensures a in Grants.ActionsOf(after, Seats(), Membership(1, 8), k, now) <==> a == Read {
      Grants.ActionsMeaning(after, Seats(), Membership(1, 8), k, a, now);
      assert Sharing.Names(after.grants[5], 1, 80, k, now);
    }
  }

  // ------------------------------------------------------------------- membership

  function Owners(second: Sharing.Role): Sharing.Directory {
    map[Membership(1, 1) := Sharing.Seat(10, second, true), Membership(1, 2) := Sharing.Seat(20, Sharing.WorkspaceOwner, true),
        Membership(1, 3) := Sharing.Seat(30, Sharing.Member, true)]
  }

  function Idle(): Lock.System { Lock.System(Db(map[], map[], map[]), Owners(Sharing.WorkspaceOwner), {}, map[], map[], map[]) }

  const PROMOTE := Lock.Changer(Membership(1, 1), 3, Lock.SetRole(Sharing.WorkspaceOwner), Lock.Starting)
  const DEMOTE := Lock.Changer(Membership(1, 2), 1, Lock.SetRole(Sharing.Viewer), Lock.Starting)

  // A run, one step longer.
  lemma Then(states: seq<Lock.System>, steps: seq<Lock.Step>, step: Lock.Step)
    returns (states': seq<Lock.System>, steps': seq<Lock.Step>)
    requires Lock.Runs(states, steps) && Lock.Enabled(states[|steps|], step)
    ensures Lock.Runs(states', steps') && |steps'| == |steps| + 1
    ensures states'[|steps'|] == Lock.Next(states[|steps|], step)
  {
    states', steps' := states + [Lock.Next(states[|steps|], step)], steps + [step];
  }

  function Entitled(tx: Lock.Tx): Lock.Tx
    requires tx.Changer?
  {
    tx.(at := Lock.Entitled(Sharing.WorkspaceOwner))
  }

  // Two owners have their roles read: 1 to make 3 an owner, 2 to make 1 a viewer.
  lemma BothRead() returns (states: seq<Lock.System>, steps: seq<Lock.Step>)
    ensures Lock.Runs(states, steps)
    ensures states[|steps|] == Idle().(txs := map[1 := Entitled(PROMOTE), 2 := Entitled(DEMOTE)])
  {
    states, steps := [Idle()], [];
    states, steps := Then(states, steps, Lock.Begin(1, PROMOTE));
    states, steps := Then(states, steps, Lock.Begin(2, DEMOTE));
    states, steps := Then(states, steps, Lock.ReadRole(1));
    states, steps := Then(states, steps, Lock.ReadRole(2));
  }

  lemma StillAnOwner()
    ensures Lock.Approvable(Owners(Sharing.WorkspaceOwner), Membership(1, 1), Lock.SetRole(Sharing.Viewer), Sharing.WorkspaceOwner)
    ensures Lock.Changed(Owners(Sharing.WorkspaceOwner), Membership(1, 1), Lock.SetRole(Sharing.Viewer)) == Owners(Sharing.Viewer)
  {
    assert Membership(1, 2) in Owners(Sharing.WorkspaceOwner);
  }

  // 2's change is approved under the lock.
  lemma DemotionApproved() returns (states: seq<Lock.System>, steps: seq<Lock.Step>)
    ensures Lock.Runs(states, steps)
    ensures states[|steps|] == Idle().(
      exclusive := map[1 := 2], txs := map[1 := Entitled(PROMOTE), 2 := DEMOTE.(at := Lock.Approved(Sharing.WorkspaceOwner))])
  {
    states, steps := BothRead();
    StillAnOwner();
    hide Lock.Approvable;
    states, steps := Then(states, steps, Lock.LockExclusive(2));
    states, steps := Then(states, steps, Lock.Approve(2));
  }

  // 2's change commits.
  lemma OneDemoted() returns (states: seq<Lock.System>, steps: seq<Lock.Step>)
    ensures Lock.Runs(states, steps)
    ensures states[|steps|] == Idle().(dir := Owners(Sharing.Viewer), txs := map[1 := Entitled(PROMOTE)])
  {
    states, steps := DemotionApproved();
    StillAnOwner();
    hide Lock.Approvable, Lock.Changed, Lock.Runs;
    states, steps := Then(states, steps, Lock.CommitChange(2));
    assert states[|steps|].txs == map[1 := Entitled(PROMOTE)];
  }

  // 1's change takes the lock after that, is approved on the role read before, and can commit
  // on a viewer's behalf.
  lemma DemotedCallerCommits() returns (states: seq<Lock.System>, steps: seq<Lock.Step>)
    ensures Lock.Runs(states, steps)
    ensures var s := states[|steps|];
      && Lock.Enabled(s, Lock.CommitChange(1)) && !Lock.EntitledNow(s, 1)
      && Sharing.CurrentRole(s.dir, Membership(1, 1)) == Some(Sharing.Viewer)
  {
    states, steps := OneDemoted();
    states, steps := Then(states, steps, Lock.LockExclusive(1));
    states, steps := Then(states, steps, Lock.Approve(1));
  }

  // ------------------------------------------------------------------- remediation

  function Mismatched(credential: bool): Remediation.Subject {
    Remediation.Connector(1, Gmail, "a@example.org", 7, true, true, 1, credential)
  }

  const NOTHING_ELSE := Remediation.Evidence(map[], map[], map[])

  // Two connectors of one account, both flagged: the dry run says both revokes would be
  // skipped, the real run skips the first and asks the provider for the second.
  lemma SecondRevokeHappens(answers: Remediation.Answers)
    requires !answers.checkFails(1) && !answers.checkFails(2)
    ensures var st := Remediation.State(map[1 := Mismatched(true), 2 := Mismatched(true)], {});
      var x, y := Remediation.Target(Remediation.A, 1), Remediation.Target(Remediation.A, 2);
      && Remediation.DryResult(st, NOTHING_ELSE, 1, Remediation.Global, [x], y).revoke == Remediation.WouldSkipUnsafe
      && Remediation.RealResult(Remediation.Done(st, NOTHING_ELSE, 1, [x]), NOTHING_ELSE, 1, Remediation.Global, answers, y).1
  {
    var st := Remediation.State(map[1 := Mismatched(true), 2 := Mismatched(true)], {});
    var x, y := Remediation.Target(Remediation.A, 1), Remediation.Target(Remediation.A, 2);
    assert [x][..0] == [];
    assert Remediation.Done(st, NOTHING_ELSE, 1, []) == st;
    var mid := Remediation.Done(st, NOTHING_ELSE, 1, [x]);
    assert mid == Remediation.Act(st, NOTHING_ELSE, 1, x).1;
    assert Remediation.Rival(st.rows, 1, Gmail, "a@example.org", 2);
    assert Remediation.DryResult(st, NOTHING_ELSE, 1, Remediation.Global, [x], y).outcome == Remediation.WouldDisconnect;
  }

  // A flagged connector whose credential cannot be read: the dry run says its grant would be
  // revoked, the real run cannot.
  lemma UnreadableCredential(answers: Remediation.Answers)
    ensures var st := Remediation.State(map[1 := Mismatched(false)], {});
      var x := Remediation.Target(Remediation.A, 1);
      && Remediation.DryResult(st, NOTHING_ELSE, 1, Remediation.Global, [], x).revoke == Remediation.WouldRevoke
      && Remediation.RealResult(st, NOTHING_ELSE, 1, Remediation.Global, answers, x)
           == (Remediation.Result(x, Remediation.Disconnected, Remediation.CredentialUnavailable), false)
  {
  }

  // ------------------------------------------------------------------- paging

  const NEWER := Feed.Event(Feed.Position(2, 1), "incident", 1)
  const OLDER := Feed.Event(Feed.Position(1, 2), "incident", 2)

  // Two events, both visible, one per page: the first page ends with a null cursor.
  method UnreadEvent() returns (items: seq<Feed.Event>, next: Option<Feed.Position>)
    ensures next.None? && |items| == 1 && items[0] == NEWER
  {
    var show := (e: Feed.Event) => Sharing.Allowed;
    var events := [NEWER, OLDER];
    var ok;
    ok, items, next := Feed.ListSharedActivity(events, show, None, 1);
    assert Feed.Rest(events, None) == events;
    AllVisible(show, events[..Feed.PageRows(show, events, 1, Feed.MAX_ITERATIONS)]);
  }

  lemma {:induction false} AllVisible(show: Feed.Event -> Sharing.Answer, events: seq<Feed.Event>)
    requires forall e :: show(e) == Sharing.Allowed
    ensures Feed.Visible(show, events) == events
    decreases |events|
  {
    if events != [] {
      var n := |events| - 1;
      AllVisible(show, events[..n]);
      assert events == events[..n] + [events[n]];
    }
  }

  // An archived match by similarity alone, half a year old: below 0, and no cursor.
  lemma WeakMatchHasNoCursor(c: Search.Codec)
    requires Search.Faithful(c)
    ensures var m := Search.Match(false, false, 0.15, 0.0, false, 180 * Search.DAY, false, true);
      && Search.Matches(m) && Search.Score(m) == -0.05
      && Search.DecodeCursor(c, Search.SignCursor(c, Search.Hit(Search.Score(m), 0, 1, 1))).None?
  {
    Search.CursorRoundTrip(c, Search.Hit(-0.05, 0, 1, 1));
  }

  // ------------------------------------------------------------------- idempotency

  ghost function Play(slot: Idem.Id -> nat, s: Idem.System, steps: seq<Idem.Step>): Option<Idem.System>
    decreases |steps|
  {
    if steps == [] then Some(s)
    else if !Idem.Enabled(slot, s, steps[0]) then None
    else Play(slot, Idem.Next(slot, s, steps[0]), steps[1..])
  }

  // A key used again after its record expired: a miss, and yet rolled back.
  lemma ExpiredKeyCollides(slot: Idem.Id -> nat, s: Idem.System, id: Idem.Id, t: nat, body: nat)
    requires t !in s.txs && t !in s.ended && s.locks == map[]
    requires id in s.records && s.records[id].expiresAt <= 100
    ensures var end := Play(slot, s, [Idem.Begin(t, id, 1), Idem.Lock(t), Idem.Load(t, 100), Idem.Store(t, body, 200)]);
      end.Some? && t in end.value.ended && end.value.ended[t].outcome == Idem.RolledBack && end.value.events == s.events
  {
    var a := Idem.Next(slot, s, Idem.Begin(t, id, 1));
    var b := Idem.Next(slot, a, Idem.Lock(t));
    var c := Idem.Next(slot, b, Idem.Load(t, 100));
    assert c.txs[t].stage == Idem.Missed(100);
    var d := Idem.Next(slot, c, Idem.Store(t, body, 200));
    var steps := [Idem.Begin(t, id, 1), Idem.Lock(t), Idem.Load(t, 100), Idem.Store(t, body, 200)];
    assert steps[1..][0] == Idem.Lock(t) && steps[1..][1..] == steps[2..];
    assert steps[2..][0] == Idem.Load(t, 100) && steps[2..][1..] == steps[3..];
    assert steps[3..] == [Idem.Store(t, body, 200)];
    assert Play(slot, d, []) == Some(d);
    assert Play(slot, c, steps[3..]) == Some(d);
    assert Play(slot, b, steps[2..]) == Some(d);
    assert Play(slot, a, steps[1..]) == Some(d);
  }
}
