// What `--restore <run>` decides about each row the run logged.
module Restore {
  import opened Ordering
  import opened Records
  import opened Rules
  import opened Moves
  import opened Process

  datatype Verdict =
    | OutOfScope
    | AlreadyRestored
    | Refused(why: Reason)
    | PutBack(owner: nat, vis: Visibility)

  // What the backfill left on the row, rebuilt from its rules applied to the row as it is
  // now and the logged previous values.
  function OwnerLeft(d: Decision, prevOwner: Option<nat>): Option<nat>
    requires d.Target?
  {
    if d.keepsOwner then prevOwner else Some(d.owner)
  }

  function VisibilityLeft(t: Table, d: Decision, prevVis: Visibility): Visibility
    requires d.Target?
  {
    if VisibilityKept(t) then prevVis else d.vis
  }

  predicate ItemChanged(before: map<nat, MemberFields>, now: map<nat, MemberFields>, i: nat)
    requires i in now
  {
    (if i in before then before[i] else NO_MEMBER_FIELDS) != now[i]
  }

  function SnapshotChange(t: Table, logged: Option<Snapshot>, now: Option<Snapshot>): Option<Reason> {
    if !(Derived(t) || t == AttentionItems) then None
    else if logged.None? then Some(NoSnapshot)
    else if now.None? then None
    else
      match (logged.value, now.value)
      case (DerivedSnapshot(version, updatedAt, items, bump, _), DerivedSnapshot(version', updatedAt', items', _, _)) =>
        if version' != version + bump || updatedAt' != updatedAt then Some(ChangedContent)
        else if exists i :: i in items' && ItemChanged(items, items', i) then Some(ChangedAttention)
        else None
      case (ItemSnapshot(member), ItemSnapshot(member')) =>
        if member != member' then Some(ChangedAttention) else None
      case (DerivedSnapshot(_, _, _, _, _), ItemSnapshot(_)) => Some(ChangedContent)
      case (ItemSnapshot(member), DerivedSnapshot(_, _, _, _, _)) =>
        if member != NO_MEMBER_FIELDS then Some(ChangedAttention) else None
  }

  // Why a logged row must not be put back, if it must not.
  function Refusal(t: Table, row: Row, d: Decision, e: LogEntry, now: Option<Snapshot>, w: World): Option<Reason> {
    if d.Unresolved? then Some(ChangedRule)
    else if Some(row.owner) != OwnerLeft(d, e.prevOwner) then Some(ChangedOwner)
    else if row.vis != VisibilityLeft(t, d, e.prevVis) then Some(ChangedVisibility)
    else if SnapshotChange(t, e.state, now).Some? then SnapshotChange(t, e.state, now)
    else if e.prevOwner.None? || !Active(w, row.ws, e.prevOwner.value) then Some(PreviousOwnerInactive)
    else None
  }

  function VerdictOf(db: Db, w: World, h: History, scope: Option<nat>, k: Key): Verdict
    requires LogKey(h.excludeRun, k) in db.log
  {
    var e := db.log[LogKey(h.excludeRun, k)];
    if k !in db.rows then Refused(Deleted)
    else if scope.Some? && db.rows[k].ws != scope.value then OutOfScope
    else if !InSet(db.rows, k) then Refused(NoLongerPersonal)
    else if Some(db.rows[k].owner) == e.prevOwner && db.rows[k].vis == e.prevVis then AlreadyRestored
    else
      var d := Decide(db.rows, w, db.log, h, k);
      var why := Refusal(k.table, db.rows[k], d, e, SnapshotOf(db.rows, k, 0, None), w);
      if why.Some? then Refused(why.value)
      else if e.prevOwner.None? then Refused(PreviousOwnerInactive)
      else PutBack(e.prevOwner.value, e.prevVis)
  }

  predicate Logged(log: map<LogKey, LogEntry>, run: nat, keys: set<Key>) {
    forall k :: k in keys ==> LogKey(run, k) in log
  }

  function RestoreMoves(db: Db, w: World, h: History, scope: Option<nat>, keys: set<Key>): (m: map<Key, Row>)
    requires Logged(db.log, h.excludeRun, keys)
    ensures m.Keys <= db.rows.Keys
  {
    map k | k in keys && VerdictOf(db, w, h, scope, k).PutBack? ::
      var v := VerdictOf(db, w, h, scope, k);
      MovedRow(k.table, db.rows[k], v.owner, v.vis)
  }

  // The state once the logged rows `keys` have been gone through.
  function RestoreRows(db: Db, w: World, h: History, scope: Option<nat>, keys: set<Key>): Db
    requires Logged(db.log, h.excludeRun, keys)
  {
    db.(rows := ApplyMoves(db.rows, RestoreMoves(db, w, h, scope, keys)))
  }

  // -------------------------------------- no restored row changes another's verdict

  lemma PutBackKeepsSourceOwners(db: Db, w: World, h: History, scope: Option<nat>, k: Key)
    requires LogKey(h.excludeRun, k) in db.log && VerdictOf(db, w, h, scope, k).PutBack?
    requires k.table in {ConnectorAccounts, Recommendations, AiRuns}
    ensures VerdictOf(db, w, h, scope, k).owner == db.rows[k].owner
  {
  }

  lemma RestoreAdmissible(db: Db, w: World, h: History, scope: Option<nat>, keys: set<Key>)
    requires Logged(db.log, h.excludeRun, keys)
    ensures Admissible(db.rows, RestoreMoves(db, w, h, scope, keys))
  {
    forall k | k in keys && VerdictOf(db, w, h, scope, k).PutBack?
      ensures k in db.rows && EntityOf(k, db.rows[k]).None?
    {
      assert InSet(db.rows, k);
    }
  }

  // The rows put back keep the owner a rule reads.
  lemma RestoreMovesKeepOwners(db: Db, w: World, h: History, scope: Option<nat>, keys: set<Key>)
    requires Logged(db.log, h.excludeRun, keys)
    ensures var moves := RestoreMoves(db, w, h, scope, keys);
      forall k :: k in moves && k.table in {ConnectorAccounts, Recommendations, AiRuns} ==>
        k in db.rows && moves[k].owner == db.rows[k].owner
  {
    hide VerdictOf, InSet;
    var moves := RestoreMoves(db, w, h, scope, keys);
    forall k | k in moves && k.table in {ConnectorAccounts, Recommendations, AiRuns}
      ensures moves[k].owner == db.rows[k].owner
    {
      PutBackKeepsSourceOwners(db, w, h, scope, k);
    }
  }

  lemma RestoreKeepsInputs(db: Db, w: World, h: History, scope: Option<nat>, keys: set<Key>)
    requires Logged(db.log, h.excludeRun, keys)
    ensures SameInputs(db.rows, RestoreRows(db, w, h, scope, keys).rows)
  {
    RestoreAdmissible(db, w, h, scope, keys);
    RestoreMovesKeepOwners(db, w, h, scope, keys);
    hide VerdictOf, InSet, RestoreMoves;
    MovesKeepFacts(db.rows, RestoreMoves(db, w, h, scope, keys));
  }

  lemma VerdictStable(db: Db, w: World, h: History, scope: Option<nat>, keys: set<Key>, k: Key)
    requires Logged(db.log, h.excludeRun, keys) && LogKey(h.excludeRun, k) in db.log && k !in keys
    ensures VerdictOf(RestoreRows(db, w, h, scope, keys), w, h, scope, k) == VerdictOf(db, w, h, scope, k)
    ensures VerdictOf(db, w, h, scope, k).PutBack? ==> RestoreRows(db, w, h, scope, keys).rows[k] == db.rows[k]
  {
    ghost var after := RestoreRows(db, w, h, scope, keys);
    RestoreKeepsInputs(db, w, h, scope, keys);
    if k in db.rows {
      SameSet(db.rows, after.rows, k);
      if InSet(db.rows, k) {
        RestoreAdmissible(db, w, h, scope, keys);
        NotMoved(db, w, h, scope, keys, k);
        SnapshotStable(db.rows, RestoreMoves(db, w, h, scope, keys), k, 0, None);
        DecideStable(db.rows, after.rows, w, db.log, db.log, h, k);
        VerdictReads(db, after, w, h, scope, k);
      }
    }
  }

  lemma NotMoved(db: Db, w: World, h: History, scope: Option<nat>, keys: set<Key>, k: Key)
    requires Logged(db.log, h.excludeRun, keys) && k !in keys && k in db.rows && InSet(db.rows, k)
    ensures RestoreRows(db, w, h, scope, keys).rows[k] == db.rows[k] && EntityOf(k, db.rows[k]).None?
  {
  }

  lemma VerdictReads(db: Db, after: Db, w: World, h: History, scope: Option<nat>, k: Key)
    requires LogKey(h.excludeRun, k) in db.log && after.log == db.log
    requires k in db.rows && k in after.rows && after.rows[k] == db.rows[k]
    requires InSet(db.rows, k) && InSet(after.rows, k)
    requires Decide(after.rows, w, db.log, h, k) == Decide(db.rows, w, db.log, h, k)
    requires SnapshotOf(after.rows, k, 0, None) == SnapshotOf(db.rows, k, 0, None)
    ensures VerdictOf(after, w, h, scope, k) == VerdictOf(db, w, h, scope, k)
  {
  }

  // Two pages amount to one: what a restore leaves depends on the log rows it went
  // through, not on the page size or on the order of their ids.
  lemma RestoreComposes(db: Db, w: World, h: History, scope: Option<nat>, a: set<Key>, b: set<Key>)
    requires Logged(db.log, h.excludeRun, a) && Logged(db.log, h.excludeRun, b) && a !! b
    ensures RestoreRows(RestoreRows(db, w, h, scope, a), w, h, scope, b) == RestoreRows(db, w, h, scope, a + b)
  {
    ghost var mid := RestoreRows(db, w, h, scope, a);
    ghost var ma, mb := RestoreMoves(db, w, h, scope, a), RestoreMoves(db, w, h, scope, b);
    RestoreAdmissible(db, w, h, scope, a);
    RestoreAdmissible(db, w, h, scope, b);
    forall k | k in b
      ensures VerdictOf(mid, w, h, scope, k) == VerdictOf(db, w, h, scope, k)
      ensures VerdictOf(db, w, h, scope, k).PutBack? ==> mid.rows[k] == db.rows[k]
    {
      VerdictStable(db, w, h, scope, a, k);
    }
    MapsEqual(RestoreMoves(mid, w, h, scope, b), mb);
    MapsJoin(mb, ma, RestoreMoves(db, w, h, scope, a + b), map[]);
    ComposeMoves(db.rows, ma, mb);
  }
}
