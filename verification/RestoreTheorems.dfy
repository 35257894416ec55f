// The restore against the run it undoes, and against later edits.
module RestoreTheorems {
  import opened Records
  import opened Ordering
  import opened Rules
  import opened Moves
  import opened Process
  import opened Settled
  import opened Restore
  import opened Personal

  // ------------------------------------------------------------------ reconstruction

  // What the rule of row `k` reads besides its owner and visibility is the same in both: its
  // own columns, and of other tables only what its table's rule looks up. Anything else may
  // have come, gone or changed.
  ghost predicate SameReads(a: map<Key, Row>, b: map<Key, Row>, w: World, w': World, k: Key) {
    && k in a && k in b && b[k].ws == a[k].ws && b[k].facts == a[k].facts && InSet(a, k) && InSet(b, k)
    && var f, ws := a[k].facts, a[k].ws;
       match k.table
       case ConnectorAccounts | RecommendationFeedback | AttentionFeedback => true
       case SyncRuns | SyncCursors => ConnectorOwner(b, ws, f.connector) == ConnectorOwner(a, ws, f.connector)
       case AttentionItems => ThreadOwner(w', ws, f.entity) == ThreadOwner(w, ws, f.entity)
       case Recommendations =>
         Contradicted(b, w', ws, f.evidence, f.createdBy) == Contradicted(a, w, ws, f.evidence, f.createdBy)
       case AiRuns => f.thread.Some? ==> ThreadOwner(w', ws, f.thread.value) == ThreadOwner(w, ws, f.thread.value)
       case AiRunSteps => RunDecision(w', b[Key(AiRuns, f.run)]) == RunDecision(w, a[Key(AiRuns, f.run)])
       case PkosEvidence => EvidenceOwner(w', ws, f.sourceRef) == EvidenceOwner(w, ws, f.sourceRef)
       case EntityAliases =>
         EvidenceOwner(w', ws, SourceRefOf(b, ws, f.source)) == EvidenceOwner(w, ws, SourceRefOf(a, ws, f.source))
       case Tasks | Commitments | Risks => SourceDecision(b, w', k) == SourceDecision(a, w, k)
  }

  lemma ReadsCompose(a: map<Key, Row>, b: map<Key, Row>, c: map<Key, Row>, w: World, w': World, w'': World, k: Key)
    requires SameReads(a, b, w, w', k) && SameReads(b, c, w', w'', k)
    ensures SameReads(a, c, w, w'', k)
  {
    hide InSet, Contradicted, EvidenceOwner, SourceDecision, RunDecision, ThreadOwner, ConnectorOwner;
  }

  // No batch and no restore page changes what a row's rule reads.
  lemma InputsAreReads(a: map<Key, Row>, b: map<Key, Row>, w: World, k: Key)
    requires SameInputs(a, b) && k in a && InSet(a, k)
    ensures SameReads(a, b, w, w, k)
  {
    hide Contradicted, EvidenceOwner, SourceDecision;
    SameSet(a, b, k);
    if k.table == Recommendations {
      SameContradicted(a, b, w, a[k].ws, a[k].facts.evidence, a[k].facts.createdBy);
    } else if Derived(k.table) {
      SameSourceDecision(a, b, w, k);
    }
  }

  // What restore takes the run to have left does not depend on what the row holds now.
  lemma ReconstructionExact(a: map<Key, Row>, b: map<Key, Row>, w: World, w': World, la: map<LogKey, LogEntry>,
                            lb: map<LogKey, LogEntry>, ha: History, hb: History, k: Key)
    requires SameReads(a, b, w, w', k) && !Derived(k.table)
    ensures var d, d' := Decide(a, w, la, ha, k), Decide(b, w', lb, hb, k);
      if d.Target? then
        && d'.Target?
        && OwnerLeft(d', Some(a[k].owner)) == Some(d.owner)
        && VisibilityLeft(k.table, d', a[k].vis) == d.vis
      else d'.Unresolved?
  {
    hide Contradicted, EvidenceOwner;
  }

  // The derived rule applied by restore to a row the run moved and nobody touched since,
  // whatever history it reads.
  lemma DerivedReconstruction(w: World, w': World, a: Row, source: Option<Decision>, earlier: set<Earlier>, later: set<Earlier>)
    requires a.facts.DerivedFacts? && source.Some? && source.value.Target?
    requires source.value.reason.Some? ==> source.value.reason.value == OwnerNotMailboxOwner
    requires var d := FullDecision(w, a, source, earlier);
      d.Target? && (d.owner != a.owner || d.vis != a.vis)
    ensures var d := FullDecision(w, a, source, earlier);
      var d' := FullDecision(w', a.(owner := d.owner, vis := d.vis), source, later);
      d'.Target? && d.vis == d'.vis == Private && OwnerLeft(d', Some(a.owner)) == Some(d.owner)
  {
  }

  // ---------------------------------------------------------------- restore undoes a run

  lemma ItemsStable(rows: map<Key, Row>, moves: map<Key, Row>, k: Key)
    requires Admissible(rows, moves)
    ensures ItemsOf(ApplyMoves(rows, moves), k) == ItemsOf(rows, k)
  {
    var after := ApplyMoves(rows, moves);
    forall i | i in rows ensures Mirrors(after, i, k) == Mirrors(rows, i, k) && after[i].member == rows[i].member {}
    MapsEqual(ItemsOf(after, k), ItemsOf(rows, k));
  }

  // The snapshot logged with a change matches the row the change left.
  lemma SnapshotMatches(rows: map<Key, Row>, moves: map<Key, Row>, k: Key, o: Outcome, stamp: Stamp)
    requires Admissible(rows, moves) && k in moves
    requires moves[k] == MovedRow(k.table, rows[k], o.owner, o.vis)
    ensures SnapshotChange(k.table, EntryOf(rows, k, o, stamp).state, SnapshotOf(ApplyMoves(rows, moves), k, 0, None)).None?
  {
    ItemsStable(rows, moves, k);
    assert ApplyMoves(rows, moves)[k] == moves[k];
  }

  lemma DerivedHasConfirmer(rows: map<Key, Row>, k: Key)
    requires k in rows && InSet(rows, k) && Derived(k.table)
    ensures rows[k].facts.DerivedFacts?
  {
  }

  // The rule applied, in a later state, to a row the run moved and that still has the owner
  // and visibility the run left.
  lemma MovedDerived(db: Db, w: World, run: nat, stamps: Key -> Stamp, keys: set<Key>, later: Db, w': World,
                     h: History, k: Key)
    requires Selected(db.rows, keys) && k in keys && Derived(k.table)
    requires SameReads(db.rows, later.rows, w, w', k)
    requires var left := ProcessRows(db, w, run, stamps, keys).rows[k];
      && (left.owner != db.rows[k].owner || left.vis != db.rows[k].vis)
      && later.rows[k].owner == left.owner && later.rows[k].vis == left.vis
    ensures var d := Decide(later.rows, w', later.log, h, k);
      && d.Target? && OwnerLeft(d, Some(db.rows[k].owner)) == Some(later.rows[k].owner)
      && d.vis == later.rows[k].vis
  {
    hide Decide, InSet, ProcessRows, SourceDecision, EarlierOf;
    RowsSettled(db, w, run, stamps, keys, k);
    SourceVerified(db.rows, w, k);
    DerivedHasConfirmer(db.rows, k);
    EffectiveOfDerived(db, w, run, k);
    DerivedReconstruction(w, w', db.rows[k], SourceDecision(db.rows, w, k), EarlierOf(db.log, History(run, None), k),
                          EarlierOf(later.log, h, k));
    DerivedReads(w', later.rows[k], db.rows[k].(owner := later.rows[k].owner, vis := later.rows[k].vis),
                 SourceDecision(db.rows, w, k), EarlierOf(later.log, h, k));
    DerivedDecides(later.rows, w', later.log, h, k);
  }

  lemma MovedDecision(db: Db, w: World, run: nat, stamps: Key -> Stamp, keys: set<Key>, later: Db, w': World,
                      h: History, k: Key)
    requires Selected(db.rows, keys) && k in keys && FreshRun(db.log, run)
    requires SameReads(db.rows, later.rows, w, w', k)
    requires var left := ProcessRows(db, w, run, stamps, keys).rows[k];
      && (left.owner != db.rows[k].owner || left.vis != db.rows[k].vis)
      && later.rows[k].owner == left.owner && later.rows[k].vis == left.vis
    ensures InSet(later.rows, k)
    ensures var d := Decide(later.rows, w', later.log, h, k);
      && d.Target? && OwnerLeft(d, Some(db.rows[k].owner)) == Some(later.rows[k].owner)
      && VisibilityLeft(k.table, d, db.rows[k].vis) == later.rows[k].vis
  {
    hide Decide, InSet, ProcessRows;
    RowsSettled(db, w, run, stamps, keys, k);
    DecisionVisibility(db, w, run, k);
    if Derived(k.table) {
      MovedDerived(db, w, run, stamps, keys, later, w', h, k);
    } else {
      ReconstructionExact(db.rows, later.rows, w, w', db.log, later.log, History(run, None), h, k);
      assert Effective(db, w, run, k).Target?;
    }
  }

  lemma DerivedDecides(rows: map<Key, Row>, w: World, log: map<LogKey, LogEntry>, h: History, k: Key)
    requires k in rows && InSet(rows, k) && Derived(k.table)
    ensures Decide(rows, w, log, h, k) == FullDecision(w, rows[k], SourceDecision(rows, w, k), EarlierOf(log, h, k))
  {
    LazyHistoryIsFullHistory(rows, w, log, h, k);
  }

  // The verdict on a row the run logged and nobody touched since.
  lemma VerdictAfterRun(db: Db, w: World, run: nat, stamps: Key -> Stamp, keys: set<Key>, h: History, k: Key)
    requires Selected(db.rows, keys) && k in keys && FreshRun(db.log, run) && h.excludeRun == run
    requires LogKey(run, k) in ProcessRows(db, w, run, stamps, keys).log
    requires Active(w, db.rows[k].ws, db.rows[k].owner)
    ensures var after := ProcessRows(db, w, run, stamps, keys);
      VerdictOf(after, w, h, None, k)
      == if after.rows[k].owner == db.rows[k].owner && after.rows[k].vis == db.rows[k].vis then AlreadyRestored
         else PutBack(db.rows[k].owner, db.rows[k].vis)
  {
    hide Decide, InSet, ProcessRows, SnapshotOf, SnapshotChange;
    ghost var after := ProcessRows(db, w, run, stamps, keys);
    ghost var plan := PlanOf(db, w, run, keys);
    EntryLogged(db, w, run, stamps, keys, k);
    InputsKept(db, w, run, stamps, keys);
    SameSet(db.rows, after.rows, k);
    if after.rows[k].owner != db.rows[k].owner || after.rows[k].vis != db.rows[k].vis {
      InputsAreReads(db.rows, after.rows, w, k);
      MovedDecision(db, w, run, stamps, keys, after, w, h, k);
      MovesAdmissible(db, w, run, keys);
      SnapshotMatches(db.rows, MovesOf(db.rows, plan), k, plan[k], stamps(k));
      ProcessMoves(db, w, run, stamps, keys);
      PutBackWhen(after, w, h, k, db.rows[k].owner, db.rows[k].vis);
    }
  }

  lemma PutBackWhen(db: Db, w: World, h: History, k: Key, owner: nat, vis: Visibility)
    requires LogKey(h.excludeRun, k) in db.log && k in db.rows && InSet(db.rows, k)
    requires var e := db.log[LogKey(h.excludeRun, k)];
      && e.prevOwner == Some(owner) && e.prevVis == vis
      && SnapshotChange(k.table, e.state, SnapshotOf(db.rows, k, 0, None)).None?
    requires db.rows[k].owner != owner || db.rows[k].vis != vis
    requires var d := Decide(db.rows, w, db.log, h, k);
      d.Target? && OwnerLeft(d, Some(owner)) == Some(db.rows[k].owner)
      && VisibilityLeft(k.table, d, vis) == db.rows[k].vis
    requires Active(w, db.rows[k].ws, owner)
    ensures VerdictOf(db, w, h, None, k) == PutBack(owner, vis)
  {
  }

  // Restore inverts backfill: with nothing changed in between and every logged previous
  // owner still active, restoring the run refuses no row and puts every row it processed
  // back to its owner and visibility, whatever history restore reads.
  lemma RestoreUndoesRun(db: Db, w: World, run: nat, stamps: Key -> Stamp, keys: set<Key>, h: History, logged: set<Key>)
    requires Selected(db.rows, keys) && FreshRun(db.log, run) && h.excludeRun == run
    requires forall k :: k in logged <==> LogKey(run, k) in ProcessRows(db, w, run, stamps, keys).log
    requires forall k :: k in logged && k in db.rows ==> Active(w, db.rows[k].ws, db.rows[k].owner)
    ensures var after := ProcessRows(db, w, run, stamps, keys);
      && Logged(after.log, run, logged)
      && (forall k :: k in logged ==> !VerdictOf(after, w, h, None, k).Refused?)
      && var restored := RestoreRows(after, w, h, None, logged).rows;
         && restored.Keys == db.rows.Keys
         && (forall k :: k in db.rows && EntityOf(k, db.rows[k]).None? ==>
               restored[k].owner == db.rows[k].owner && restored[k].vis == db.rows[k].vis
               && restored[k].updatedAt == db.rows[k].updatedAt)
  {
    ghost var after := ProcessRows(db, w, run, stamps, keys);
    forall k | k in logged ensures k in keys { NothingElseLogged(db, w, run, stamps, keys, LogKey(run, k)); }
    forall k | k in logged ensures !VerdictOf(after, w, h, None, k).Refused? {
      VerdictAfterRun(db, w, run, stamps, keys, h, k);
    }
    forall k | k in db.rows && EntityOf(k, db.rows[k]).None?
      ensures var r := RestoreRows(after, w, h, None, logged).rows[k];
        r.owner == db.rows[k].owner && r.vis == db.rows[k].vis && r.updatedAt == db.rows[k].updatedAt
    {
      RestoredRow(db, w, run, stamps, keys, h, logged, k);
    }
  }

  lemma RestoredRow(db: Db, w: World, run: nat, stamps: Key -> Stamp, keys: set<Key>, h: History, logged: set<Key>, k: Key)
    requires Selected(db.rows, keys) && FreshRun(db.log, run) && h.excludeRun == run
    requires forall k :: k in logged <==> LogKey(run, k) in ProcessRows(db, w, run, stamps, keys).log
    requires forall k :: k in logged && k in db.rows ==> Active(w, db.rows[k].ws, db.rows[k].owner)
    requires k in db.rows && EntityOf(k, db.rows[k]).None?
    ensures Logged(ProcessRows(db, w, run, stamps, keys).log, run, logged)
    ensures var r := RestoreRows(ProcessRows(db, w, run, stamps, keys), w, h, None, logged).rows;
      k in r && r[k].owner == db.rows[k].owner && r[k].vis == db.rows[k].vis && r[k].updatedAt == db.rows[k].updatedAt
  {
    hide VerdictOf, Decide, InSet, SnapshotOf, SnapshotChange, Judge;
    ghost var after := ProcessRows(db, w, run, stamps, keys);
    FactsKept(db, w, run, stamps, keys, k);
    if k in keys {
      RowsSettled(db, w, run, stamps, keys, k);
      LoggedIffMoved(db, w, run, stamps, keys, k);
      if k in logged {
        VerdictAfterRun(db, w, run, stamps, keys, h, k);
        RestoredTo(after, w, h, logged, k);
      } else {
        NotRestored(after, w, h, logged, k);
      }
    } else {
      NothingElseLogged(db, w, run, stamps, keys, LogKey(run, k));
      assert after.rows[k] == db.rows[k];
      NotRestored(after, w, h, logged, k);
    }
  }

  lemma LoggedIffMoved(db: Db, w: World, run: nat, stamps: Key -> Stamp, keys: set<Key>, k: Key)
    requires Selected(db.rows, keys) && k in keys && FreshRun(db.log, run)
    ensures var after := ProcessRows(db, w, run, stamps, keys);
      LogKey(run, k) !in after.log ==> after.rows[k] == db.rows[k]
  {
    ChangesLogged(db, w, run, stamps, keys, k);
  }

  lemma RestoredTo(db: Db, w: World, h: History, logged: set<Key>, k: Key)
    requires Logged(db.log, h.excludeRun, logged) && k in logged && k in db.rows
    requires VerdictOf(db, w, h, None, k).PutBack? || VerdictOf(db, w, h, None, k).AlreadyRestored?
    requires EntityOf(k, db.rows[k]).None?
    ensures var v, r := VerdictOf(db, w, h, None, k), RestoreRows(db, w, h, None, logged).rows;
      k in r && r[k] == if v.PutBack? then MovedRow(k.table, db.rows[k], v.owner, v.vis) else db.rows[k]
  {
  }

  lemma NotRestored(db: Db, w: World, h: History, logged: set<Key>, k: Key)
    requires Logged(db.log, h.excludeRun, logged) && k !in logged && k in db.rows && EntityOf(k, db.rows[k]).None?
    ensures RestoreRows(db, w, h, None, logged).rows[k] == db.rows[k]
  {
  }

  // ------------------------------------------------------------------- restoring again

  lemma OnlyPutBackMoves(db: Db, w: World, h: History, scope: Option<nat>, keys: set<Key>, hit: set<Key>)
    requires Logged(db.log, h.excludeRun, keys)
    requires hit == set k | k in keys && VerdictOf(db, w, h, scope, k).PutBack?
    ensures Logged(db.log, h.excludeRun, hit)
    ensures RestoreRows(db, w, h, scope, keys) == RestoreRows(db, w, h, scope, hit)
  {
    hide VerdictOf;
    MapsEqual(RestoreMoves(db, w, h, scope, keys), RestoreMoves(db, w, h, scope, hit));
  }

  // A row put back reads as already restored.
  lemma PutBackStays(db: Db, w: World, h: History, scope: Option<nat>, keys: set<Key>, k: Key)
    requires Logged(db.log, h.excludeRun, keys) && k in keys && VerdictOf(db, w, h, scope, k).PutBack?
    ensures VerdictOf(RestoreRows(db, w, h, scope, keys), w, h, scope, k) == AlreadyRestored
  {
    hide Decide, SnapshotOf, Refusal;
    ghost var after := RestoreRows(db, w, h, scope, keys);
    RestoreKeepsInputs(db, w, h, scope, keys);
    SameSet(db.rows, after.rows, k);
    assert after.rows[k].owner == VerdictOf(db, w, h, scope, k).owner;
  }

  // Restoring the same log rows again writes nothing: the rows put back read as restored,
  // every other row gets the verdict it got.
  lemma RestoreAgain(db: Db, w: World, h: History, scope: Option<nat>, keys: set<Key>)
    requires Logged(db.log, h.excludeRun, keys)
    ensures var after := RestoreRows(db, w, h, scope, keys);
      && Logged(after.log, h.excludeRun, keys)
      && (forall k :: k in keys ==>
            var v := VerdictOf(db, w, h, scope, k);
            VerdictOf(after, w, h, scope, k) == if v.PutBack? then AlreadyRestored else v)
      && RestoreRows(after, w, h, scope, keys) == after
  {
    hide VerdictOf, ApplyMoves;
    ghost var after := RestoreRows(db, w, h, scope, keys);
    ghost var hit := set k | k in keys && VerdictOf(db, w, h, scope, k).PutBack?;
    OnlyPutBackMoves(db, w, h, scope, keys, hit);
    forall k | k in keys
      ensures var v := VerdictOf(db, w, h, scope, k);
        VerdictOf(after, w, h, scope, k) == if v.PutBack? then AlreadyRestored else v
    {
      if k in hit { PutBackStays(db, w, h, scope, hit, k); } else { VerdictStable(db, w, h, scope, hit, k); }
    }
    assert RestoreMoves(after, w, h, scope, keys) == map[];
    MovesNothing(after.rows, RestoreMoves(after, w, h, scope, keys));
  }

  // ------------------------------------------------------------------- compare and set

  // A later state: row `k` is there, of the same set, with the same columns for its rule to
  // read, and the log keeps the run's entry for it. Everything else may have changed: owners,
  // visibilities, content, rows, threads and messages that came or went, memberships.
  ghost predicate EditedSince(after: Db, w: World, later: Db, w': World, run: nat, k: Key) {
    && SameReads(after.rows, later.rows, w, w', k)
    && LogKey(run, k) in after.log && LogKey(run, k) in later.log
    && later.log[LogKey(run, k)] == after.log[LogKey(run, k)]
  }

  // From before the run to the later state.
  lemma ReadsSinceBefore(db: Db, w: World, run: nat, stamps: Key -> Stamp, keys: set<Key>, later: map<Key, Row>,
                         w': World, k: Key)
    requires Selected(db.rows, keys) && k in keys
    requires SameReads(ProcessRows(db, w, run, stamps, keys).rows, later, w, w', k)
    ensures SameReads(db.rows, later, w, w', k)
  {
    hide ProcessRows, InSet, SameReads;
    InputsKept(db, w, run, stamps, keys);
    InputsAreReads(db.rows, ProcessRows(db, w, run, stamps, keys).rows, w, k);
    ReadsCompose(db.rows, ProcessRows(db, w, run, stamps, keys).rows, later, w, w, w', k);
  }

  lemma PutBackMeans(db: Db, w: World, h: History, k: Key)
    requires LogKey(h.excludeRun, k) in db.log && VerdictOf(db, w, h, None, k).PutBack?
    ensures k in db.rows && InSet(db.rows, k)
    ensures var e, row, d := db.log[LogKey(h.excludeRun, k)], db.rows[k], Decide(db.rows, w, db.log, h, k);
      && d.Target? && Some(row.owner) == OwnerLeft(d, e.prevOwner)
      && row.vis == VisibilityLeft(k.table, d, e.prevVis)
      && SnapshotChange(k.table, e.state, SnapshotOf(db.rows, k, 0, None)).None?
      && VerdictOf(db, w, h, None, k) == PutBack(e.prevOwner.value, e.prevVis)
      && Active(w, row.ws, e.prevOwner.value)
  {
  }

  // Outside the derived tables, restore writes a row only while its owner and visibility
  // (and an email attention item's member fields) are exactly what the run left.
  lemma RestoreIsCompareAndSet(db: Db, w: World, run: nat, stamps: Key -> Stamp, keys: set<Key>,
                               later: Db, w': World, h: History, k: Key)
    requires Selected(db.rows, keys) && k in keys && FreshRun(db.log, run) && h.excludeRun == run
    requires EditedSince(ProcessRows(db, w, run, stamps, keys), w, later, w', run, k)
    requires !Derived(k.table) && VerdictOf(later, w', h, None, k).PutBack?
    ensures var left := ProcessRows(db, w, run, stamps, keys).rows[k];
      && later.rows[k].owner == left.owner && later.rows[k].vis == left.vis
      && (k.table == AttentionItems ==> later.rows[k].member == left.member)
      && VerdictOf(later, w', h, None, k) == PutBack(db.rows[k].owner, db.rows[k].vis)
  {
    hide InSet, VerdictOf, Decide, SnapshotOf, SnapshotChange, ProcessRows;
    ReadsSinceBefore(db, w, run, stamps, keys, later.rows, w', k);
    ReconstructionExact(db.rows, later.rows, w, w', db.log, later.log, History(run, None), h, k);
    PutBackMeans(later, w', h, k);
    EntryLogged(db, w, run, stamps, keys, k);
    RowsSettled(db, w, run, stamps, keys, k);
    DecisionVisibility(db, w, run, k);
    AliasLogged(db, w, run, stamps, keys, k);
    MemberUnchanged(db.rows, later.rows, k, Judge(db, w, run, k), stamps(k));
  }

  lemma MemberUnchanged(a: map<Key, Row>, b: map<Key, Row>, k: Key, o: Outcome, stamp: Stamp)
    requires k in a && k in b
    requires SnapshotChange(k.table, EntryOf(a, k, o, stamp).state, SnapshotOf(b, k, 0, None)).None?
    ensures k.table == AttentionItems ==> b[k].member == a[k].member
  {
  }

  // The log row of a change: the row before it.
  lemma EntryLogged(db: Db, w: World, run: nat, stamps: Key -> Stamp, keys: set<Key>, k: Key)
    requires Selected(db.rows, keys) && k in keys && FreshRun(db.log, run)
    requires LogKey(run, k) in ProcessRows(db, w, run, stamps, keys).log
    ensures ProcessRows(db, w, run, stamps, keys).log[LogKey(run, k)]
      == EntryOf(db.rows, k, Judge(db, w, run, k), stamps(k))
    ensures Judge(db, w, run, k).logged
  {
    EntriesAt(db.rows, PlanOf(db, w, run, keys), run, stamps, LogKey(run, k));
  }

  // A logged row was decided by its table's rule alone.
  lemma AliasLogged(db: Db, w: World, run: nat, stamps: Key -> Stamp, keys: set<Key>, k: Key)
    requires Selected(db.rows, keys) && k in keys && FreshRun(db.log, run)
    requires LogKey(run, k) in ProcessRows(db, w, run, stamps, keys).log
    ensures Effective(db, w, run, k) == Decide(db.rows, w, db.log, History(run, None), k)
  {
    EntryLogged(db, w, run, stamps, keys, k);
    OutcomeRow(k, db.rows[k], Effective(db, w, run, k), GrantCount(db, k));
  }

  // For a derived row, exactly when restore writes it.
  lemma DerivedPutBackIff(db: Db, w: World, h: History, k: Key, previous: nat)
    requires LogKey(h.excludeRun, k) in db.log && k in db.rows && InSet(db.rows, k) && Derived(k.table)
    requires db.log[LogKey(h.excludeRun, k)].prevOwner == Some(previous)
    ensures SourceDecision(db.rows, w, k).Some? && SourceDecision(db.rows, w, k).value.Target?
    ensures var e, row := db.log[LogKey(h.excludeRun, k)], db.rows[k];
      var source := SourceDecision(db.rows, w, k).value;
      var confirm := ConfirmOwners(source.owner, row.facts.confirmer, Processed(Private, EarlierOf(db.log, h, k)));
      var held := if source.reason.Some? then row.owner == previous
                  else row.owner == source.owner || (row.owner == previous && previous !in confirm);
      VerdictOf(db, w, h, None, k).PutBack?
      <==> (&& (row.owner != previous || row.vis != e.prevVis)
            && row.vis == Private && held
            && SnapshotChange(k.table, e.state, SnapshotOf(db.rows, k, 0, None)).None?
            && Active(w, row.ws, previous))
  {
    SourceVerified(db.rows, w, k);
    DerivedDecides(db.rows, w, db.log, h, k);
  }

  // A derived row is written only while version, `updated_at` and its items' member fields
  // are what the run left, and its visibility; its owner is what the run left, too, but for
  // two cases: a row the run reported `derived_owner_changed`, since given the owner the rule
  // would assign; and a row an earlier run had processed, since given back to its confirmer.
  lemma DerivedIsCompareAndSet(db: Db, w: World, run: nat, stamps: Key -> Stamp, keys: set<Key>,
                               later: Db, w': World, h: History, k: Key)
    requires Selected(db.rows, keys) && k in keys && FreshRun(db.log, run) && h.excludeRun == run
    requires EditedSince(ProcessRows(db, w, run, stamps, keys), w, later, w', run, k)
    requires Derived(k.table) && VerdictOf(later, w', h, None, k).PutBack?
    ensures var before, left, now := db.rows[k], ProcessRows(db, w, run, stamps, keys).rows[k], later.rows[k];
      && now.vis == left.vis == Private && now.version == left.version && now.updatedAt == left.updatedAt
      && VerdictOf(later, w', h, None, k) == PutBack(before.owner, before.vis)
      && (now.owner == left.owner
          || (Judge(db, w, run, k).reason == Some(DerivedOwnerChanged) && left.owner == before.owner)
          || (before.facts.DerivedFacts? && now.owner == before.owner == before.facts.confirmer
              && exists e :: e in EarlierOf(later.log, h, k) && e.derivedRule))
    ensures forall i :: i in ItemsOf(later.rows, k) ==>
      ItemsOf(later.rows, k)[i] == (if i in ItemsOf(db.rows, k) then ItemsOf(db.rows, k)[i] else NO_MEMBER_FIELDS)
  {
    hide Decide, InSet, VerdictOf, SnapshotOf, SnapshotChange, ItemsOf, EarlierOf, ProcessRows;
    ReadsSinceBefore(db, w, run, stamps, keys, later.rows, w', k);
    PutBackMeans(later, w', h, k);
    EntryLogged(db, w, run, stamps, keys, k);
    RowsSettled(db, w, run, stamps, keys, k);
    DecisionVisibility(db, w, run, k);
    DerivedHolds(db, w, run, later, w', h, k);
    ProcessedRow(db, w, run, stamps, keys, k);
    SnapshotUnchanged(db.rows, later.rows, k, Judge(db, w, run, k), stamps(k));
  }

  lemma DerivedHolds(db: Db, w: World, run: nat, later: Db, w': World, h: History, k: Key)
    requires k in db.rows && InSet(db.rows, k) && Derived(k.table)
    requires SameReads(db.rows, later.rows, w, w', k)
    requires LogKey(h.excludeRun, k) in later.log && VerdictOf(later, w', h, None, k).PutBack?
    requires later.log[LogKey(h.excludeRun, k)].prevOwner == Some(db.rows[k].owner)
    ensures var before, now, d := db.rows[k], later.rows[k], Effective(db, w, run, k);
      && d.Target? && now.vis == Private
      && (now.owner == d.owner
          || (d.reason == Some(DerivedOwnerChanged) && d.owner == before.owner)
          || (before.facts.DerivedFacts? && now.owner == before.owner == before.facts.confirmer
              && exists e :: e in EarlierOf(later.log, h, k) && e.derivedRule))
  {
    hide VerdictOf, SourceDecision, EarlierOf, Decide;
    PutBackMeans(later, w', h, k);
    SourceVerified(db.rows, w, k);
    EffectiveOfDerived(db, w, run, k);
    DerivedDecides(later.rows, w', later.log, h, k);
    PrivateDecision(w', later.rows[k], SourceDecision(db.rows, w, k), EarlierOf(later.log, h, k));
    OwnersHeld(w, w', db.rows[k], later.rows[k], SourceDecision(db.rows, w, k),
               EarlierOf(db.log, History(run, None), k), EarlierOf(later.log, h, k));
  }

  lemma PrivateDecision(w: World, row: Row, source: Option<Decision>, earlier: set<Earlier>)
    requires row.facts.DerivedFacts? && source.Some? && source.value.Target?
    ensures var d := FullDecision(w, row, source, earlier);
      d.Target? && d.vis == Private
  {
  }

  lemma SnapshotUnchanged(a: map<Key, Row>, b: map<Key, Row>, k: Key, o: Outcome, stamp: Stamp)
    requires k in a && k in b && Derived(k.table)
    requires SnapshotChange(k.table, EntryOf(a, k, o, stamp).state, SnapshotOf(b, k, 0, None)).None?
    ensures b[k].version == a[k].version + (if a[k].owner != o.owner || a[k].vis != o.vis then 1 else 0)
    ensures b[k].updatedAt == a[k].updatedAt
    ensures forall i :: i in ItemsOf(b, k) ==>
      ItemsOf(b, k)[i] == (if i in ItemsOf(a, k) then ItemsOf(a, k)[i] else NO_MEMBER_FIELDS)
  {
    forall i | i in ItemsOf(b, k) ensures !ItemChanged(ItemsOf(a, k), ItemsOf(b, k), i) {}
  }

  lemma OwnersHeld(w: World, w': World, a: Row, b: Row, source: Option<Decision>, earlier: set<Earlier>, later: set<Earlier>)
    requires a.facts.DerivedFacts? && a.facts == b.facts && b.vis == Private
    requires source.Some? && source.value.Target?
    requires source.value.reason.Some? ==> source.value.reason.value == OwnerNotMailboxOwner
    requires var d' := FullDecision(w', b, source, later);
      d'.Target? && OwnerLeft(d', Some(a.owner)) == Some(b.owner)
    ensures var d := FullDecision(w, a, source, earlier);
      && d.Target?
      && (b.owner == d.owner
          || (d.reason == Some(DerivedOwnerChanged) && d.owner == a.owner)
          || (b.owner == a.owner == a.facts.confirmer && exists e :: e in later && e.derivedRule))
  {
  }

  // The row, and the member fields of the items copying it, are as the run left them; an item
  // created since has none.
  ghost predicate Unedited(left: map<Key, Row>, later: map<Key, Row>, k: Key)
    requires k in left && k in later
  {
    && later[k].owner == left[k].owner && later[k].vis == left[k].vis && later[k].version == left[k].version
    && later[k].updatedAt == left[k].updatedAt && later[k].member == left[k].member
    && forall i :: i in ItemsOf(later, k) ==> !ItemChanged(ItemsOf(left, k), ItemsOf(later, k), i)
  }

  lemma UneditedMatches(left: map<Key, Row>, later: map<Key, Row>, k: Key, logged: Option<Snapshot>)
    requires k in left && k in later && Unedited(left, later, k)
    requires SnapshotChange(k.table, logged, SnapshotOf(left, k, 0, None)).None?
    requires logged.Some? && k.table == AttentionItems ==> logged.value.ItemSnapshot?
    requires logged.Some? && Derived(k.table) ==> logged.value.DerivedSnapshot? && logged.value.items == ItemsOf(left, k)
    ensures SnapshotChange(k.table, logged, SnapshotOf(later, k, 0, None)).None?
  {
  }

  // A logged change's snapshot: the items are those the run left, too.
  lemma LoggedSnapshot(db: Db, w: World, run: nat, stamps: Key -> Stamp, keys: set<Key>, k: Key)
    requires Selected(db.rows, keys) && k in keys && FreshRun(db.log, run)
    requires LogKey(run, k) in ProcessRows(db, w, run, stamps, keys).log
    ensures var after := ProcessRows(db, w, run, stamps, keys);
      var state := after.log[LogKey(run, k)].state;
      && k in after.rows
      && (k.table == AttentionItems ==> state.Some? && state.value.ItemSnapshot?)
      && (Derived(k.table) ==> state.Some? && state.value.DerivedSnapshot? && state.value.items == ItemsOf(after.rows, k))
      && SnapshotChange(k.table, state, SnapshotOf(after.rows, k, 0, None)).None?
  {
    hide InSet, Judge;
    EntryLogged(db, w, run, stamps, keys, k);
    MovesAdmissible(db, w, run, keys);
    ProcessMoves(db, w, run, stamps, keys);
    SnapshotMatches(db.rows, MovesOf(db.rows, PlanOf(db, w, run, keys)), k, Judge(db, w, run, k), stamps(k));
    ItemsStable(db.rows, MovesOf(db.rows, PlanOf(db, w, run, keys)), k);
  }

  // The other half of the compare-and-set, for every table: whatever else changed since, a
  // row the run moved and nobody edited is put back if its previous owner is still active,
  // whatever history restore reads.
  lemma UneditedIsPutBack(db: Db, w: World, run: nat, stamps: Key -> Stamp, keys: set<Key>,
                          later: Db, w': World, h: History, k: Key)
    requires Selected(db.rows, keys) && k in keys && FreshRun(db.log, run) && h.excludeRun == run
    requires EditedSince(ProcessRows(db, w, run, stamps, keys), w, later, w', run, k)
    requires var left := ProcessRows(db, w, run, stamps, keys).rows;
      && (left[k].owner != db.rows[k].owner || left[k].vis != db.rows[k].vis)
      && Unedited(left, later.rows, k)
    requires Active(w', db.rows[k].ws, db.rows[k].owner)
    ensures VerdictOf(later, w', h, None, k) == PutBack(db.rows[k].owner, db.rows[k].vis)
  {
    hide Decide, InSet, ProcessRows, SnapshotOf, SnapshotChange, ItemsOf;
    ghost var after := ProcessRows(db, w, run, stamps, keys);
    ReadsSinceBefore(db, w, run, stamps, keys, later.rows, w', k);
    EntryLogged(db, w, run, stamps, keys, k);
    LoggedSnapshot(db, w, run, stamps, keys, k);
    UneditedMatches(after.rows, later.rows, k, after.log[LogKey(run, k)].state);
    MovedDecision(db, w, run, stamps, keys, later, w', h, k);
    PutBackWhen(later, w', h, k, db.rows[k].owner, db.rows[k].vis);
  }

  // Outside the derived tables, exactly when restore writes a row.
  lemma RestoreWritesIff(db: Db, w: World, run: nat, stamps: Key -> Stamp, keys: set<Key>,
                         later: Db, w': World, h: History, k: Key)
    requires Selected(db.rows, keys) && k in keys && FreshRun(db.log, run) && h.excludeRun == run
    requires EditedSince(ProcessRows(db, w, run, stamps, keys), w, later, w', run, k) && !Derived(k.table)
    ensures var before, left, now := db.rows[k], ProcessRows(db, w, run, stamps, keys).rows[k], later.rows[k];
      VerdictOf(later, w', h, None, k).PutBack?
      <==> (&& (left.owner != before.owner || left.vis != before.vis)
            && now.owner == left.owner && now.vis == left.vis
            && (k.table == AttentionItems ==> now.member == left.member)
            && Active(w', before.ws, before.owner))
  {
    hide Decide, InSet, ProcessRows, SnapshotOf, SnapshotChange, VerdictOf;
    ghost var after := ProcessRows(db, w, run, stamps, keys);
    ReadsSinceBefore(db, w, run, stamps, keys, later.rows, w', k);
    EntryLogged(db, w, run, stamps, keys, k);
    RowsSettled(db, w, run, stamps, keys, k);
    if VerdictOf(later, w', h, None, k).PutBack? {
      RestoreIsCompareAndSet(db, w, run, stamps, keys, later, w', h, k);
      PutBackMeans(later, w', h, k);
      PutBackDiffers(later, w', h, k);
    } else if (after.rows[k].owner != db.rows[k].owner || after.rows[k].vis != db.rows[k].vis)
      && later.rows[k].owner == after.rows[k].owner && later.rows[k].vis == after.rows[k].vis
      && (k.table == AttentionItems ==> later.rows[k].member == after.rows[k].member)
      && Active(w', db.rows[k].ws, db.rows[k].owner) {
      LoggedSnapshot(db, w, run, stamps, keys, k);
      MemberMatches(after.rows, later.rows, k, after.log[LogKey(run, k)].state);
      MovedDecision(db, w, run, stamps, keys, later, w', h, k);
      PutBackWhen(later, w', h, k, db.rows[k].owner, db.rows[k].vis);
    }
  }

  lemma MemberMatches(left: map<Key, Row>, later: map<Key, Row>, k: Key, logged: Option<Snapshot>)
    requires k in left && k in later && !Derived(k.table)
    requires SnapshotChange(k.table, logged, SnapshotOf(left, k, 0, None)).None?
    requires k.table == AttentionItems ==> later[k].member == left[k].member
    ensures SnapshotChange(k.table, logged, SnapshotOf(later, k, 0, None)).None?
  {
  }

  // What restore puts back always differs from what the row holds.
  lemma PutBackDiffers(db: Db, w: World, h: History, k: Key)
    requires LogKey(h.excludeRun, k) in db.log && VerdictOf(db, w, h, None, k).PutBack?
    ensures k in db.rows
    ensures db.rows[k].owner != VerdictOf(db, w, h, None, k).owner || db.rows[k].vis != VerdictOf(db, w, h, None, k).vis
  {
  }

  // ---------------------------------------------------------------- every verdict, and why

  // A logged row that is gone, or whose columns no longer make it personal.
  lemma AbsentVerdict(db: Db, w: World, h: History, k: Key)
    requires LogKey(h.excludeRun, k) in db.log
    ensures VerdictOf(db, w, h, None, k) == Refused(Deleted) <==> k !in db.rows
    ensures VerdictOf(db, w, h, None, k) == Refused(NoLongerPersonal) <==> k in db.rows && !OnColumns(db.rows, k)
    ensures VerdictOf(db, w, h, None, k) != OutOfScope
  {
    if k in db.rows {
      SetOnColumns(db.rows, k);
      hide InSet, OnColumns, Decide, SnapshotOf;
      OtherReasons(k.table, db.log[LogKey(h.excludeRun, k)].state, SnapshotOf(db.rows, k, 0, None));
    }
  }

  lemma OtherReasons(t: Table, logged: Option<Snapshot>, now: Option<Snapshot>)
    ensures SnapshotChange(t, logged, now) in {None, Some(NoSnapshot), Some(ChangedContent), Some(ChangedAttention)}
  {
  }

  // A log row without a snapshot, as before there was the column: on a table that has one the
  // row is never written, and refused for just that when it holds what the rule gives.
  lemma NoSnapshotVerdict(db: Db, w: World, h: History, k: Key)
    requires LogKey(h.excludeRun, k) in db.log && k in db.rows && InSet(db.rows, k)
    requires db.log[LogKey(h.excludeRun, k)].state.None? && (Derived(k.table) || k.table == AttentionItems)
    ensures var e, row, d, v := db.log[LogKey(h.excludeRun, k)], db.rows[k], Decide(db.rows, w, db.log, h, k),
        VerdictOf(db, w, h, None, k);
      && !v.PutBack?
      && (v == Refused(NoSnapshot)
          <==> !(Some(row.owner) == e.prevOwner && row.vis == e.prevVis) && d.Target?
               && Some(row.owner) == OwnerLeft(d, e.prevOwner) && row.vis == VisibilityLeft(k.table, d, e.prevVis))
  {
    hide InSet, Decide, SnapshotOf;
    NoSnapshotChange(k.table, SnapshotOf(db.rows, k, 0, None));
  }

  lemma NoSnapshotChange(t: Table, now: Option<Snapshot>)
    requires Derived(t) || t == AttentionItems
    ensures SnapshotChange(t, None, now) == Some(NoSnapshot)
  {
  }

  // Outside the derived tables, the verdict on a row of the run in any later state, by what
  // the run found, what it left and what the row holds.
  lemma VerdictReasons(db: Db, w: World, run: nat, stamps: Key -> Stamp, keys: set<Key>,
                       later: Db, w': World, h: History, k: Key)
    requires Selected(db.rows, keys) && k in keys && FreshRun(db.log, run) && h.excludeRun == run
    requires EditedSince(ProcessRows(db, w, run, stamps, keys), w, later, w', run, k) && !Derived(k.table)
    ensures var before, left, now := db.rows[k], ProcessRows(db, w, run, stamps, keys).rows[k], later.rows[k];
      VerdictOf(later, w', h, None, k)
      == if now.owner == before.owner && now.vis == before.vis then AlreadyRestored
         else if Effective(db, w, run, k).Unresolved? then Refused(ChangedRule)
         else if now.owner != left.owner then Refused(ChangedOwner)
         else if now.vis != left.vis then Refused(ChangedVisibility)
         else if k.table == AttentionItems && now.member != left.member then Refused(ChangedAttention)
         else if !Active(w', before.ws, before.owner) then Refused(PreviousOwnerInactive)
         else PutBack(before.owner, before.vis)
  {
    hide Decide, InSet, ProcessRows, SnapshotOf, SnapshotChange;
    ghost var after := ProcessRows(db, w, run, stamps, keys);
    ReadsSinceBefore(db, w, run, stamps, keys, later.rows, w', k);
    SetKept(db.rows, later.rows, w, w', k);
    EntryLogged(db, w, run, stamps, keys, k);
    RowsSettled(db, w, run, stamps, keys, k);
    DecisionVisibility(db, w, run, k);
    AliasLogged(db, w, run, stamps, keys, k);
    ReconstructionExact(db.rows, later.rows, w, w', db.log, later.log, History(run, None), h, k);
    MemberDecides(db.rows, later.rows, k, Judge(db, w, run, k), stamps(k));
  }

  lemma SetKept(a: map<Key, Row>, b: map<Key, Row>, w: World, w': World, k: Key)
    requires SameReads(a, b, w, w', k)
    ensures InSet(b, k) && b[k].ws == a[k].ws && b[k].facts == a[k].facts
  {
  }

  lemma MemberDecides(a: map<Key, Row>, b: map<Key, Row>, k: Key, o: Outcome, stamp: Stamp)
    requires k in a && k in b && !Derived(k.table)
    ensures SnapshotChange(k.table, EntryOf(a, k, o, stamp).state, SnapshotOf(b, k, 0, None))
      == if k.table == AttentionItems && b[k].member != a[k].member then Some(ChangedAttention) else None
  {
  }

  // The items copying the row hold what members had written, and new ones nothing.
  ghost predicate ItemsUnchanged(before: map<Key, Row>, now: map<Key, Row>, k: Key) {
    forall i: nat :: i in ItemsOf(now, k) ==>
      ItemsOf(now, k)[i] == if i in ItemsOf(before, k) then ItemsOf(before, k)[i] else MemberFields(None, None, None)
  }

  // The same for a task, commitment or risk. `held`: the row's owner is one restore takes the
  // run to have left.
  lemma DerivedVerdictReasons(db: Db, w: World, run: nat, stamps: Key -> Stamp, keys: set<Key>,
                              later: Db, w': World, h: History, k: Key)
    requires Selected(db.rows, keys) && k in keys && FreshRun(db.log, run) && h.excludeRun == run
    requires EditedSince(ProcessRows(db, w, run, stamps, keys), w, later, w', run, k) && Derived(k.table)
    ensures SourceDecision(later.rows, w', k).Some? && SourceDecision(later.rows, w', k).value.Target?
    ensures var before, left, now := db.rows[k], ProcessRows(db, w, run, stamps, keys).rows[k], later.rows[k];
      var source := SourceDecision(later.rows, w', k).value;
      var processed := now.vis == Private && exists e :: e in EarlierOf(later.log, h, k) && e.derivedRule;
      var confirmed := now.owner == source.owner || (now.owner == now.facts.confirmer && !processed);
      var held := if source.reason.None? && confirmed then now.owner == source.owner else now.owner == before.owner;
      VerdictOf(later, w', h, None, k)
      == if now.owner == before.owner && now.vis == before.vis then AlreadyRestored
         else if !held then Refused(ChangedOwner)
         else if now.vis != Private then Refused(ChangedVisibility)
         else if now.version != left.version || now.updatedAt != left.updatedAt then Refused(ChangedContent)
         else if !ItemsUnchanged(db.rows, later.rows, k) then Refused(ChangedAttention)
         else if !Active(w', before.ws, before.owner) then Refused(PreviousOwnerInactive)
         else PutBack(before.owner, before.vis)
  {
    hide Decide, InSet, ProcessRows, SnapshotOf, SnapshotChange, SourceDecision, EarlierOf, ItemsOf;
    ReadsSinceBefore(db, w, run, stamps, keys, later.rows, w', k);
    SetKept(db.rows, later.rows, w, w', k);
    SourceVerified(later.rows, w', k);
    DerivedHasConfirmer(later.rows, k);
    EntryLogged(db, w, run, stamps, keys, k);
    ProcessedRow(db, w, run, stamps, keys, k);
    DerivedDecides(later.rows, w', later.log, h, k);
    DerivedLeft(w', later.rows[k], SourceDecision(later.rows, w', k), EarlierOf(later.log, h, k), db.rows[k].owner);
    ContentDecides(db.rows, later.rows, k, Judge(db, w, run, k), stamps(k));
  }

  lemma DerivedLeft(w: World, row: Row, source: Option<Decision>, earlier: set<Earlier>, previous: nat)
    requires row.facts.DerivedFacts? && source.Some? && source.value.Target?
    ensures var d := FullDecision(w, row, source, earlier);
      var confirm := ConfirmOwners(source.value.owner, row.facts.confirmer, Processed(row.vis, earlier));
      && d.Target? && d.vis == Private
      && OwnerLeft(d, Some(previous))
         == Some(if source.value.reason.None? && row.owner in confirm then source.value.owner else previous)
  {
  }

  lemma ContentDecides(a: map<Key, Row>, b: map<Key, Row>, k: Key, o: Outcome, stamp: Stamp)
    requires k in a && k in b && Derived(k.table)
    ensures SnapshotChange(k.table, EntryOf(a, k, o, stamp).state, SnapshotOf(b, k, 0, None))
      == if b[k].version != MovedRow(k.table, a[k], o.owner, o.vis).version || b[k].updatedAt != a[k].updatedAt
           then Some(ChangedContent)
         else if exists i :: i in ItemsOf(b, k) && ItemChanged(ItemsOf(a, k), ItemsOf(b, k), i) then Some(ChangedAttention)
         else None
  {
    hide ItemsOf;
  }

  // The first exception is real: a row reported `derived_owner_changed` and then given the
  // source's owner, without touching `version`, is put back to what the run found.
  lemma OwnerFixIsUndone(db: Db, w: World, h: History, k: Key, previous: nat, vis: Visibility)
    requires LogKey(h.excludeRun, k) in db.log && k in db.rows && InSet(db.rows, k) && Derived(k.table)
    requires var e := db.log[LogKey(h.excludeRun, k)];
      && e.prevOwner == Some(previous) && e.prevVis == vis && vis != Private
      && SnapshotChange(k.table, e.state, SnapshotOf(db.rows, k, 0, None)).None?
    requires db.rows[k].vis == Private && Active(w, db.rows[k].ws, previous)
    requires var source := SourceDecision(db.rows, w, k);
      source.Some? && source.value.Target? && source.value.reason.None?
      && db.rows[k].owner == source.value.owner != previous
    ensures VerdictOf(db, w, h, None, k) == PutBack(previous, vis)
  {
    DerivedPutBackIff(db, w, h, k, previous);
    PutBackMeans(db, w, h, k);
  }
}
