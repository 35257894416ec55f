// What a run decides about each row, read off the tables' columns.
module Outcomes {
  import opened Ordering
  import opened Records
  import opened Rules
  import opened Moves
  import opened Process
  import opened Settled
  import opened Personal
  import opened Agreement
  import opened BackfillRun
  import opened BackfillTheorems

  // ------------------------------------------------------------------ earlier history

  // An earlier run's log row that does not say it kept the derived row out of its rule.
  ghost predicate ByRule(e: LogEntry) {
    !(e.state.Some? && e.state.value.DerivedSnapshot? && e.state.value.derivedRule == Some(false))
  }

  // Another run logged the row, before the given time if there is one.
  ghost predicate LoggedBefore(log: map<LogKey, LogEntry>, h: History, k: Key, run: nat) {
    && run != h.excludeRun && LogKey(run, k) in log
    && (h.before.Some? ==> log[LogKey(run, k)].at < h.before.value)
  }

  // An earlier run made the row private by its rule.
  ghost predicate WasProcessed(row: Row, log: map<LogKey, LogEntry>, h: History, k: Key) {
    row.vis == Private && exists run :: LoggedBefore(log, h, k, run) && ByRule(log[LogKey(run, k)])
  }

  // An earlier run logged the row with another owner, or with none.
  ghost predicate CameFromOther(log: map<LogKey, LogEntry>, h: History, k: Key, owner: nat) {
    exists run :: LoggedBefore(log, h, k, run) && log[LogKey(run, k)].prevOwner != Some(owner)
  }

  lemma EarlierMeaning(log: map<LogKey, LogEntry>, h: History, k: Key, row: Row, owner: nat)
    ensures Processed(row.vis, EarlierOf(log, h, k)) <==> WasProcessed(row, log, h, k)
    ensures (exists e :: e in EarlierOf(log, h, k) && e.prevOwner != Some(owner)) <==> CameFromOther(log, h, k, owner)
  {
    var earlier := EarlierOf(log, h, k);
    forall run | LoggedBefore(log, h, k, run)
      ensures Earlier(log[LogKey(run, k)].prevOwner, ByRule(log[LogKey(run, k)])) in earlier
    {
      assert Counts(log, h, LogKey(run, k));
    }
    forall e | e in earlier
      ensures exists run :: LoggedBefore(log, h, k, run) && e == Earlier(log[LogKey(run, k)].prevOwner, ByRule(log[LogKey(run, k)]))
    {
      var l :| l in log && l.key == k && Counts(log, h, l) && e == Earlier(log[l].prevOwner, RuleFlag(log[l].state));
      assert l == LogKey(l.run, k) && LoggedBefore(log, h, k, l.run);
    }
  }

  // ---------------------------------------------------------------- one row's outcome

  ghost predicate IsActive(w: World, ws: nat, user: nat) { Membership(ws, user) in w.active }

  // Rows whose own columns, thread, connector or run decide.
  ghost predicate ExpectedDirect(rows: map<Key, Row>, w: World, k: Key, o: Outcome)
    requires k in rows && InSet(rows, k)
  {
    var row := rows[k];
    var f := row.facts;
    match k.table
    case ConnectorAccounts | RecommendationFeedback | AttentionFeedback => o.owner == row.owner && o.reason.None?
    case SyncRuns | SyncCursors => o.owner == rows[Key(ConnectorAccounts, f.connector)].owner && o.reason.None?
    case AttentionItems =>
      var known := f.entity in w.threads && w.threads[f.entity].ws == row.ws;
      o.owner == (if known then w.threads[f.entity].owner else row.owner) && o.reason.None?
    case Recommendations =>
      && o.owner == row.owner
      && o.reason == if RecommendationIs(rows, w, row, row.owner) then None else Some(OwnerNotMailboxOwner)
    case AiRuns =>
      o.owner == row.owner && o.reason == if RunIs(w, row, row.owner) then None else Some(OwnerNotMailboxOwner)
    case AiRunSteps =>
      var parent := rows[Key(AiRuns, f.run)];
      o.owner == parent.owner && o.reason == if RunIs(w, parent, parent.owner) then None else Some(OwnerNotMailboxOwner)
    case _ => true
  }

  ghost function WhyUnowned(w: World, ws: nat, ref: Option<string>): Reason {
    if !exists message :: RefersTo(ref, message) then EvidenceSourceRefUnrecognised
    else if !exists m :: Mentions(w, ws, ref, m) then EvidenceOwnerUnknown
    else EvidenceOwnerAmbiguous
  }

  // The reference an evidence row holds itself, and an alias through its evidence row.
  ghost function ReferenceOf(rows: map<Key, Row>, k: Key): Option<string>
    requires k in rows && InSet(rows, k) && k.table in {PkosEvidence, EntityAliases}
  {
    if k.table == PkosEvidence then rows[k].facts.sourceRef
    else rows[Key(PkosEvidence, rows[k].facts.source)].facts.sourceRef
  }

  // Evidence goes to the owner all known rows of its message name; an alias, only if that
  // owner is active or has it already.
  ghost predicate ExpectedEvidence(rows: map<Key, Row>, w: World, k: Key, o: Outcome)
    requires k in rows && InSet(rows, k) && k.table in {PkosEvidence, EntityAliases}
  {
    var row, alias := rows[k], k.table == EntityAliases;
    var ref := ReferenceOf(rows, k);
    && (forall owner :: EvidenceSays(w, row.ws, ref, owner) ==>
          if alias && owner != row.owner && !IsActive(w, row.ws, owner)
          then o.owner == row.owner && o.vis == row.vis && o.reason == Some(AliasOwnerInactive)
          else o.owner == owner && o.vis == (if alias then row.vis else Private) && o.reason.None?)
    && ((forall owner :: !EvidenceSays(w, row.ws, ref, owner)) ==>
          && o.owner == row.owner && o.vis == row.vis
          && o.reason == Some(WhyUnowned(w, row.ws, ref)))
  }

  // A task, commitment or risk follows the recommendation that created it, while that one is
  // supported and the row is still with somebody the confirmation may have given it to.
  ghost predicate ExpectedDerived(db: Db, w: World, h: History, k: Key, source: Row, o: Outcome)
    requires k in db.rows && db.rows[k].facts.DerivedFacts? && source.facts.RecommendationFacts?
  {
    var row := db.rows[k];
    var confirmed := || row.owner == source.owner
                     || (row.owner == row.facts.confirmer && !WasProcessed(row, db.log, h, k));
    && o.vis == Private
    && (if !RecommendationIs(db.rows, w, source, source.owner)
        then o.owner == row.owner && o.reason == Some(OwnerNotMailboxOwner)
        else if !confirmed then o.owner == row.owner && o.reason == Some(DerivedOwnerChanged)
        else
          && o.owner == source.owner
          && o.reason == if !IsActive(w, row.ws, source.owner)
                            && (row.owner != source.owner || CameFromOther(db.log, h, k, source.owner))
                         then Some(OwnerInactive) else None)
  }

  lemma DirectOutcome(db: Db, w: World, run: nat, k: Key)
    requires k in db.rows && InSet(db.rows, k) && !Derived(k.table) && k.table !in {PkosEvidence, EntityAliases}
    ensures ExpectedDirect(db.rows, w, k, Judge(db, w, run, k))
    ensures Judge(db, w, run, k).vis == if Feedback(k.table) then db.rows[k].vis else Private
  {
    match k.table {
      case Recommendations => RecommendationRule(db.rows, w, db.rows[k]);
      case AiRuns => RunRule(w, db.rows[k]);
      case AiRunSteps => RunRule(w, db.rows[Key(AiRuns, db.rows[k].facts.run)]);
      case _ =>
    }
  }

  lemma EvidenceOutcome(db: Db, w: World, run: nat, k: Key)
    requires k in db.rows && InSet(db.rows, k) && k.table in {PkosEvidence, EntityAliases}
    ensures ExpectedEvidence(db.rows, w, k, Judge(db, w, run, k))
  {
    hide EvidenceOwner, EvidenceSays, Mentions, RefersTo;
    var row := db.rows[k];
    var ref := ReferenceOf(db.rows, k);
    var says := EvidenceOwner(w, row.ws, ref);
    forall owner ensures says == Owned(owner) <==> EvidenceSays(w, row.ws, ref, owner) {
      EvidenceOwnerMeaning(w, row.ws, ref, owner);
    }
    EvidenceOwnerMeaning(w, row.ws, ref, row.owner);
    UnownedReasons(w, row.ws, ref);
    assert says.Unowned? ==> says.why == WhyUnowned(w, row.ws, ref);
    assert says.Owned? ==> EvidenceSays(w, row.ws, ref, says.owner);
    assert Judge(db, w, run, k) == OutcomeOf(k, row, RequireActiveAliasOwner(w, k, row,
      EvidenceDecision(says, if k.table == EntityAliases then row.vis else Private)), GrantCount(db, k));
  }

  lemma UnownedReasons(w: World, ws: nat, ref: Option<string>)
    ensures var o := EvidenceOwner(w, ws, ref);
      o.Unowned? ==> o.why in {EvidenceSourceRefUnrecognised, EvidenceOwnerUnknown, EvidenceOwnerAmbiguous}
  {
  }

  lemma DerivedOutcome(db: Db, w: World, run: nat, k: Key, r: nat)
    requires k in db.rows && InSet(db.rows, k) && Derived(k.table) && FirstSource(db.rows, k, r)
    ensures ExpectedDerived(db, w, History(run, None), k, db.rows[Key(Recommendations, r)], Judge(db, w, run, k))
  {
    hide RecommendationIs, FirstSource, EarlierOf, WasProcessed, CameFromOther;
    FirstSourceIs(db.rows, k);
    var source := db.rows[Key(Recommendations, r)];
    RecommendationRule(db.rows, w, source);
    EffectiveOfDerived(db, w, run, k);
    EarlierMeaning(db.log, History(run, None), k, db.rows[k], source.owner);
    SourceClean(db.rows, w, source);
    assert SourceDecision(db.rows, w, k) == Some(RecommendationDecision(db.rows, w, source));
  }

  lemma SourceClean(rows: map<Key, Row>, w: World, source: Row)
    requires source.facts.RecommendationFacts?
    ensures var d := RecommendationDecision(rows, w, source);
      && d.Target? && d.owner == source.owner && (d.reason.Some? ==> d.reason.value == OwnerNotMailboxOwner)
  {
  }

  // ----------------------------------------------------------------------- whole runs

  ghost predicate Expected(db: Db, w: World, run: nat, k: Key, o: Outcome)
    requires k in db.rows && InSet(db.rows, k)
  {
    if k.table in {PkosEvidence, EntityAliases} then ExpectedEvidence(db.rows, w, k, o)
    else if Derived(k.table) then
      exists r :: FirstSource(db.rows, k, r)
                  && ExpectedDerived(db, w, History(run, None), k, db.rows[Key(Recommendations, r)], o)
    else ExpectedDirect(db.rows, w, k, o) && o.vis == if Feedback(k.table) then db.rows[k].vis else Private
  }

  // Every row's owner, visibility and reported reason.
  lemma JudgedOnColumns(db: Db, w: World, run: nat, k: Key)
    requires k in db.rows && InSet(db.rows, k)
    ensures Expected(db, w, run, k, Judge(db, w, run, k))
  {
    hide Judge, InSet, ExpectedDirect, ExpectedEvidence, ExpectedDerived;
    if k.table in {PkosEvidence, EntityAliases} {
      EvidenceOutcome(db, w, run, k);
    } else if Derived(k.table) {
      FirstSourceIs(db.rows, k);
      DerivedOutcome(db, w, run, k, Least(SourceIds(db.rows, db.rows[k].ws, k)));
    } else {
      DirectOutcome(db, w, run, k);
    }
  }

  // After a complete run over some workspaces, every row whose columns make it personal has
  // the owner and visibility expected of it, one version more if it changed, and no active
  // grant unless it is an alias.
  lemma CompleteRunOnColumns(db: Db, w: World, run: nat, stamps: Key -> Stamp, workspaces: seq<nat>, k: Key)
    requires FreshRun(db.log, run)
    requires k in db.rows && db.rows[k].ws in workspaces && k.id > 0 && OnColumns(db.rows, k)
    ensures InSet(db.rows, k) && AllSelected(db.rows, Walk(db.rows, workspaces))
    ensures var after, o := ProcessRows(db, w, run, stamps, SetOf(Walk(db.rows, workspaces))), Judge(db, w, run, k);
      && Expected(db, w, run, k, o)
      && k in after.rows && after.rows[k].owner == o.owner && after.rows[k].vis == o.vis
      && after.rows[k] == db.rows[k].(owner := o.owner, vis := o.vis, version := after.rows[k].version)
      && after.rows[k].version == db.rows[k].version
           + (if k.table in {ConnectorAccounts, Recommendations, EntityAliases, Tasks, Commitments, Risks}
                 && (o.owner != db.rows[k].owner || o.vis != db.rows[k].vis) then 1 else 0)
      && (k.table != EntityAliases ==> ActiveGrantIds(after, k) == {})
  {
    SetOnColumns(db.rows, k);
    assert !k.table.Other?;
    KnownTable(k.table);
    WalkSelected(db.rows, workspaces);
    WalkIs(db.rows, workspaces, k);
    ghost var keys := SetOf(Walk(db.rows, workspaces));
    assert k in keys;
    JudgedOnColumns(db, w, run, k);
    hide InSet, OnColumns, Judge, Expected, ProcessRows, Walk, TABLES, ActiveGrantIds;
    ProcessedRow(db, w, run, stamps, keys, k);
    GrantsSettled(db, w, run, stamps, keys, k);
  }
}
