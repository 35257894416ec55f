// What a complete backfill run leaves, and what a second run finds.
module Settled {
  import opened Records
  import opened Ordering
  import opened Rules
  import opened Moves
  import opened Process

  ghost predicate FreshRun(log: map<LogKey, LogEntry>, run: nat) {
    forall l :: l in log ==> l.run != run
  }

  function Effective(db: Db, w: World, run: nat, k: Key): Decision
    requires k in db.rows && InSet(db.rows, k)
  {
    RequireActiveAliasOwner(w, k, db.rows[k], Decide(db.rows, w, db.log, History(run, None), k))
  }

  lemma ProcessMoves(db: Db, w: World, run: nat, stamps: Key -> Stamp, keys: set<Key>)
    requires Selected(db.rows, keys)
    ensures ProcessRows(db, w, run, stamps, keys).rows == ApplyMoves(db.rows, MovesOf(db.rows, PlanOf(db, w, run, keys)))
  {
  }

  lemma ProcessedRow(db: Db, w: World, run: nat, stamps: Key -> Stamp, keys: set<Key>, k: Key)
    requires Selected(db.rows, keys) && k in keys
    ensures ProcessRows(db, w, run, stamps, keys).rows[k]
      == MovedRow(k.table, db.rows[k], Judge(db, w, run, k).owner, Judge(db, w, run, k).vis)
  {
  }

  // The visibility a decision sets: private, except where the table keeps its own.
  lemma DecisionVisibility(db: Db, w: World, run: nat, k: Key)
    requires k in db.rows && InSet(db.rows, k)
    ensures var d := Effective(db, w, run, k);
      d.Target? ==> d.vis == if VisibilityKept(k.table) then db.rows[k].vis else Private
  {
  }

  lemma OutcomeRow(k: Key, row: Row, d: Decision, grants: nat)
    ensures var o := OutcomeOf(k, row, d, grants);
      var after := MovedRow(k.table, row, o.owner, o.vis);
      && (d.Unresolved? ==> after == row)
      && (d.Target? ==> after.owner == d.owner && after.vis == d.vis)
      && after == row.(owner := after.owner, vis := after.vis,
                       version := row.version + (if after != row && Versioned(k.table) then 1 else 0))
      && o.grants == grants && (o.logged <==> after != row || grants > 0)
  {
  }

  // Every processed row except unresolved ones, aliases and feedback is private with its
  // rule's owner; unresolved rows keep owner and visibility.
  lemma RowsSettled(db: Db, w: World, run: nat, stamps: Key -> Stamp, keys: set<Key>, k: Key)
    requires Selected(db.rows, keys) && k in keys
    ensures var d, before, after := Effective(db, w, run, k), db.rows[k], ProcessRows(db, w, run, stamps, keys).rows[k];
      && (d.Unresolved? ==> after == before)
      && (d.Target? ==> after.owner == d.owner)
      && (d.Target? ==> after.vis == if VisibilityKept(k.table) then before.vis else Private)
      && after == before.(owner := after.owner, vis := after.vis,
                          version := before.version + (if after != before && Versioned(k.table) then 1 else 0))
      && (LogKey(run, k) in NewEntries(db.rows, PlanOf(db, w, run, keys), run, stamps)
          <==> (after != before || GrantCount(db, k) > 0))
  {
    ProcessedRow(db, w, run, stamps, keys, k);
    DecisionVisibility(db, w, run, k);
    OutcomeRow(k, db.rows[k], Effective(db, w, run, k), GrantCount(db, k));
    EntriesAt(db.rows, PlanOf(db, w, run, keys), run, stamps, LogKey(run, k));
  }

  // No processed row except an alias keeps an active grant.
  lemma GrantsSettled(db: Db, w: World, run: nat, stamps: Key -> Stamp, keys: set<Key>, k: Key)
    requires Selected(db.rows, keys) && k in keys
    ensures ActiveGrantIds(ProcessRows(db, w, run, stamps, keys), k)
      == if k.table == EntityAliases then ActiveGrantIds(db, k) else {}
  {
    InputsKept(db, w, run, stamps, keys);
    RevokedOn(db, PlanOf(db, w, run, keys), run, stamps, k);
  }

  lemma RevokedOn(db: Db, plan: Plan, run: nat, stamps: Key -> Stamp, k: Key)
    requires plan.Keys <= db.rows.Keys && k in plan && plan[k].grants == GrantCount(db, k)
    requires SameInputs(db.rows, ApplyPlan(db, plan, run, stamps).rows)
    ensures ActiveGrantIds(ApplyPlan(db, plan, run, stamps), k)
      == if k.table == EntityAliases then ActiveGrantIds(db, k) else {}
  {
    var after := ApplyPlan(db, plan, run, stamps);
    forall g | g in db.grants
      ensures g in ActiveGrantIds(after, k) <==> (g in ActiveGrantIds(db, k) && k.table == EntityAliases)
    {
      if g in ActiveGrantIds(db, k) { assert |ActiveGrantIds(db, k)| > 0; }
    }
  }

  // A row has exactly one log row of the run when the run changed it or revoked a grant on
  // it, holding what it was before; otherwise none.
  lemma ChangesLogged(db: Db, w: World, run: nat, stamps: Key -> Stamp, keys: set<Key>, k: Key)
    requires Selected(db.rows, keys) && k in keys && FreshRun(db.log, run)
    ensures var after := ProcessRows(db, w, run, stamps, keys);
      && (LogKey(run, k) in after.log
          <==> (after.rows[k] != db.rows[k] || ActiveGrantIds(after, k) != ActiveGrantIds(db, k)))
      && (LogKey(run, k) in after.log ==>
            var e := after.log[LogKey(run, k)];
            && e.prevOwner == Some(db.rows[k].owner) && e.prevVis == db.rows[k].vis
            && e.grantsRevoked == |ActiveGrantIds(db, k) - ActiveGrantIds(after, k)|)
  {
    RowsSettled(db, w, run, stamps, keys, k);
    GrantsSettled(db, w, run, stamps, keys, k);
    EntriesAt(db.rows, PlanOf(db, w, run, keys), run, stamps, LogKey(run, k));
    var g := ActiveGrantIds(db, k);
    assert g - g == {} && g - {} == g;
  }

  // The log row's id and time, and its snapshot of the columns other members may write.
  lemma LoggedEntry(db: Db, w: World, run: nat, stamps: Key -> Stamp, keys: set<Key>, k: Key)
    requires Selected(db.rows, keys) && k in keys && FreshRun(db.log, run)
    requires LogKey(run, k) in ProcessRows(db, w, run, stamps, keys).log
    ensures var after, row := ProcessRows(db, w, run, stamps, keys), db.rows[k];
      var e := after.log[LogKey(run, k)];
      && e.id == stamps(k).logId && e.at == stamps(k).at
      && (e.state.None? <==> k.table !in {Tasks, Commitments, Risks, AttentionItems})
      && (k.table == AttentionItems ==> e.state == Some(ItemSnapshot(row.member)))
      && (k.table in {Tasks, Commitments, Risks} ==>
            && e.state.value.DerivedSnapshot?
            && e.state.value.version == row.version && e.state.value.updatedAt == row.updatedAt
            && e.state.value.bump == (if after.rows[k].owner != row.owner || after.rows[k].vis != row.vis then 1 else 0)
            && e.state.value.derivedRule
               == Some(Judge(db, w, run, k).reason in {None, Some(OwnerInactive), Some(DerivedOwnerChanged)})
            && SnapsItems(db.rows, k, e.state.value.items))
  {
    EntriesAt(db.rows, PlanOf(db, w, run, keys), run, stamps, LogKey(run, k));
    ProcessedRow(db, w, run, stamps, keys, k);
    assert LogKey(run, k) !in db.log;
    if Derived(k.table) {
      DerivedJudged(db, w, run, k);
      ItemsAre(db.rows, k);
    }
    hide Judge, InSet, ItemsOf, SnapsItems;
  }

  // The member-written fields of exactly the items that copy the row.
  ghost predicate SnapsItems(rows: map<Key, Row>, k: Key, items: map<nat, MemberFields>) {
    && (forall i: nat :: i in items <==> (Key(AttentionItems, i) in rows && Mirrors(rows, Key(AttentionItems, i), k)))
    && (forall i: nat :: i in items ==> items[i] == rows[Key(AttentionItems, i)].member)
  }

  lemma DerivedJudged(db: Db, w: World, run: nat, k: Key)
    requires k in db.rows && InSet(db.rows, k) && Derived(k.table)
    ensures var o := Judge(db, w, run, k);
      o.derivedRule == (o.reason in {None, Some(OwnerInactive), Some(DerivedOwnerChanged)})
  {
    SourceVerified(db.rows, w, k);
    EffectiveOfDerived(db, w, run, k);
    DerivedFlag(db, w, run, k);
  }

  lemma ItemsAre(rows: map<Key, Row>, k: Key)
    ensures SnapsItems(rows, k, ItemsOf(rows, k))
  {
    forall i: nat | Key(AttentionItems, i) in rows && Mirrors(rows, Key(AttentionItems, i), k) ensures i in ItemsOf(rows, k) {
      assert Key(AttentionItems, i).id == i;
    }
  }

  lemma NothingElseLogged(db: Db, w: World, run: nat, stamps: Key -> Stamp, keys: set<Key>, l: LogKey)
    requires Selected(db.rows, keys)
    ensures l in ProcessRows(db, w, run, stamps, keys).log ==> l in db.log || (l.run == run && l.key in keys)
    ensures l in db.log ==> l in ProcessRows(db, w, run, stamps, keys).log
                            && ProcessRows(db, w, run, stamps, keys).log[l] == db.log[l]
  {
    EntriesAt(db.rows, PlanOf(db, w, run, keys), run, stamps, l);
  }

  // ---------------------------------------------------------------- consistency

  // A row owner no batch may change.
  lemma OwnerKept(db: Db, w: World, run: nat, stamps: Key -> Stamp, keys: set<Key>, k: Key)
    requires Selected(db.rows, keys) && k in db.rows && k.table in {ConnectorAccounts, Recommendations, AiRuns}
    ensures ProcessRows(db, w, run, stamps, keys).rows[k].owner == db.rows[k].owner
  {
    InputsKept(db, w, run, stamps, keys);
  }

  // Sync rows and run steps end private, with the owner of the row they belong to.
  lemma FollowersAgree(db: Db, w: World, run: nat, stamps: Key -> Stamp, keys: set<Key>, k: Key)
    requires Selected(db.rows, keys) && k in keys && k.table in {SyncRuns, SyncCursors, AiRunSteps}
    ensures var rows := ProcessRows(db, w, run, stamps, keys).rows;
      var parent := if k.table == AiRunSteps then Key(AiRuns, rows[k].facts.run)
                    else Key(ConnectorAccounts, rows[k].facts.connector);
      parent in rows && rows[k].vis == Private && rows[k].owner == rows[parent].owner
  {
    var f := db.rows[k].facts;
    var parent := if k.table == AiRunSteps then Key(AiRuns, f.run) else Key(ConnectorAccounts, f.connector);
    OwnerKept(db, w, run, stamps, keys, parent);
    ProcessedRow(db, w, run, stamps, keys, k);
  }

  // A derived row that is not reported ends private, with its source recommendation's owner.
  lemma DerivedAgrees(db: Db, w: World, run: nat, stamps: Key -> Stamp, keys: set<Key>, k: Key)
    requires Selected(db.rows, keys) && k in keys && Derived(k.table)
    requires Judge(db, w, run, k).reason in {None, Some(OwnerInactive)}
    ensures var rows := ProcessRows(db, w, run, stamps, keys).rows;
      var source := Key(Recommendations, Least(SourceIds(db.rows, db.rows[k].ws, k)));
      source in rows && rows[k].vis == Private && rows[k].owner == rows[source].owner
  {
    var source := Key(Recommendations, Least(SourceIds(db.rows, db.rows[k].ws, k)));
    assert source in db.rows && db.rows[source].facts.RecommendationFacts?;
    OwnerKept(db, w, run, stamps, keys, source);
    ProcessedRow(db, w, run, stamps, keys, k);
    JudgedAsSource(db, w, run, k, source);
  }

  lemma JudgedAsSource(db: Db, w: World, run: nat, k: Key, source: Key)
    requires k in db.rows && InSet(db.rows, k) && Derived(k.table)
    requires source == Key(Recommendations, Least(SourceIds(db.rows, db.rows[k].ws, k)))
    requires source in db.rows && db.rows[source].facts.RecommendationFacts?
    requires Judge(db, w, run, k).reason in {None, Some(OwnerInactive)}
    ensures Judge(db, w, run, k).owner == db.rows[source].owner && Judge(db, w, run, k).vis == Private
  {
    var d := SourceDecision(db.rows, w, k);
    assert d == Some(RecommendationDecision(db.rows, w, db.rows[source]));
  }

  // An alias is handed only to an active member; one that evidence gives to anybody else is
  // reported and left.
  lemma AliasesStayWithActive(db: Db, w: World, run: nat, stamps: Key -> Stamp, keys: set<Key>, k: Key)
    requires Selected(db.rows, keys) && k in keys && k.table == EntityAliases
    ensures var before, after := db.rows[k], ProcessRows(db, w, run, stamps, keys).rows[k];
      var says := EvidenceOwner(w, before.ws, SourceRefOf(db.rows, before.ws, before.facts.source));
      && after.vis == before.vis
      && (after.owner != before.owner <==> says.Owned? && says.owner != before.owner && Active(w, before.ws, says.owner))
      && (after.owner != before.owner ==> after.owner == says.owner)
      && (Judge(db, w, run, k).reason == Some(AliasOwnerInactive)
          <==> says.Owned? && says.owner != before.owner && !Active(w, before.ws, says.owner))
  {
    hide ProcessRows, EvidenceOwner;
    ProcessedRow(db, w, run, stamps, keys, k);
    NotEvidenceReason(w, db.rows[k].ws, SourceRefOf(db.rows, db.rows[k].ws, db.rows[k].facts.source));
  }

  lemma NotEvidenceReason(w: World, ws: nat, ref: Option<string>)
    ensures EvidenceOwner(w, ws, ref).Unowned? ==> EvidenceOwner(w, ws, ref).why != AliasOwnerInactive
  {
  }

  // -------------------------------------------------------------------- second run

  // Earlier history after a run: what it was, plus the run's own entry for the row.
  lemma HistoryAfter(db: Db, w: World, run: nat, stamps: Key -> Stamp, keys: set<Key>, k: Key, again: nat)
    requires Selected(db.rows, keys) && k in db.rows
    requires FreshRun(db.log, run) && FreshRun(db.log, again) && run != again
    ensures var after := ProcessRows(db, w, run, stamps, keys);
      EarlierOf(after.log, History(again, None), k)
      == EarlierOf(db.log, History(run, None), k)
         + (if LogKey(run, k) in after.log
            then {Earlier(after.log[LogKey(run, k)].prevOwner, RuleFlag(after.log[LogKey(run, k)].state))} else {})
  {
    var after := ProcessRows(db, w, run, stamps, keys);
    var ha, hb := History(again, None), History(run, None);
    var x, y := EarlierOf(after.log, ha, k), EarlierOf(db.log, hb, k);
    forall l | l in after.log && l.key == k ensures l in db.log || l == LogKey(run, k) {
      NothingElseLogged(db, w, run, stamps, keys, l);
    }
    forall l | l in db.log ensures l in after.log && after.log[l] == db.log[l] {
      NothingElseLogged(db, w, run, stamps, keys, l);
    }
    forall e | e in y ensures e in x {
      var l :| l in db.log && l.key == k && Counts(db.log, hb, l)
        && e == Earlier(db.log[l].prevOwner, RuleFlag(db.log[l].state));
      assert l in after.log && Counts(after.log, ha, l);
    }
    forall e | e in x && e !in y
      ensures LogKey(run, k) in after.log
        && e == Earlier(after.log[LogKey(run, k)].prevOwner, RuleFlag(after.log[LogKey(run, k)].state))
    {
      var l :| l in after.log && l.key == k && Counts(after.log, ha, l)
        && e == Earlier(after.log[l].prevOwner, RuleFlag(after.log[l].state));
      if l in db.log { assert Counts(db.log, hb, l); }
    }
    if LogKey(run, k) in after.log {
      assert Counts(after.log, ha, LogKey(run, k));
    }
  }

  // A derived row decided again, after the run that decided it has become history.
  lemma DerivedAgain(w: World, row: Row, source: Option<Decision>, earlier: set<Earlier>, own: Earlier)
    requires row.facts.DerivedFacts? && source.Some?
    requires own.prevOwner == Some(row.owner)
    requires var d := MarkInactive(w, row, DerivedDecision(row, source, earlier), earlier);
      d.Target? && own.derivedRule == (d.reason in {None, Some(OwnerInactive), Some(DerivedOwnerChanged)})
    requires source.value.Target? && (source.value.reason.Some? ==> source.value.reason.value == OwnerNotMailboxOwner)
    ensures var d := MarkInactive(w, row, DerivedDecision(row, source, earlier), earlier);
      var row' := row.(owner := d.owner, vis := d.vis);
      var d' := MarkInactive(w, row', DerivedDecision(row', source, earlier + {own}), earlier + {own});
      d'.Target? && d'.owner == d.owner && d'.vis == d.vis && d'.reason == d.reason
  {
    var d := MarkInactive(w, row, DerivedDecision(row, source, earlier), earlier);
    var more := earlier + {own};
    assert own in more;
    assert forall e :: e in earlier ==> e in more;
    if d.reason == Some(OwnerInactive) {
      assert own.prevOwner != Some(d.owner) || exists e :: e in earlier && e.prevOwner != Some(d.owner);
    }
  }

  // Every other row decided again, its new owner and visibility in place.
  lemma OtherAgain(a: map<Key, Row>, b: map<Key, Row>, w: World, la: map<LogKey, LogEntry>,
                   lb: map<LogKey, LogEntry>, ha: History, hb: History, k: Key)
    requires SameInputs(a, b) && k in a && InSet(a, k) && !Derived(k.table)
    requires var d := RequireActiveAliasOwner(w, k, a[k], Decide(a, w, la, ha, k));
      if d.Target? then b[k].owner == d.owner && b[k].vis == d.vis
      else b[k].owner == a[k].owner && b[k].vis == a[k].vis
    ensures InSet(b, k)
    ensures var d := RequireActiveAliasOwner(w, k, a[k], Decide(a, w, la, ha, k));
      var d' := RequireActiveAliasOwner(w, k, b[k], Decide(b, w, lb, hb, k));
      if d.Target? then d'.Target? && d'.owner == d.owner && d'.vis == d.vis && d'.reason == d.reason else d' == d
  {
    SameSet(a, b, k);
    if k.table == Recommendations {
      SameContradicted(a, b, w, a[k].ws, a[k].facts.evidence, a[k].facts.createdBy);
    }
  }

  lemma SourceVerified(rows: map<Key, Row>, w: World, k: Key)
    requires k in rows && InSet(rows, k) && Derived(k.table)
    ensures var s := SourceDecision(rows, w, k);
      s.Some? && s.value.Target? && (s.value.reason.Some? ==> s.value.reason.value == OwnerNotMailboxOwner)
  {
    var source := Key(Recommendations, Least(SourceIds(rows, rows[k].ws, k)));
    assert source in rows && rows[source].facts.RecommendationFacts?;
  }

  // The decision about one row, remade by a later run over what the first one left.
  lemma DecisionAgain(db: Db, w: World, run: nat, stamps: Key -> Stamp, keys: set<Key>, again: nat, k: Key)
    requires Selected(db.rows, keys) && k in keys
    requires FreshRun(db.log, run) && FreshRun(db.log, again) && run != again
    ensures var after := ProcessRows(db, w, run, stamps, keys);
      && InSet(after.rows, k)
      && var d, d' := Effective(db, w, run, k), Effective(after, w, again, k);
         if d.Target? then d'.Target? && d'.owner == d.owner && d'.vis == d.vis && d'.reason == d.reason else d' == d
  {
    var after := ProcessRows(db, w, run, stamps, keys);
    InputsKept(db, w, run, stamps, keys);
    RowsSettled(db, w, run, stamps, keys, k);
    DecisionVisibility(db, w, run, k);
    if Derived(k.table) {
      SameSet(db.rows, after.rows, k);
      DerivedDecisionAgain(db, w, run, stamps, keys, again, k);
    } else {
      OtherAgain(db.rows, after.rows, w, db.log, after.log, History(run, None), History(again, None), k);
    }
  }

  function FullDecision(w: World, row: Row, source: Option<Decision>, earlier: set<Earlier>): Decision
    requires row.facts.DerivedFacts?
  {
    MarkInactive(w, row, DerivedDecision(row, source, earlier), earlier)
  }

  lemma EffectiveOfDerived(db: Db, w: World, run: nat, k: Key)
    requires k in db.rows && InSet(db.rows, k) && Derived(k.table)
    ensures Effective(db, w, run, k)
      == FullDecision(w, db.rows[k], SourceDecision(db.rows, w, k), EarlierOf(db.log, History(run, None), k))
  {
    LazyHistoryIsFullHistory(db.rows, w, db.log, History(run, None), k);
  }

  lemma DerivedDecisionAgain(db: Db, w: World, run: nat, stamps: Key -> Stamp, keys: set<Key>, again: nat, k: Key)
    requires Selected(db.rows, keys) && k in keys && Derived(k.table)
    requires FreshRun(db.log, run) && FreshRun(db.log, again) && run != again
    requires var after := ProcessRows(db, w, run, stamps, keys);
      && SameInputs(db.rows, after.rows) && InSet(after.rows, k)
      && var d := Effective(db, w, run, k);
         d.Target? ==> after.rows[k].owner == d.owner && after.rows[k].vis == d.vis
    ensures var d, d' := Effective(db, w, run, k), Effective(ProcessRows(db, w, run, stamps, keys), w, again, k);
      d.Target? && d'.Target? && d'.owner == d.owner && d'.vis == d.vis && d'.reason == d.reason
  {
    ghost var after := ProcessRows(db, w, run, stamps, keys);
    SourceVerified(db.rows, w, k);
    SameSourceDecision(db.rows, after.rows, w, k);
    EffectiveOfDerived(db, w, run, k);
    EffectiveOfDerived(after, w, again, k);
    HistoryAfter(db, w, run, stamps, keys, k, again);
    LoggedFlag(db, w, run, stamps, keys, k);
    DerivedFlag(db, w, run, k);
    ghost var own := if LogKey(run, k) in after.log
      then Some(Earlier(after.log[LogKey(run, k)].prevOwner, RuleFlag(after.log[LogKey(run, k)].state))) else None;
    DerivedTwice(w, db.rows[k], after.rows[k], SourceDecision(db.rows, w, k),
                 EarlierOf(db.log, History(run, None), k), own);
  }

  lemma DerivedFlag(db: Db, w: World, run: nat, k: Key)
    requires k in db.rows && InSet(db.rows, k) && Derived(k.table)
    ensures var d := Effective(db, w, run, k);
      d.Target? ==> Judge(db, w, run, k).derivedRule == (d.reason in {None, Some(OwnerInactive), Some(DerivedOwnerChanged)})
  {
  }

  lemma DerivedTwice(w: World, a: Row, b: Row, source: Option<Decision>, earlier: set<Earlier>, own: Option<Earlier>)
    requires a.facts.DerivedFacts? && a.facts == b.facts && a.ws == b.ws
    requires source.Some? && source.value.Target?
    requires source.value.reason.Some? ==> source.value.reason.value == OwnerNotMailboxOwner
    requires var d := FullDecision(w, a, source, earlier);
      d.Target? ==> b.owner == d.owner && b.vis == d.vis
    requires own.None? ==> b.owner == a.owner && b.vis == a.vis
    requires own.Some? ==> own.value.prevOwner == Some(a.owner)
    requires var d := FullDecision(w, a, source, earlier);
      var rule := d.Target? && d.reason in {None, Some(OwnerInactive), Some(DerivedOwnerChanged)};
      own.Some? ==> own.value.derivedRule == rule
    ensures var d := FullDecision(w, a, source, earlier);
      var d' := FullDecision(w, b, source, earlier + (if own.Some? then {own.value} else {}));
      d.Target? && d'.Target? && d'.owner == d.owner && d'.vis == d.vis && d'.reason == d.reason
  {
    var d := FullDecision(w, a, source, earlier);
    if own.Some? {
      DerivedAgain(w, a, source, earlier, own.value);
      DerivedReads(w, b, a.(owner := d.owner, vis := d.vis), source, earlier + {own.value});
    } else {
      assert earlier + {} == earlier;
      DerivedReads(w, b, a, source, earlier);
    }
  }

  // The rule reads of the row itself only owner, visibility, workspace and confirmer.
  lemma DerivedReads(w: World, a: Row, b: Row, source: Option<Decision>, earlier: set<Earlier>)
    requires a.facts.DerivedFacts? && a.facts == b.facts && a.ws == b.ws && a.owner == b.owner && a.vis == b.vis
    ensures MarkInactive(w, a, DerivedDecision(a, source, earlier), earlier)
      == MarkInactive(w, b, DerivedDecision(b, source, earlier), earlier)
  {
  }

  lemma LoggedFlag(db: Db, w: World, run: nat, stamps: Key -> Stamp, keys: set<Key>, k: Key)
    requires Selected(db.rows, keys) && k in keys && Derived(k.table) && FreshRun(db.log, run)
    ensures var after := ProcessRows(db, w, run, stamps, keys);
      if LogKey(run, k) in after.log then
        && after.log[LogKey(run, k)].prevOwner == Some(db.rows[k].owner)
        && RuleFlag(after.log[LogKey(run, k)].state) == Judge(db, w, run, k).derivedRule
      else after.rows[k].owner == db.rows[k].owner && after.rows[k].vis == db.rows[k].vis
  {
    RowsSettled(db, w, run, stamps, keys, k);
    EntriesAt(db.rows, PlanOf(db, w, run, keys), run, stamps, LogKey(run, k));
  }

  // A second run finds every row as it should be: it reports the same reason, and there
  // is nothing to change, revoke or log.
  lemma NothingLeftToDo(db: Db, w: World, run: nat, stamps: Key -> Stamp, keys: set<Key>, again: nat, k: Key)
    requires Selected(db.rows, keys) && k in keys
    requires FreshRun(db.log, run) && FreshRun(db.log, again) && run != again
    ensures var after := ProcessRows(db, w, run, stamps, keys);
      && InSet(after.rows, k)
      && var o := Judge(after, w, again, k);
         && o.owner == after.rows[k].owner && o.vis == after.rows[k].vis
         && o.reason == Judge(db, w, run, k).reason && o.grants == 0 && !o.logged
  {
    var after := ProcessRows(db, w, run, stamps, keys);
    DecisionAgain(db, w, run, stamps, keys, again, k);
    RowsSettled(db, w, run, stamps, keys, k);
    DecisionVisibility(db, w, run, k);
    GrantsSettled(db, w, run, stamps, keys, k);
    OutcomeRow(k, after.rows[k], Effective(after, w, again, k), GrantCount(after, k));
    SameReason(k, db.rows[k], after.rows[k], Effective(db, w, run, k), Effective(after, w, again, k),
               GrantCount(db, k), GrantCount(after, k));
  }

  lemma SameReason(k: Key, a: Row, b: Row, d: Decision, d': Decision, n: nat, n': nat)
    requires if d.Target? then d'.Target? && d'.owner == d.owner && d'.vis == d.vis && d'.reason == d.reason else d' == d
    requires if d.Target? then b.owner == d.owner && b.vis == d.vis else b == a
    requires n' == 0
    ensures var o := OutcomeOf(k, b, d', n');
      o.reason == OutcomeOf(k, a, d, n).reason && o.owner == b.owner && o.vis == b.vis && o.grants == 0 && !o.logged
  {
  }

  lemma ItemsAgree(db: Db, w: World, run: nat, stamps: Key -> Stamp, keys: set<Key>, k: Key, e: Key)
    requires Selected(db.rows, keys)
    requires var rows := ProcessRows(db, w, run, stamps, keys).rows;
      k in db.rows && k in rows && EntityOf(k, rows[k]) == Some(e) && e in keys && Peer(rows, rows[k].ws, e)
    ensures var rows := ProcessRows(db, w, run, stamps, keys).rows;
      rows[k].owner == rows[e].owner && rows[k].vis == rows[e].vis
  {
    MovesAdmissible(db, w, run, keys);
    FactsKept(db, w, run, stamps, keys, k);
    FactsKept(db, w, run, stamps, keys, e);
    ItemFollows(db.rows, MovesOf(db.rows, PlanOf(db, w, run, keys)), k, e);
  }

  lemma FactsKept(db: Db, w: World, run: nat, stamps: Key -> Stamp, keys: set<Key>, k: Key)
    requires Selected(db.rows, keys) && k in db.rows
    ensures var after := ProcessRows(db, w, run, stamps, keys).rows;
      after.Keys == db.rows.Keys && after[k].facts == db.rows[k].facts && after[k].ws == db.rows[k].ws
  {
    InputsKept(db, w, run, stamps, keys);
  }

  // Fixpoint: a second run right after a run over the same rows leaves the whole state as it is.
  lemma SecondRunChangesNothing(db: Db, w: World, run: nat, stamps: Key -> Stamp, keys: set<Key>,
                                again: nat, stamps': Key -> Stamp, part: set<Key>)
    requires Selected(db.rows, keys) && part <= keys
    requires FreshRun(db.log, run) && FreshRun(db.log, again) && run != again
    ensures var after := ProcessRows(db, w, run, stamps, keys);
      Selected(after.rows, part) && ProcessRows(after, w, again, stamps', part) == after
  {
    ghost var after := ProcessRows(db, w, run, stamps, keys);
    SelectedStable(db, w, run, stamps, keys, part);
    ghost var plan := PlanOf(after, w, again, part);
    forall k | k in plan
      ensures plan[k].owner == after.rows[k].owner && plan[k].vis == after.rows[k].vis
        && plan[k].grants == 0 && !plan[k].logged
    {
      NothingLeftToDo(db, w, run, stamps, keys, again, k);
    }
    forall k, e | k in after.rows && EntityOf(k, after.rows[k]) == Some(e) && e in plan && Peer(after.rows, after.rows[k].ws, e)
      ensures after.rows[k].owner == after.rows[e].owner && after.rows[k].vis == after.rows[e].vis
    {
      ItemsAgree(db, w, run, stamps, keys, k, e);
    }
    PlanLeavesRows(after.rows, after.grants, after.log, plan, again, stamps');
  }

  // Whichever of two fresh runs goes on, it judges the rows the first one has not reached alike.
  lemma JudgedAlike(db: Db, w: World, run: nat, stamps: Key -> Stamp, part: set<Key>, again: nat, k: Key)
    requires Selected(db.rows, part) && k in db.rows && InSet(db.rows, k) && k !in part
    requires FreshRun(db.log, run) && FreshRun(db.log, again) && run != again
    ensures var mid := ProcessRows(db, w, run, stamps, part);
      InSet(mid.rows, k) && Judge(mid, w, again, k) == Judge(mid, w, run, k)
  {
    ghost var mid := ProcessRows(db, w, run, stamps, part);
    SelectedStable(db, w, run, stamps, part, {k});
    HistoryAfter(db, w, run, stamps, part, k, again);
    NothingElseLogged(db, w, run, stamps, part, LogKey(run, k));
    OwnRunIsNoHistory(db.log, NewEntries(db.rows, PlanOf(db, w, run, part), run, stamps), History(run, None), k);
    AlikeByHistory(mid, w, run, again, k);
  }

  lemma AlikeByHistory(db: Db, w: World, run: nat, again: nat, k: Key)
    requires k in db.rows && InSet(db.rows, k)
    requires EarlierOf(db.log, History(again, None), k) == EarlierOf(db.log, History(run, None), k)
    ensures Judge(db, w, again, k) == Judge(db, w, run, k)
  {
  }

  // An interrupted run, completed by a later one: every row, and the set of active grants,
  // end as if the first run had gone through.
  lemma ResumeReachesSameRows(db: Db, w: World, run: nat, stamps: Key -> Stamp, keys: set<Key>, part: set<Key>,
                              again: nat, stamps': Key -> Stamp)
    requires Selected(db.rows, keys) && part <= keys
    requires FreshRun(db.log, run) && FreshRun(db.log, again) && run != again
    ensures var mid := ProcessRows(db, w, run, stamps, part);
      && Selected(mid.rows, keys)
      && var end, whole := ProcessRows(mid, w, again, stamps', keys), ProcessRows(db, w, run, stamps, keys);
         && end.rows == whole.rows
         && end.grants.Keys == whole.grants.Keys
         && forall g :: g in whole.grants ==> end.grants[g].revokedAt.None? == whole.grants[g].revokedAt.None?
  {
    ghost var mid := ProcessRows(db, w, run, stamps, part);
    ghost var rest := keys - part;
    assert part + rest == keys;
    SelectedStable(db, w, run, stamps, part, keys);
    Compose(db, w, run, stamps, part, rest);
    Compose(mid, w, again, stamps', part, rest);
    SecondRunChangesNothing(db, w, run, stamps, part, again, stamps', part);
    forall k | k in rest ensures Judge(mid, w, again, k) == Judge(mid, w, run, k) {
      JudgedAlike(db, w, run, stamps, part, again, k);
    }
    MapsEqual(PlanOf(mid, w, again, rest), PlanOf(mid, w, run, rest));
    SamePlanSameRows(mid, PlanOf(mid, w, run, rest), again, stamps', run, stamps);
  }

  lemma SamePlanSameRows(db: Db, plan: Plan, run: nat, stamps: Key -> Stamp, run': nat, stamps': Key -> Stamp)
    requires plan.Keys <= db.rows.Keys
    ensures var x, y := ApplyPlan(db, plan, run, stamps), ApplyPlan(db, plan, run', stamps');
      && x.rows == y.rows && x.grants.Keys == y.grants.Keys
      && forall g :: g in y.grants ==> x.grants[g].revokedAt.None? == y.grants[g].revokedAt.None?
  {
  }
}
