// Whose a personal row is, as the other tables tell it: what a run's decisions are for.
module Agreement {
  import opened Ordering
  import opened Records
  import opened Rules
  import opened Process
  import opened Settled
  import opened Personal

  // ------------------------------------------------------------ the reference definition

  // The reference names the message: in the form detection writes, or in the one sync writes.
  ghost predicate RefersTo(ref: Option<string>, message: string) {
    && ref.Some? && message != ""
    && (|| ref.value == "gmail:detect_action:" + message
        || (ref.value == "gmail:" + message && !StartsWith(message, "detect_action:")))
  }

  // A message row or a purge row of the message the reference names.
  ghost predicate Mentions(w: World, ws: nat, ref: Option<string>, m: MessageOwner) {
    (m in w.messages || m in w.purged) && m.ws == ws && RefersTo(ref, m.message)
  }

  lemma RefersToRead(ref: Option<string>, message: string)
    ensures RefersTo(ref, message) <==> MessageIdFromSourceRef(ref) == Some(message)
  {
    MessageIdRoundTrip(message);
    if ref.Some? {
      var s := ref.value;
      if StartsWith(s, DETECT_ACTION_PREFIX) {
        assert s == DETECT_ACTION_PREFIX + s[|DETECT_ACTION_PREFIX|..];
      } else if StartsWith(s, SYNC_PREFIX) {
        assert s == SYNC_PREFIX + s[|SYNC_PREFIX|..];
      }
    }
  }

  // Every row known of the message names the same owner.
  ghost predicate EvidenceSays(w: World, ws: nat, ref: Option<string>, owner: nat) {
    && (exists m :: Mentions(w, ws, ref, m))
    && (forall m :: Mentions(w, ws, ref, m) ==> m.owner == owner)
  }

  // Gmail evidence whose known rows agree on this owner.
  ghost predicate Cites(rows: map<Key, Row>, w: World, ws: nat, evidence: nat, owner: nat) {
    && GmailEvidence(rows, ws, evidence)
    && EvidenceSays(w, ws, rows[Key(PkosEvidence, evidence)].facts.sourceRef, owner)
  }

  // The first of the executed email recommendations that created the row.
  ghost predicate FirstSource(rows: map<Key, Row>, k: Key, r: nat)
    requires k in rows
  {
    CreatedFrom(rows, k, r) && forall other: nat :: CreatedFrom(rows, k, other) ==> r <= other
  }

  ghost predicate CreatedFrom(rows: map<Key, Row>, k: Key, r: nat)
    requires k in rows
  {
    && EmailRecommendation(rows, rows[k].ws, r)
    && rows[Key(Recommendations, r)].facts.executed == Some(Execution(true, EntityTypeOf(k.table), k.id))
  }

  lemma FirstSourceIs(rows: map<Key, Row>, k: Key)
    requires k in rows && InSet(rows, k) && Derived(k.table)
    ensures var r := Least(SourceIds(rows, rows[k].ws, k));
      FirstSource(rows, k, r) && forall other :: FirstSource(rows, k, other) ==> other == r
  {
    var ids := SourceIds(rows, rows[k].ws, k);
    forall r: nat ensures r in ids <==> CreatedFrom(rows, k, r) { SourcesOnColumns(rows, rows[k].ws, k, r); }
    hide SourceIds;
    assert CreatedFrom(rows, k, Least(ids));
  }

  // A recommendation is its creator's when it is theirs now and no cited Gmail evidence is
  // somebody else's.
  ghost predicate RecommendationIs(rows: map<Key, Row>, w: World, row: Row, owner: nat)
    requires row.facts.RecommendationFacts?
  {
    && owner == row.facts.createdBy
    && forall e, other :: e in row.facts.evidence && Cites(rows, w, row.ws, e, other) ==> other == owner
  }

  // A run is its actor's when it is theirs now and its thread, if known, is theirs.
  ghost predicate RunIs(w: World, row: Row, owner: nat)
    requires row.facts.RunFacts?
  {
    && owner == row.facts.actor
    && forall t :: row.facts.thread == Some(t) && t in w.threads && w.threads[t].ws == row.ws ==>
         w.threads[t].owner == owner
  }

  ghost predicate Agrees(rows: map<Key, Row>, w: World, k: Key, owner: nat)
    requires k in rows && InSet(rows, k)
  {
    var f, ws := rows[k].facts, rows[k].ws;
    match k.table
    case ConnectorAccounts | RecommendationFeedback | AttentionFeedback => owner == rows[k].owner
    case SyncRuns | SyncCursors =>
      var c := Key(ConnectorAccounts, f.connector);
      c in rows && rows[c].ws == ws && rows[c].owner == owner
    case AttentionItems =>
      if f.entity in w.threads && w.threads[f.entity].ws == ws then w.threads[f.entity].owner == owner
      else owner == rows[k].owner
    case Recommendations => RecommendationIs(rows, w, rows[k], owner)
    case AiRuns => RunIs(w, rows[k], owner)
    case AiRunSteps => rows[Key(AiRuns, f.run)].owner == owner && RunIs(w, rows[Key(AiRuns, f.run)], owner)
    case PkosEvidence => EvidenceSays(w, ws, f.sourceRef, owner)
    case EntityAliases => Cites(rows, w, ws, f.source, owner)
    case Tasks | Commitments | Risks =>
      exists r :: FirstSource(rows, k, r) && rows[Key(Recommendations, r)].owner == owner
                  && RecommendationIs(rows, w, rows[Key(Recommendations, r)], owner)
  }

  // ----------------------------------------------------------------------- the rules

  lemma OwnersMentioned(w: World, ws: nat, ref: Option<string>, owner: nat)
    requires MessageIdFromSourceRef(ref).Some?
    ensures owner in MessageOwners(w, ws, MessageIdFromSourceRef(ref).value)
      <==> exists m :: Mentions(w, ws, ref, m) && m.owner == owner
  {
    var id := MessageIdFromSourceRef(ref).value;
    forall message ensures RefersTo(ref, message) <==> message == id { RefersToRead(ref, message); }
    if owner in MessageOwners(w, ws, id) {
      var m :| m in w.messages + w.purged && m.ws == ws && m.message == id && m.owner == owner;
      assert Mentions(w, ws, ref, m);
    }
    if m :| Mentions(w, ws, ref, m) && m.owner == owner {
      assert m.owner in MessageOwners(w, ws, id);
    }
  }

  lemma Singleton(s: set<nat>, owner: nat)
    ensures |s| == 1 && TheOnly(s) == owner <==> s == {owner}
    ensures s == {owner} <==> (exists x :: x in s) && forall x :: x in s ==> x == owner
  {
    if |s| == 1 { assert s == {TheOnly(s)}; }
    if s == {owner} { assert TheOnly(s) == owner; }
  }

  // The evidence rule finds an owner exactly when the known rows agree on one, and says why
  // when it does not.
  lemma EvidenceOwnerMeaning(w: World, ws: nat, ref: Option<string>, owner: nat)
    ensures EvidenceOwner(w, ws, ref) == Owned(owner) <==> EvidenceSays(w, ws, ref, owner)
    ensures EvidenceOwner(w, ws, ref) == Unowned(EvidenceSourceRefUnrecognised)
      <==> !exists message :: RefersTo(ref, message)
    ensures EvidenceOwner(w, ws, ref) == Unowned(EvidenceOwnerUnknown)
      <==> (exists message :: RefersTo(ref, message)) && !exists m :: Mentions(w, ws, ref, m)
    ensures EvidenceOwner(w, ws, ref) == Unowned(EvidenceOwnerAmbiguous)
      <==> exists a, b :: Mentions(w, ws, ref, a) && Mentions(w, ws, ref, b) && a.owner != b.owner
  {
    hide RefersTo, MessageIdFromSourceRef;
    forall message ensures RefersTo(ref, message) <==> MessageIdFromSourceRef(ref) == Some(message) {
      RefersToRead(ref, message);
    }
    if MessageIdFromSourceRef(ref).Some? {
      assert RefersTo(ref, MessageIdFromSourceRef(ref).value);
      var owners := MessageOwners(w, ws, MessageIdFromSourceRef(ref).value);
      Singleton(owners, owner);
      forall o ensures o in owners <==> exists m :: Mentions(w, ws, ref, m) && m.owner == o { OwnersMentioned(w, ws, ref, o); }
      forall m | Mentions(w, ws, ref, m) ensures m.owner in owners { OwnersMentioned(w, ws, ref, m.owner); }
      if owners != {} && |owners| != 1 {
        var x :| x in owners;
        assert owners != {x};
        var y :| y in owners && y != x;
      }
      if |owners| == 1 { Singleton(owners, TheOnly(owners)); }
    }
  }

  // What the recommendation rule reports is what the definition does not support.
  lemma RecommendationRule(rows: map<Key, Row>, w: World, row: Row)
    requires row.facts.RecommendationFacts?
    ensures RecommendationDecision(rows, w, row).reason.None? <==> RecommendationIs(rows, w, row, row.owner)
  {
    var ws, mailbox := row.ws, row.facts.createdBy;
    forall e, other ensures Cites(rows, w, ws, e, other)
      <==> IsGmailEvidence(rows, ws, e) && EvidenceOwner(w, ws, SourceRefOf(rows, ws, e)) == Owned(other)
    {
      EvidenceOwnerMeaning(w, ws, SourceRefOf(rows, ws, e), other);
    }
    if Contradicted(rows, w, ws, row.facts.evidence, mailbox) {
      var e :| e in row.facts.evidence && IsGmailEvidence(rows, ws, e)
        && EvidenceOwner(w, ws, SourceRefOf(rows, ws, e)).Owned?
        && EvidenceOwner(w, ws, SourceRefOf(rows, ws, e)).owner != mailbox;
      assert Cites(rows, w, ws, e, EvidenceOwner(w, ws, SourceRefOf(rows, ws, e)).owner);
    }
  }

  lemma RunRule(w: World, row: Row)
    requires row.facts.RunFacts?
    ensures RunDecision(w, row).reason.None? <==> RunIs(w, row, row.owner)
  {
  }

  lemma DerivedRule(db: Db, w: World, run: nat, k: Key)
    requires k in db.rows && InSet(db.rows, k) && Derived(k.table)
    ensures Agrees(db.rows, w, k, Judge(db, w, run, k).owner) <==> Judge(db, w, run, k).reason in {None, Some(OwnerInactive)}
  {
    var source := Key(Recommendations, Least(SourceIds(db.rows, db.rows[k].ws, k)));
    FirstSourceIs(db.rows, k);
    RecommendationRule(db.rows, w, db.rows[source]);
    DerivedBySource(db, w, run, k, source);
    assert Agrees(db.rows, w, k, Judge(db, w, run, k).owner)
      <==> Judge(db, w, run, k).owner == db.rows[source].owner
           && RecommendationIs(db.rows, w, db.rows[source], db.rows[source].owner);
  }

  // What the rule makes of the source's decision.
  lemma DerivedBySource(db: Db, w: World, run: nat, k: Key, source: Key)
    requires k in db.rows && InSet(db.rows, k) && Derived(k.table)
    requires source == Key(Recommendations, Least(SourceIds(db.rows, db.rows[k].ws, k)))
    ensures source in db.rows && db.rows[source].facts.RecommendationFacts?
    ensures var d, o := RecommendationDecision(db.rows, w, db.rows[source]), Judge(db, w, run, k);
      o.reason in {None, Some(OwnerInactive)} <==> d.reason.None? && o.owner == db.rows[source].owner
  {
    assert source in db.rows && db.rows[source].facts.RecommendationFacts?;
    EffectiveOfDerived(db, w, run, k);
    SourceVerified(db.rows, w, k);
  }

  // A decision's owner is the one the other tables support exactly when the row is not
  // reported, or only because that owner is not active.
  lemma JudgedAgrees(db: Db, w: World, run: nat, k: Key)
    requires k in db.rows && InSet(db.rows, k)
    ensures Agrees(db.rows, w, k, Judge(db, w, run, k).owner) <==> Judge(db, w, run, k).reason in {None, Some(OwnerInactive)}
  {
    var f, ws := db.rows[k].facts, db.rows[k].ws;
    var o := Judge(db, w, run, k);
    if Derived(k.table) {
      DerivedRule(db, w, run, k);
    } else {
      match k.table {
        case Recommendations => RecommendationRule(db.rows, w, db.rows[k]);
        case AiRuns => RunRule(w, db.rows[k]);
        case AiRunSteps => RunRule(w, db.rows[Key(AiRuns, f.run)]);
        case PkosEvidence => EvidenceOwnerMeaning(w, ws, f.sourceRef, o.owner);
        case EntityAliases => EvidenceOwnerMeaning(w, ws, SourceRefOf(db.rows, ws, f.source), o.owner);
        case _ =>
      }
    }
  }

  lemma RecommendationIsStable(a: map<Key, Row>, b: map<Key, Row>, w: World, x: Row, y: Row, owner: nat)
    requires SameFacts(a, b) && x.facts.RecommendationFacts? && x.facts == y.facts && x.ws == y.ws
    ensures RecommendationIs(a, w, x, owner) == RecommendationIs(b, w, y, owner)
  {
    forall e | e in x.facts.evidence
      ensures IsGmailEvidence(a, x.ws, e) == IsGmailEvidence(b, x.ws, e) && SourceRefOf(a, x.ws, e) == SourceRefOf(b, x.ws, e)
    {
      var p := Key(PkosEvidence, e);
      assert p in a <==> p in b;
    }
    assert forall e, other :: e in x.facts.evidence ==>
      Cites(a, w, x.ws, e, other) == Cites(b, w, x.ws, e, other);
  }

  lemma CitesStable(a: map<Key, Row>, b: map<Key, Row>, w: World, ws: nat, e: nat, owner: nat)
    requires SameFacts(a, b)
    ensures Cites(a, w, ws, e, owner) == Cites(b, w, ws, e, owner)
  {
    var k := Key(PkosEvidence, e);
    assert k in a <==> k in b;
  }

  lemma DerivedAgreesStable(a: map<Key, Row>, b: map<Key, Row>, w: World, k: Key, owner: nat)
    requires SameInputs(a, b) && k in a && InSet(a, k) && InSet(b, k) && Derived(k.table)
    ensures Agrees(a, w, k, owner) == Agrees(b, w, k, owner)
  {
    hide RecommendationIs, InSet;
    forall r: nat ensures CreatedFrom(a, k, r) == CreatedFrom(b, k, r) { CreatedStable(a, b, k, r); }
    hide CreatedFrom;
    forall r | FirstSource(a, k, r)
      ensures var s := Key(Recommendations, r);
        && s in a && a[s].facts.RecommendationFacts? && s in b && b[s].facts.RecommendationFacts? && a[s].owner == b[s].owner
        && RecommendationIs(a, w, a[s], owner) == RecommendationIs(b, w, b[s], owner)
    {
      SourceStable(a, b, k, r);
      RecommendationIsStable(a, b, w, a[Key(Recommendations, r)], b[Key(Recommendations, r)], owner);
    }
  }

  lemma CreatedStable(a: map<Key, Row>, b: map<Key, Row>, k: Key, r: nat)
    requires SameFacts(a, b) && k in a
    ensures CreatedFrom(a, k, r) == CreatedFrom(b, k, r)
  {
    var s := Key(Recommendations, r);
    assert s in a <==> s in b;
  }

  lemma SourceStable(a: map<Key, Row>, b: map<Key, Row>, k: Key, r: nat)
    requires SameInputs(a, b) && k in a && CreatedFrom(a, k, r)
    ensures var s := Key(Recommendations, r);
      && s in a && s in b && a[s].facts.RecommendationFacts? && a[s].facts == b[s].facts
      && a[s].ws == b[s].ws && a[s].owner == b[s].owner
  {
  }

  lemma AgreesStable(a: map<Key, Row>, b: map<Key, Row>, w: World, k: Key, owner: nat)
    requires SameInputs(a, b) && k in a && InSet(a, k) && InSet(b, k) && owner == b[k].owner
    requires k.table in {ConnectorAccounts, AttentionItems} || Feedback(k.table) ==> Agrees(a, w, k, owner)
    ensures Agrees(a, w, k, owner) == Agrees(b, w, k, owner)
  {
    var ws := a[k].ws;
    if Derived(k.table) {
      DerivedAgreesStable(a, b, w, k, owner);
    } else if k.table == Recommendations {
      RecommendationIsStable(a, b, w, a[k], b[k], owner);
    } else {
      hide RecommendationIs, EvidenceSays, SourceIds, FirstSource;
      if k.table == EntityAliases { CitesStable(a, b, w, ws, a[k].facts.source, owner); }
      hide Cites;
    }
  }

  lemma KeepersNotReported(db: Db, w: World, run: nat, k: Key)
    requires k in db.rows && InSet(db.rows, k)
    requires k.table in {ConnectorAccounts, AttentionItems} || Feedback(k.table)
    ensures Judge(db, w, run, k).reason.None?
  {
  }

  // After a run, a processed row belongs to whom the other tables say it does, exactly when
  // the run did not report it, or reported only that this owner is no longer active.
  lemma ReportedIffDisagrees(db: Db, w: World, run: nat, stamps: Key -> Stamp, keys: set<Key>, k: Key)
    requires Selected(db.rows, keys) && k in keys
    ensures var rows := ProcessRows(db, w, run, stamps, keys).rows;
      && k in rows && InSet(rows, k)
      && (Agrees(rows, w, k, rows[k].owner) <==> Judge(db, w, run, k).reason in {None, Some(OwnerInactive)})
  {
    hide InSet, Judge, Agrees;
    ghost var rows := ProcessRows(db, w, run, stamps, keys).rows;
    InputsKept(db, w, run, stamps, keys);
    SameSet(db.rows, rows, k);
    ProcessedRow(db, w, run, stamps, keys, k);
    JudgedAgrees(db, w, run, k);
    if k.table in {ConnectorAccounts, AttentionItems} || Feedback(k.table) { KeepersNotReported(db, w, run, k); }
    AgreesStable(db.rows, rows, w, k, rows[k].owner);
  }

  // A row is reported for its owner's inactivity exactly when that owner is not active and
  // came by the row through a run: this one or an earlier one.
  lemma InactiveReported(db: Db, w: World, run: nat, k: Key)
    requires k in db.rows && InSet(db.rows, k) && Derived(k.table)
    ensures var o, row := Judge(db, w, run, k), db.rows[k];
      o.reason == Some(OwnerInactive)
      <==> (&& Agrees(db.rows, w, k, o.owner) && !Active(w, row.ws, o.owner)
            && (row.owner != o.owner
                || exists e :: e in EarlierOf(db.log, History(run, None), k) && e.prevOwner != Some(o.owner)))
  {
    DerivedRule(db, w, run, k);
    EffectiveOfDerived(db, w, run, k);
    SourceVerified(db.rows, w, k);
  }
}
