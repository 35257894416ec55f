// The personal data set on the tables' own columns: which rows it takes in, and which rows
// the confirmation of an email recommendation created.
module Personal {
  import opened Records
  import opened Rules

  ghost predicate GmailConnector(rows: map<Key, Row>, ws: nat, id: nat) {
    && Key(ConnectorAccounts, id) in rows && rows[Key(ConnectorAccounts, id)].ws == ws
    && rows[Key(ConnectorAccounts, id)].facts == ConnectorFacts(Gmail)
  }

  ghost predicate EmailRun(rows: map<Key, Row>, ws: nat, id: nat) {
    && Key(AiRuns, id) in rows && rows[Key(AiRuns, id)].ws == ws
    && var f := rows[Key(AiRuns, id)].facts;
       f.RunFacts? && f.taskType == EmailDetectAction
  }

  ghost predicate GmailEvidence(rows: map<Key, Row>, ws: nat, id: nat) {
    && Key(PkosEvidence, id) in rows && rows[Key(PkosEvidence, id)].ws == ws
    && var f := rows[Key(PkosEvidence, id)].facts;
       f.EvidenceFacts? && f.sourceType == GmailSync
  }

  ghost predicate EmailRecommendation(rows: map<Key, Row>, ws: nat, id: nat) {
    && Key(Recommendations, id) in rows && rows[Key(Recommendations, id)].ws == ws
    && var f := rows[Key(Recommendations, id)].facts;
       f.RecommendationFacts? && f.kind == EmailActionDetected
  }

  ghost predicate EmailItem(rows: map<Key, Row>, ws: nat, id: nat) {
    && Key(AttentionItems, id) in rows && rows[Key(AttentionItems, id)].ws == ws
    && var f := rows[Key(AttentionItems, id)].facts;
       f.AttentionFacts? && f.entityType == EmailThread
  }

  // An email recommendation of the workspace was executed and created this entity.
  ghost predicate CreatedByEmail(rows: map<Key, Row>, ws: nat, kind: EntityType, id: nat) {
    exists r: nat :: EmailRecommendation(rows, ws, r)
      && rows[Key(Recommendations, r)].facts.executed == Some(Execution(true, kind, id))
  }

  ghost predicate OnColumns(rows: map<Key, Row>, k: Key)
    requires k in rows
  {
    var ws, f := rows[k].ws, rows[k].facts;
    match k.table
    case ConnectorAccounts => f == ConnectorFacts(Gmail)
    case SyncRuns => f.SyncFacts? && GmailConnector(rows, ws, f.connector)
    case SyncCursors => f.SyncFacts? && GmailConnector(rows, ws, f.connector)
    case AttentionItems => f.AttentionFacts? && f.entityType == EmailThread
    case Recommendations => f.RecommendationFacts? && f.kind == EmailActionDetected
    case AiRuns => f.RunFacts? && f.taskType == EmailDetectAction
    case AiRunSteps => f.StepFacts? && EmailRun(rows, ws, f.run)
    case PkosEvidence => f.EvidenceFacts? && f.sourceType == GmailSync
    case EntityAliases => f.AliasFacts? && GmailEvidence(rows, ws, f.source)
    case Tasks => f.DerivedFacts? && CreatedByEmail(rows, ws, TaskEntity, k.id)
    case Commitments => f.DerivedFacts? && CreatedByEmail(rows, ws, CommitmentEntity, k.id)
    case Risks => f.DerivedFacts? && CreatedByEmail(rows, ws, RiskEntity, k.id)
    case RecommendationFeedback => f.RecommendationFeedbackFacts? && EmailRecommendation(rows, ws, f.recommendation)
    case AttentionFeedback => f.AttentionFeedbackFacts? && f.onItem && EmailItem(rows, ws, f.target)
    case Other(_) => false
  }

  // The recommendations that make a row derived.
  lemma SourcesOnColumns(rows: map<Key, Row>, ws: nat, k: Key, r: nat)
    ensures r in SourceIds(rows, ws, k)
      <==> (EmailRecommendation(rows, ws, r)
            && rows[Key(Recommendations, r)].facts.executed == Some(Execution(true, EntityTypeOf(k.table), k.id)))
  {
    if EmailRecommendation(rows, ws, r)
      && rows[Key(Recommendations, r)].facts.executed == Some(Execution(true, EntityTypeOf(k.table), k.id)) {
      assert Key(Recommendations, r) in rows && Sources(rows, ws, Key(Recommendations, r).id, k);
    }
  }

  // A row is in the set exactly when its columns, and those of the row it belongs to, say so.
  lemma SetOnColumns(rows: map<Key, Row>, k: Key)
    requires k in rows
    ensures InSet(rows, k) <==> OnColumns(rows, k)
  {
    hide SourceIds;
    var ws := rows[k].ws;
    if Derived(k.table) {
      var ids := SourceIds(rows, ws, k);
      forall r: nat ensures r in ids
        <==> (EmailRecommendation(rows, ws, r)
              && rows[Key(Recommendations, r)].facts.executed == Some(Execution(true, EntityTypeOf(k.table), k.id)))
      {
        SourcesOnColumns(rows, ws, k, r);
      }
      if ids != {} {
        var r :| r in ids;
        assert CreatedByEmail(rows, ws, EntityTypeOf(k.table), k.id);
      }
    }
  }
}
