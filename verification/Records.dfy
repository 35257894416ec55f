// The rows the visibility backfill, its restore and the sharing endpoints read and write.
module Records {

  datatype Option<+T> = None | Some(value: T)

  // The backfill's tables, in its processing order, plus every other resource table.
  datatype Table =
    | ConnectorAccounts | SyncRuns | SyncCursors | AttentionItems | Recommendations
    | AiRuns | AiRunSteps | PkosEvidence | EntityAliases
    | Tasks | Commitments | Risks
    | RecommendationFeedback | AttentionFeedback
    | Other(name: string)

  const TABLES: seq<Table> := [
    ConnectorAccounts, SyncRuns, SyncCursors, AttentionItems, Recommendations, AiRuns, AiRunSteps,
    PkosEvidence, EntityAliases, Tasks, Commitments, Risks, RecommendationFeedback, AttentionFeedback]

  predicate Versioned(t: Table) {
    t in {ConnectorAccounts, Recommendations, EntityAliases, Tasks, Commitments, Risks}
  }

  predicate Derived(t: Table) { t in {Tasks, Commitments, Risks} }

  predicate Feedback(t: Table) { t in {RecommendationFeedback, AttentionFeedback} }

  predicate VisibilityKept(t: Table) { t == EntityAliases || Feedback(t) }

  datatype Key = Key(table: Table, id: nat)

  datatype Visibility = Private | Workspace | SharedExplicitly

  datatype Provider = Gmail | OtherProvider
  datatype EntityType = EmailThread | TaskEntity | CommitmentEntity | RiskEntity | OtherEntity
  datatype RecommendationKind = EmailActionDetected | OtherRecommendation
  datatype TaskType = EmailDetectAction | OtherTask | NoTaskType
  datatype SourceType = GmailSync | OtherSource

  datatype Execution = Execution(create: bool, targetType: EntityType, target: nat)

  // What a row says about itself that no operation modelled here ever rewrites.
  datatype Facts =
    | ConnectorFacts(provider: Provider)
    | SyncFacts(connector: nat)
    | AttentionFacts(entityType: EntityType, entity: nat)
    | RecommendationFacts(kind: RecommendationKind, createdBy: nat, evidence: seq<nat>,
                          executed: Option<Execution>)
    | RunFacts(taskType: TaskType, actor: nat, thread: Option<nat>)
    | StepFacts(run: nat)
    | EvidenceFacts(sourceType: SourceType, sourceRef: Option<string>)
    | AliasFacts(source: nat)
    | DerivedFacts(confirmer: nat)
    | RecommendationFeedbackFacts(recommendation: nat)
    | AttentionFeedbackFacts(onItem: bool, target: nat)
    | OtherFacts

  // The member-written fields of an attention item (`override_reason` by its digest).
  datatype MemberFields = MemberFields(overrideDigest: Option<nat>, dismissedAt: Option<nat>,
                                       deferredUntil: Option<nat>)

  const NO_MEMBER_FIELDS := MemberFields(None, None, None)

  // The entity versions an attention item was computed and dismissed at.
  datatype Mark = Mark(source: nat, dismissed: Option<nat>)

  datatype Row = Row(ws: nat, owner: nat, vis: Visibility, version: nat, updatedAt: nat,
                     facts: Facts, member: MemberFields, mark: Mark)

  datatype Grant = Grant(ws: nat, resource: Key, grantee: nat, actions: set<Action>, grantedBy: nat,
                         expiresAt: Option<nat>, revokedAt: Option<nat>)

  datatype Action = Read | Write

  datatype LogKey = LogKey(run: nat, key: Key)

  // `previous_state`: absent on log rows older than the snapshot column.
  datatype Snapshot =
    | DerivedSnapshot(version: nat, updatedAt: nat, items: map<nat, MemberFields>, bump: nat,
                      derivedRule: Option<bool>)
    | ItemSnapshot(member: MemberFields)

  datatype LogEntry = LogEntry(id: nat, at: nat, prevOwner: Option<nat>, prevVis: Visibility,
                               grantsRevoked: nat, state: Option<Snapshot>)

  datatype Db = Db(rows: map<Key, Row>, grants: map<nat, Grant>, log: map<LogKey, LogEntry>)

  datatype Thread = Thread(ws: nat, owner: nat)
  datatype MessageOwner = MessageOwner(ws: nat, message: string, owner: nat)
  datatype Membership = Membership(ws: nat, user: nat)

  // Tables only read here: threads, messages, the purge log, active memberships.
  datatype World = World(threads: map<nat, Thread>, messages: set<MessageOwner>,
                         purged: set<MessageOwner>, active: set<Membership>)

  predicate Active(w: World, ws: nat, user: nat) { Membership(ws, user) in w.active }
}
