// Which rows are personal data, and the owner and visibility each of them should have.
module Rules {
  import opened Ordering
  import opened Records

  datatype Reason =
    | EvidenceOwnerUnknown | EvidenceOwnerAmbiguous | EvidenceSourceRefUnrecognised
    | OwnerNotMailboxOwner | ConnectorOwnerUnknown | AliasOwnerInactive
    | DerivedOwnerChanged | OwnerInactive | DerivedSourceMissing
    | ChangedRule | ChangedOwner | ChangedVisibility | ChangedContent | ChangedAttention
    | NoSnapshot | PreviousOwnerInactive | NoLongerPersonal | Deleted

  // `keepsOwner`: the owner is the row's own by construction, not derived from other rows.
  datatype Decision =
    | Target(owner: nat, vis: Visibility, reason: Option<Reason>, keepsOwner: bool)
    | Unresolved(why: Reason)

  // ------------------------------------------------------------------ row set

  // A row of `table` with this id in the same workspace.
  predicate Peer(rows: map<Key, Row>, ws: nat, k: Key) {
    k in rows && rows[k].ws == ws
  }

  predicate IsGmailConnector(rows: map<Key, Row>, ws: nat, id: nat) {
    var k := Key(ConnectorAccounts, id);
    Peer(rows, ws, k) && rows[k].facts.ConnectorFacts? && rows[k].facts.provider == Gmail
  }

  predicate IsEmailRun(rows: map<Key, Row>, ws: nat, id: nat) {
    var k := Key(AiRuns, id);
    Peer(rows, ws, k) && rows[k].facts.RunFacts? && rows[k].facts.taskType == EmailDetectAction
  }

  predicate IsGmailEvidence(rows: map<Key, Row>, ws: nat, id: nat) {
    var k := Key(PkosEvidence, id);
    Peer(rows, ws, k) && rows[k].facts.EvidenceFacts? && rows[k].facts.sourceType == GmailSync
  }

  predicate IsEmailRecommendation(rows: map<Key, Row>, ws: nat, id: nat) {
    var k := Key(Recommendations, id);
    Peer(rows, ws, k) && rows[k].facts.RecommendationFacts? && rows[k].facts.kind == EmailActionDetected
  }

  predicate IsEmailItem(rows: map<Key, Row>, ws: nat, id: nat) {
    var k := Key(AttentionItems, id);
    Peer(rows, ws, k) && rows[k].facts.AttentionFacts? && rows[k].facts.entityType == EmailThread
  }

  function EntityTypeOf(t: Table): EntityType {
    match t
    case Tasks => TaskEntity
    case Commitments => CommitmentEntity
    case Risks => RiskEntity
    case _ => OtherEntity
  }

  // Recommendation `id` was executed and created the row `k`.
  predicate Sources(rows: map<Key, Row>, ws: nat, id: nat, k: Key) {
    IsEmailRecommendation(rows, ws, id) &&
    rows[Key(Recommendations, id)].facts.executed == Some(Execution(true, EntityTypeOf(k.table), k.id))
  }

  function SourceIds(rows: map<Key, Row>, ws: nat, k: Key): set<nat> {
    set r | r in rows && r.table == Recommendations && Sources(rows, ws, r.id, k) :: r.id
  }

  // The row predicates of the personal data set and of the rows derived from it.
  predicate InSet(rows: map<Key, Row>, k: Key)
    requires k in rows
  {
    var ws, f := rows[k].ws, rows[k].facts;
    match k.table
    case ConnectorAccounts => IsGmailConnector(rows, ws, k.id)
    case SyncRuns | SyncCursors => f.SyncFacts? && IsGmailConnector(rows, ws, f.connector)
    case AttentionItems => IsEmailItem(rows, ws, k.id)
    case Recommendations => IsEmailRecommendation(rows, ws, k.id)
    case AiRuns => IsEmailRun(rows, ws, k.id)
    case AiRunSteps => f.StepFacts? && IsEmailRun(rows, ws, f.run)
    case PkosEvidence => IsGmailEvidence(rows, ws, k.id)
    case EntityAliases => f.AliasFacts? && IsGmailEvidence(rows, ws, f.source)
    case Tasks | Commitments | Risks => f.DerivedFacts? && SourceIds(rows, ws, k) != {}
    case RecommendationFeedback =>
      f.RecommendationFeedbackFacts? && IsEmailRecommendation(rows, ws, f.recommendation)
    case AttentionFeedback => f.AttentionFeedbackFacts? && f.onItem && IsEmailItem(rows, ws, f.target)
    case Other(_) => false
  }

  // ------------------------------------------------------- evidence owner rule

  predicate StartsWith(s: string, prefix: string) {
    |prefix| <= |s| && s[..|prefix|] == prefix
  }

  const DETECT_ACTION_PREFIX := "gmail:detect_action:"
  const SYNC_PREFIX := "gmail:"

  function NonEmpty(s: string): Option<string> {
    if s == "" then None else Some(s)
  }

  function MessageIdFromSourceRef(ref: Option<string>): Option<string> {
    match ref
    case None => None
    case Some(s) =>
      if StartsWith(s, DETECT_ACTION_PREFIX) then NonEmpty(s[|DETECT_ACTION_PREFIX|..])
      else if StartsWith(s, SYNC_PREFIX) then NonEmpty(s[|SYNC_PREFIX|..])
      else None
  }

  function MessageOwners(w: World, ws: nat, message: string): set<nat> {
    set m | m in w.messages + w.purged && m.ws == ws && m.message == message :: m.owner
  }

  datatype EvidenceOwnerResult = Owned(owner: nat) | Unowned(why: Reason)

  function EvidenceOwner(w: World, ws: nat, ref: Option<string>): EvidenceOwnerResult {
    match MessageIdFromSourceRef(ref)
    case None => Unowned(EvidenceSourceRefUnrecognised)
    case Some(message) =>
      var owners := MessageOwners(w, ws, message);
      if |owners| == 1 then Owned(TheOnly(owners))
      else if owners == {} then Unowned(EvidenceOwnerUnknown)
      else Unowned(EvidenceOwnerAmbiguous)
  }

  // ---------------------------------------------------------- per-table rules

  function ThreadOwner(w: World, ws: nat, thread: nat): Option<nat> {
    if thread in w.threads && w.threads[thread].ws == ws then Some(w.threads[thread].owner) else None
  }

  function ConnectorOwner(rows: map<Key, Row>, ws: nat, connector: nat): Option<nat> {
    var k := Key(ConnectorAccounts, connector);
    if Peer(rows, ws, k) then Some(rows[k].owner) else None
  }

  function SourceRefOf(rows: map<Key, Row>, ws: nat, evidence: nat): Option<string> {
    var k := Key(PkosEvidence, evidence);
    if Peer(rows, ws, k) && rows[k].facts.EvidenceFacts? then rows[k].facts.sourceRef else None
  }

  // Some cited Gmail evidence belongs to somebody else.
  predicate Contradicted(rows: map<Key, Row>, w: World, ws: nat, evidence: seq<nat>, mailbox: nat) {
    exists e :: e in evidence && IsGmailEvidence(rows, ws, e) &&
      var o := EvidenceOwner(w, ws, SourceRefOf(rows, ws, e));
      o.Owned? && o.owner != mailbox
  }

  function KeptUnless(owner: nat, mailbox: nat, contradicted: bool): Decision {
    if owner != mailbox || contradicted then Target(owner, Private, Some(OwnerNotMailboxOwner), true)
    else Target(mailbox, Private, None, true)
  }

  function RecommendationDecision(rows: map<Key, Row>, w: World, row: Row): Decision
    requires row.facts.RecommendationFacts?
  {
    var mailbox := row.facts.createdBy;
    KeptUnless(row.owner, mailbox, Contradicted(rows, w, row.ws, row.facts.evidence, mailbox))
  }

  function RunDecision(w: World, row: Row): Decision
    requires row.facts.RunFacts?
  {
    var mailbox := row.facts.actor;
    var contradicted := row.facts.thread.Some? &&
      var o := ThreadOwner(w, row.ws, row.facts.thread.value);
      o.Some? && o.value != mailbox;
    KeptUnless(row.owner, mailbox, contradicted)
  }

  // A step follows its parent run: the parent's owner is, for the step, a derived one.
  function Follow(parent: Decision): Decision {
    if parent.Target? then parent.(keepsOwner := false) else parent
  }

  function EvidenceDecision(o: EvidenceOwnerResult, vis: Visibility): Decision {
    if o.Owned? then Target(o.owner, vis, None, false) else Unresolved(o.why)
  }

  // ------------------------------------------------------------- derived rows

  // One earlier run's log entry for a derived row.
  datatype Earlier = Earlier(prevOwner: Option<nat>, derivedRule: bool)

  // Which log entries count as earlier history.
  datatype History = History(excludeRun: nat, before: Option<nat>)

  function RuleFlag(state: Option<Snapshot>): bool {
    !(state.Some? && state.value.DerivedSnapshot? && state.value.derivedRule == Some(false))
  }

  predicate Counts(log: map<LogKey, LogEntry>, h: History, l: LogKey)
    requires l in log
  {
    l.run != h.excludeRun && (h.before.Some? ==> log[l].at < h.before.value)
  }

  function EarlierOf(log: map<LogKey, LogEntry>, h: History, k: Key): set<Earlier> {
    set l | l in log && l.key == k && Counts(log, h, l) :: Earlier(log[l].prevOwner, RuleFlag(log[l].state))
  }

  function SourceDecision(rows: map<Key, Row>, w: World, k: Key): Option<Decision>
    requires k in rows
  {
    var ids := SourceIds(rows, rows[k].ws, k);
    if ids == {} then None
    else
      var source := Key(Recommendations, Least(ids));
      if source in rows && rows[source].facts.RecommendationFacts?
        then Some(RecommendationDecision(rows, w, rows[source])) else None
  }

  predicate Processed(vis: Visibility, earlier: set<Earlier>) {
    vis == Private && exists e :: e in earlier && e.derivedRule
  }

  // The owners the confirm may have written.
  function ConfirmOwners(source: nat, confirmer: nat, processed: bool): set<nat> {
    if processed then {source} else {source, confirmer}
  }

  function DerivedDecision(row: Row, source: Option<Decision>, earlier: set<Earlier>): Decision
    requires row.facts.DerivedFacts?
  {
    match source
    case None => Unresolved(DerivedSourceMissing)
    case Some(Unresolved(why)) => Unresolved(why)
    case Some(Target(owner, _, reason, _)) =>
      if reason.Some? then Target(row.owner, Private, reason, true)
      else if row.owner !in ConfirmOwners(owner, row.facts.confirmer, Processed(row.vis, earlier))
        then Target(row.owner, Private, Some(DerivedOwnerChanged), true)
      else Target(owner, Private, None, false)
  }

  // Re-owned by this or an earlier run to a member who is not active.
  function MarkInactive(w: World, row: Row, d: Decision, earlier: set<Earlier>): Decision {
    if d.Target? && d.reason.None? && !Active(w, row.ws, d.owner) &&
      (row.owner != d.owner || exists e :: e in earlier && e.prevOwner != Some(d.owner))
    then Target(d.owner, Private, Some(OwnerInactive), false) else d
  }

  // The log is read only where history can change the answer.
  predicate NeedsHistory(w: World, row: Row, alone: Decision) {
    alone.Target? && alone.reason.None? &&
    (!Active(w, row.ws, alone.owner) || (row.vis == Private && alone.owner != row.owner))
  }

  function DerivedRowDecision(rows: map<Key, Row>, w: World, log: map<LogKey, LogEntry>, h: History, k: Key)
    : Decision
    requires k in rows && rows[k].facts.DerivedFacts?
  {
    var row, source := rows[k], SourceDecision(rows, w, k);
    var alone := DerivedDecision(row, source, {});
    var earlier := if NeedsHistory(w, row, alone) then EarlierOf(log, h, k) else {};
    MarkInactive(w, row, DerivedDecision(row, source, earlier), earlier)
  }

  // ---------------------------------------------------------- one row's decision

  function Decide(rows: map<Key, Row>, w: World, log: map<LogKey, LogEntry>, h: History, k: Key): Decision
    requires k in rows && InSet(rows, k)
  {
    var row := rows[k];
    var f, ws := row.facts, row.ws;
    match k.table
    case ConnectorAccounts => Target(row.owner, Private, None, true)
    case SyncRuns | SyncCursors =>
      var o := ConnectorOwner(rows, ws, f.connector);
      if o.Some? then Target(o.value, Private, None, false)
      else Target(row.owner, Private, Some(ConnectorOwnerUnknown), true)
    case AttentionItems =>
      var o := ThreadOwner(w, ws, f.entity);
      if o.Some? then Target(o.value, Private, None, false) else Target(row.owner, Private, None, true)
    case Recommendations => RecommendationDecision(rows, w, row)
    case AiRuns => RunDecision(w, row)
    case AiRunSteps => Follow(RunDecision(w, rows[Key(AiRuns, f.run)]))
    case PkosEvidence => EvidenceDecision(EvidenceOwner(w, ws, f.sourceRef), Private)
    case EntityAliases => EvidenceDecision(EvidenceOwner(w, ws, SourceRefOf(rows, ws, f.source)), row.vis)
    case Tasks | Commitments | Risks => DerivedRowDecision(rows, w, log, h, k)
    case RecommendationFeedback | AttentionFeedback => Target(row.owner, row.vis, None, true)
  }

  // A backfill keeps an alias's owner rather than hand it to an inactive member.
  function RequireActiveAliasOwner(w: World, k: Key, row: Row, d: Decision): Decision {
    if k.table == EntityAliases && d.Target? && d.owner != row.owner && !Active(w, row.ws, d.owner)
    then Unresolved(AliasOwnerInactive) else d
  }

  function ActiveGrantIds(db: Db, k: Key): set<nat>
    requires k in db.rows
  {
    set g | g in db.grants && db.grants[g].resource == k && db.grants[g].ws == db.rows[k].ws
            && db.grants[g].revokedAt.None?
  }

  function GrantCount(db: Db, k: Key): nat
    requires k in db.rows
  {
    if k.table == EntityAliases then 0 else |ActiveGrantIds(db, k)|
  }

  // What a batch does with one row.
  datatype Outcome = Outcome(owner: nat, vis: Visibility, reason: Option<Reason>, grants: nat,
                             logged: bool, derivedRule: bool)

  function OutcomeOf(k: Key, row: Row, d: Decision, grants: nat): Outcome {
    match d
    case Unresolved(why) => Outcome(row.owner, row.vis, Some(why), grants, grants > 0, false)
    case Target(owner, vis, reason, _) =>
      Outcome(owner, vis, reason, grants, owner != row.owner || vis != row.vis || grants > 0,
              Derived(k.table) && reason in {None, Some(OwnerInactive), Some(DerivedOwnerChanged)})
  }

  function Judge(db: Db, w: World, run: nat, k: Key): Outcome
    requires k in db.rows && InSet(db.rows, k)
  {
    var row := db.rows[k];
    var d := Decide(db.rows, w, db.log, History(run, None), k);
    OutcomeOf(k, row, RequireActiveAliasOwner(w, k, row, d), GrantCount(db, k))
  }

  // --------------------------------------------------------------- properties

  // The message id is read back from both forms of reference the writers build.
  lemma MessageIdRoundTrip(id: string)
    ensures MessageIdFromSourceRef(Some(DETECT_ACTION_PREFIX + id)) == NonEmpty(id)
    ensures MessageIdFromSourceRef(Some(SYNC_PREFIX + id)) == Some(id)
      <==> id != "" && !StartsWith(id, "detect_action:")
  {
    var d, s := DETECT_ACTION_PREFIX + id, SYNC_PREFIX + id;
    assert d[..|DETECT_ACTION_PREFIX|] == DETECT_ACTION_PREFIX && d[|DETECT_ACTION_PREFIX|..] == id;
    assert s[..|SYNC_PREFIX|] == SYNC_PREFIX && s[|SYNC_PREFIX|..] == id;
    assert DETECT_ACTION_PREFIX == SYNC_PREFIX + "detect_action:";
    if StartsWith(id, "detect_action:") {
      assert s[..20] == SYNC_PREFIX + id[..14];
    }
    if StartsWith(s, DETECT_ACTION_PREFIX) {
      assert s[..20][6..] == id[..14] == DETECT_ACTION_PREFIX[6..];
    }
  }

  // Reading the log only for the rows that need it decides as reading it for all of them.
  lemma LazyHistoryIsFullHistory(rows: map<Key, Row>, w: World, log: map<LogKey, LogEntry>, h: History, k: Key)
    requires k in rows && rows[k].facts.DerivedFacts?
    ensures var row, earlier := rows[k], EarlierOf(log, h, k);
      DerivedRowDecision(rows, w, log, h, k)
        == MarkInactive(w, row, DerivedDecision(row, SourceDecision(rows, w, k), earlier), earlier)
  {
  }
}
