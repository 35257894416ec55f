// Operator remediation of audit findings on connectors: disconnecting rows, recording
// reviews, and revoking the provider grant where nothing else depends on it.
module Remediation {
  import opened Records

  datatype Check = A | B | D | E

  datatype Target = Target(check: Check, row: nat)

  // The rows of the personal data set, connectors of every workspace and provider included.
  datatype Subject =
    | Connector(ws: nat, provider: Provider, account: string, owner: nat, mismatch: bool,
                connected: bool, version: nat, credential: bool)
    | OtherRow(ws: nat)

  datatype Reconnect = Reconnect(row: nat, actor: Option<nat>)

  // What the audit reads besides the rows: transfers of rows, reconnects, removed members.
  datatype Evidence = Evidence(transfers: map<nat, nat>, reconnects: map<nat, Reconnect>, removed: map<nat, Membership>)

  datatype Finding = Finding(ref: Option<nat>, mismatch: bool)

  datatype Review = Review(row: nat, check: Check, ref: Option<nat>)

  datatype Outcome =
    | Disconnected | AlreadyDisconnected | ReviewRecorded | AlreadyRecorded
    | WouldDisconnect | WouldRecord | NotFlagged | NotConfirmed

  datatype Revoke =
    | NoRevoke | Ok | Error | SkippedUnsafe | CredentialUnavailable | Interrupted | WouldRevoke | WouldSkipUnsafe

  datatype Result = Result(target: Target, outcome: Outcome, revoke: Revoke)

  datatype Scope = PerToken | Global

  // How the world outside answers for a row: whether the safety check itself fails, and
  // whether the provider confirms a revoke.
  datatype Answers = Answers(checkFails: nat -> bool, confirms: nat -> bool)

  datatype State = State(rows: map<nat, Subject>, reviews: set<Review>)

  // ------------------------------------------------------------------------ the audit

  function Findings(rows: map<nat, Subject>, e: Evidence, ws: nat, t: Target): set<Finding> {
    if t.row !in rows || rows[t.row].ws != ws || (rows[t.row].Connector? && rows[t.row].provider != Gmail) then {}
    else
      var s := rows[t.row];
      var mismatch := s.Connector? && s.mismatch;
      match t.check
      case A => if mismatch then {Finding(None, true)} else {}
      case B => set x | x in e.transfers && e.transfers[x] == t.row :: Finding(Some(x), mismatch)
      case D =>
        if s.Connector? then
          set x | x in e.reconnects && e.reconnects[x].row == t.row && e.reconnects[x].actor != Some(s.owner)
            :: Finding(Some(x), mismatch)
        else {}
      case E =>
        if s.Connector? then
          set x | x in e.removed && e.removed[x] == Membership(ws, s.owner) :: Finding(Some(x), mismatch)
        else {}
  }

  // A and E disconnect; B and D only a connector whose identity mismatches.
  predicate Disconnects(rows: map<nat, Subject>, e: Evidence, ws: nat, t: Target) {
    var findings := Findings(rows, e, ws, t);
    findings != {} && rows[t.row].Connector? && (t.check in {A, E} || exists f :: f in findings && f.mismatch)
  }

  function NewReviews(st: State, e: Evidence, ws: nat, t: Target): set<Review> {
    (set f | f in Findings(st.rows, e, ws, t) :: Review(t.row, t.check, f.ref)) - st.reviews
  }

  // Another live row of the account, in any workspace.
  predicate Rival(rows: map<nat, Subject>, r: nat, provider: Provider, account: string, exclude: nat) {
    r in rows && rows[r].Connector? && r != exclude && rows[r].connected
    && rows[r].provider == provider && rows[r].account == account
  }

  // Nothing else alive depends on the grant.
  predicate RevokeIsSafe(rows: map<nat, Subject>, provider: Provider, account: string, exclude: nat, scope: Scope) {
    scope == Global ==> !exists r :: r in rows && Rival(rows, r, provider, account, exclude)
  }

  // ------------------------------------------------------ one target, dry and for real

  // What a transaction reports for the target, and the state it leaves.
  function Act(st: State, e: Evidence, ws: nat, t: Target): (Outcome, State) {
    if Findings(st.rows, e, ws, t) == {} then (NotFlagged, st)
    else if Disconnects(st.rows, e, ws, t) then
      var s := st.rows[t.row];
      if !s.connected then (AlreadyDisconnected, st)
      else (Disconnected, st.(rows := st.rows[t.row := s.(connected := false, version := s.version + 1)]))
    else if NewReviews(st, e, ws, t) == {} then (AlreadyRecorded, st)
    else (ReviewRecorded, st.(reviews := st.reviews + NewReviews(st, e, ws, t)))
  }

  function Would(o: Outcome): Outcome {
    match o
    case Disconnected => WouldDisconnect
    case ReviewRecorded => WouldRecord
    case _ => o
  }

  // After the commit: is the grant revoked, and is the provider called at all?
  function RevokeOf(rows: map<nat, Subject>, scope: Scope, answers: Answers, row: nat): (Revoke, bool)
    requires row in rows && rows[row].Connector?
  {
    var s := rows[row];
    if s.provider != Gmail then (NoRevoke, false)
    else if !s.credential then (CredentialUnavailable, false)
    else if scope == Global && answers.checkFails(row) then (Error, false)
    else if !RevokeIsSafe(rows, s.provider, s.account, row, scope) then (SkippedUnsafe, false)
    else (if answers.confirms(row) then Ok else Error, true)
  }

  function RealResult(st: State, e: Evidence, ws: nat, scope: Scope, answers: Answers, t: Target): (Result, bool) {
    var (outcome, after) := Act(st, e, ws, t);
    if outcome == Disconnected && t.row in after.rows && after.rows[t.row].Connector? then
      var (revoke, called) := RevokeOf(after.rows, scope, answers, t.row);
      (Result(t, outcome, revoke), called)
    else (Result(t, outcome, NoRevoke), false)
  }

  // ------------------------------------------- one target, on the rows and the evidence

  // A row the audit looks at: of the workspace, and a Gmail one if it is a connector.
  ghost predicate Audited(st: State, ws: nat, row: nat) {
    && row in st.rows && st.rows[row].ws == ws
    && (st.rows[row].Connector? ==> st.rows[row].provider == Gmail)
  }

  ghost predicate AuditedConnector(st: State, ws: nat, row: nat) {
    Audited(st, ws, row) && st.rows[row].Connector?
  }

  ghost predicate Mismatched(st: State, ws: nat, row: nat) {
    AuditedConnector(st, ws, row) && st.rows[row].mismatch
  }

  ghost predicate TransferOf(e: Evidence, x: nat, row: nat) {
    x in e.transfers && e.transfers[x] == row
  }

  // A reconnect of the connector by somebody other than its owner.
  ghost predicate ForeignReconnect(st: State, e: Evidence, ws: nat, x: nat, row: nat) {
    && AuditedConnector(st, ws, row)
    && x in e.reconnects && e.reconnects[x].row == row && e.reconnects[x].actor != Some(st.rows[row].owner)
  }

  ghost predicate OwnerRemoved(st: State, e: Evidence, ws: nat, x: nat, row: nat) {
    && AuditedConnector(st, ws, row)
    && x in e.removed && e.removed[x].ws == ws && e.removed[x].user == st.rows[row].owner
  }

  // Why a connector is to be disconnected, check by check.
  ghost predicate ToDisconnect(st: State, e: Evidence, ws: nat, t: Target) {
    || (t.check == A && Mismatched(st, ws, t.row))
    || (t.check == E && exists x :: OwnerRemoved(st, e, ws, x, t.row))
    || (t.check == B && Mismatched(st, ws, t.row) && exists x :: TransferOf(e, x, t.row))
    || (t.check == D && Mismatched(st, ws, t.row) && exists x :: ForeignReconnect(st, e, ws, x, t.row))
  }

  // A transfer or a foreign reconnect to be reviewed: its row is no mismatched connector.
  ghost predicate ToReview(st: State, e: Evidence, ws: nat, t: Target, x: nat) {
    && Audited(st, ws, t.row) && !Mismatched(st, ws, t.row)
    && ((t.check == B && TransferOf(e, x, t.row)) || (t.check == D && ForeignReconnect(st, e, ws, x, t.row)))
  }

  ghost predicate Reviewed(st: State, t: Target, x: nat) {
    Review(t.row, t.check, Some(x)) in st.reviews
  }

  // What a transaction reports for the target, each outcome exactly when it is due, and what
  // it writes.
  ghost predicate Decided(st: State, e: Evidence, ws: nat, t: Target, did: Outcome, after: State) {
    var cut := ToDisconnect(st, e, ws, t);
    var live := t.row in st.rows && st.rows[t.row].Connector? && st.rows[t.row].connected;
    && (did == Disconnected <==> cut && live)
    && (did == AlreadyDisconnected <==> cut && !live)
    && (did == ReviewRecorded <==> exists x :: ToReview(st, e, ws, t, x) && !Reviewed(st, t, x))
    && (did == AlreadyRecorded
        <==> (exists x :: ToReview(st, e, ws, t, x)) && forall x :: ToReview(st, e, ws, t, x) ==> Reviewed(st, t, x))
    && (did == NotFlagged <==> !cut && !exists x :: ToReview(st, e, ws, t, x))
    && Writes(st, e, ws, t, did, after)
  }

  // A disconnect writes its own row; a review, one record for each finding; the rest nothing.
  ghost predicate Writes(st: State, e: Evidence, ws: nat, t: Target, did: Outcome, after: State) {
    && (did != Disconnected ==> after.rows == st.rows)
    && (did == Disconnected ==>
          && after.rows.Keys == st.rows.Keys
          && t.row in st.rows && st.rows[t.row].Connector? && after.rows[t.row].Connector?
          && !after.rows[t.row].connected && after.rows[t.row].version == st.rows[t.row].version + 1
          && after.rows[t.row].(connected := true, version := st.rows[t.row].version) == st.rows[t.row]
          && forall r :: r in st.rows && r != t.row ==> after.rows[r] == st.rows[r])
    && (forall v :: v in after.reviews <==>
          || v in st.reviews
          || (did == ReviewRecorded && v.ref.Some? && v == Review(t.row, t.check, v.ref)
              && ToReview(st, e, ws, t, v.ref.value)))
  }

  // Any finding is one of these; each of these is a finding.
  lemma EachFinding(st: State, e: Evidence, ws: nat, t: Target, f: Finding)
    ensures f in Findings(st.rows, e, ws, t)
      <==> && f.mismatch == Mismatched(st, ws, t.row)
           && match t.check
              case A => f.mismatch && f.ref.None?
              case B => f.ref.Some? && Audited(st, ws, t.row) && TransferOf(e, f.ref.value, t.row)
              case D => f.ref.Some? && ForeignReconnect(st, e, ws, f.ref.value, t.row)
              case E => f.ref.Some? && OwnerRemoved(st, e, ws, f.ref.value, t.row)
  {
  }

  lemma DisconnectsOnColumns(st: State, e: Evidence, ws: nat, t: Target)
    ensures Disconnects(st.rows, e, ws, t) <==> ToDisconnect(st, e, ws, t)
    ensures Findings(st.rows, e, ws, t) == {}
      <==> !ToDisconnect(st, e, ws, t) && !exists x :: ToReview(st, e, ws, t, x)
  {
    hide Findings;
    ghost var found, mismatch := Findings(st.rows, e, ws, t), Mismatched(st, ws, t.row);
    forall f ensures f in found ==> ToDisconnect(st, e, ws, t) || exists x :: ToReview(st, e, ws, t, x)
      ensures f in found ==> f.mismatch == mismatch && Audited(st, ws, t.row)
    {
      EachFinding(st, e, ws, t, f);
      if f in found && t.check in {B, D} && !mismatch { assert ToReview(st, e, ws, t, f.ref.value); }
    }
    EachFinding(st, e, ws, t, Finding(None, true));
    forall x: nat
      ensures t.check == B && Audited(st, ws, t.row) && TransferOf(e, x, t.row) ==> Finding(Some(x), mismatch) in found
      ensures t.check == D && ForeignReconnect(st, e, ws, x, t.row) ==> Finding(Some(x), mismatch) in found
      ensures t.check == E && OwnerRemoved(st, e, ws, x, t.row) ==> Finding(Some(x), mismatch) in found
    {
      EachFinding(st, e, ws, t, Finding(Some(x), mismatch));
    }
  }

  lemma ReviewsOnColumns(st: State, e: Evidence, ws: nat, t: Target, v: Review)
    requires !ToDisconnect(st, e, ws, t)
    ensures v in NewReviews(st, e, ws, t)
      <==> v !in st.reviews && v.ref.Some? && v == Review(t.row, t.check, v.ref) && ToReview(st, e, ws, t, v.ref.value)
  {
    hide Findings;
    EachFinding(st, e, ws, t, Finding(v.ref, false));
    forall f ensures f in Findings(st.rows, e, ws, t) ==> !f.mismatch {
      EachFinding(st, e, ws, t, f);
    }
  }

  lemma DecidedByAct(st: State, e: Evidence, ws: nat, t: Target)
    ensures Decided(st, e, ws, t, Act(st, e, ws, t).0, Act(st, e, ws, t).1)
  {
    hide Findings, Disconnects, NewReviews, ToDisconnect, ToReview;
    DisconnectsOnColumns(st, e, ws, t);
    NeverBoth(st, e, ws, t);
    if !ToDisconnect(st, e, ws, t) {
      forall v ensures v in NewReviews(st, e, ws, t)
        <==> v !in st.reviews && v.ref.Some? && v == Review(t.row, t.check, v.ref) && ToReview(st, e, ws, t, v.ref.value)
      {
        ReviewsOnColumns(st, e, ws, t, v);
      }
    }
  }

  lemma NeverBoth(st: State, e: Evidence, ws: nat, t: Target)
    ensures ToDisconnect(st, e, ws, t) ==> t.row in st.rows && st.rows[t.row].Connector?
    ensures ToDisconnect(st, e, ws, t) ==> forall x :: !ToReview(st, e, ws, t, x)
  {
  }

  // The state once the targets have been gone through.
  function Done(st: State, e: Evidence, ws: nat, todo: seq<Target>): State {
    if todo == [] then st
    else
      var n := |todo| - 1;
      Act(Done(st, e, ws, todo[..n]), e, ws, todo[n]).1
  }

  // Whether the grant could be revoked, as far as a dry run can tell.
  function Predicted(rows: map<nat, Subject>, scope: Scope, row: nat): Revoke
    requires row in rows && rows[row].Connector?
  {
    var s := rows[row];
    if RevokeIsSafe(rows, s.provider, s.account, row, if s.provider == Gmail then scope else PerToken)
      then WouldRevoke else WouldSkipUnsafe
  }

  lemma DisconnectsConnector(st: State, e: Evidence, ws: nat, t: Target)
    requires Act(st, e, ws, t).0 == Disconnected
    ensures t.row in st.rows && st.rows[t.row].Connector?
    ensures t.row in Act(st, e, ws, t).1.rows && Act(st, e, ws, t).1.rows[t.row].Connector?
  {
  }

  // A dry run reads the unchanged state; a row's later targets find it disconnected.
  function DryResult(st: State, e: Evidence, ws: nat, scope: Scope, earlier: seq<Target>, t: Target): Result {
    var outcome := Act(st, e, ws, t).0;
    if outcome != Disconnected then Result(t, Would(outcome), NoRevoke)
    else if exists x :: x in earlier && x.row == t.row && Act(st, e, ws, x).0 == Disconnected
      then Result(t, AlreadyDisconnected, NoRevoke)
    else
      DisconnectsConnector(st, e, ws, t);
      Result(t, WouldDisconnect, Predicted(st.rows, scope, t.row))
  }

  function DryResults(st: State, e: Evidence, ws: nat, scope: Scope, todo: seq<Target>): (q: seq<Result>)
    ensures |q| == |todo|
  {
    if todo == [] then []
    else
      var n := |todo| - 1;
      DryResults(st, e, ws, scope, todo[..n]) + [DryResult(st, e, ws, scope, todo[..n], todo[n])]
  }

  function RealResults(st: State, e: Evidence, ws: nat, scope: Scope, answers: Answers, todo: seq<Target>): (q: seq<Result>)
    ensures |q| == |todo|
  {
    if todo == [] then []
    else
      var n := |todo| - 1;
      RealResults(st, e, ws, scope, answers, todo[..n])
      + [RealResult(Done(st, e, ws, todo[..n]), e, ws, scope, answers, todo[n]).0]
  }

  // The rows whose grant the provider is asked to revoke.
  function Calls(st: State, e: Evidence, ws: nat, scope: Scope, answers: Answers, todo: seq<Target>): seq<nat> {
    if todo == [] then []
    else
      var n := |todo| - 1;
      Calls(st, e, ws, scope, answers, todo[..n])
      + (if RealResult(Done(st, e, ws, todo[..n]), e, ws, scope, answers, todo[n]).1 then [todo[n].row] else [])
  }

  function Kept(targets: seq<Target>, declined: set<Target>): (q: seq<Target>)
    ensures forall t :: t in q <==> t in targets && t !in declined
  {
    if targets == [] then []
    else (if targets[0] in declined then [] else [targets[0]]) + Kept(targets[1..], declined)
  }

  function Refused(targets: seq<Target>, declined: set<Target>): seq<Result> {
    if targets == [] then []
    else (if targets[0] in declined then [Result(targets[0], NotConfirmed, NoRevoke)] else [])
         + Refused(targets[1..], declined)
  }

  // ------------------------------------------------------------------- properties

  // The remediation changes nothing the audit looks at.
  lemma {:induction false} FindingsStay(a: map<nat, Subject>, b: map<nat, Subject>, e: Evidence, ws: nat, t: Target)
    requires SameSubjects(a, b)
    ensures Findings(a, e, ws, t) == Findings(b, e, ws, t)
    ensures Disconnects(a, e, ws, t) == Disconnects(b, e, ws, t)
  {
  }

  // The rows are the same but for the connection and its version.
  ghost predicate SameSubjects(a: map<nat, Subject>, b: map<nat, Subject>) {
    && a.Keys == b.Keys
    && forall r :: r in a ==>
         && a[r].Connector? == b[r].Connector?
         && (a[r].Connector? ==> b[r] == a[r].(connected := b[r].connected, version := b[r].version))
         && (a[r].OtherRow? ==> b[r] == a[r])
  }

  // Some target of the list disconnects the row.
  ghost predicate Hit(st: State, e: Evidence, ws: nat, todo: seq<Target>, row: nat) {
    exists x :: x in todo && x.row == row && Act(st, e, ws, x).0 == Disconnected
  }

  ghost predicate Live(rows: map<nat, Subject>, r: nat) {
    r in rows && rows[r].Connector? && rows[r].connected
  }

  ghost predicate Recorded(st: State, e: Evidence, ws: nat, todo: seq<Target>, v: Review) {
    exists x :: x in todo && Act(st, e, ws, x).0 == ReviewRecorded && v in NewReviews(st, e, ws, x)
  }

  // What the targets gone through amount to, whatever their order.
  ghost predicate Summary(st: State, e: Evidence, ws: nat, todo: seq<Target>, end: State) {
    && SameSubjects(st.rows, end.rows)
    && (forall r :: Live(end.rows, r) <==> Live(st.rows, r) && !Hit(st, e, ws, todo, r))
    && (forall v :: v in end.reviews <==> v in st.reviews || Recorded(st, e, ws, todo, v))
  }

  // A target's outcome after others have been gone through.
  lemma ActLater(st: State, e: Evidence, ws: nat, todo: seq<Target>, mid: State, t: Target)
    requires Summary(st, e, ws, todo, mid)
    ensures var now, later := Act(st, e, ws, t).0, Act(mid, e, ws, t).0;
      && (now !in {Disconnected, ReviewRecorded} ==> later == now && Act(mid, e, ws, t).1 == mid)
      && (now == Disconnected ==> later == if Hit(st, e, ws, todo, t.row) then AlreadyDisconnected else Disconnected)
      && (now == ReviewRecorded ==> later in {ReviewRecorded, AlreadyRecorded})
      && (now == ReviewRecorded && t !in todo ==> later == ReviewRecorded)
      && (later in {AlreadyDisconnected, AlreadyRecorded, NotFlagged} ==> Act(mid, e, ws, t).1 == mid)
      && (now == ReviewRecorded && t in todo ==> later == AlreadyRecorded)
  {
    FindingsStay(st.rows, mid.rows, e, ws, t);
    var a, b := NewReviews(st, e, ws, t), NewReviews(mid, e, ws, t);
    assert b <= a;
    if Act(st, e, ws, t).0 == Disconnected {
      assert Live(st.rows, t.row);
      assert Live(mid.rows, t.row) <==> !Hit(st, e, ws, todo, t.row);
    } else if Act(st, e, ws, t).0 == AlreadyDisconnected {
      assert !Live(st.rows, t.row);
      assert !Live(mid.rows, t.row);
    } else if Act(st, e, ws, t).0 == ReviewRecorded {
      if t in todo {
        forall v | v in a ensures v in mid.reviews { assert Recorded(st, e, ws, todo, v); }
        assert b == {};
      } else {
        forall v | v in a ensures v in b {
          assert forall x :: x in todo && v in NewReviews(st, e, ws, x) ==> x == t;
        }
      }
    }
  }

  lemma {:induction false} DoneIs(st: State, e: Evidence, ws: nat, todo: seq<Target>)
    ensures Summary(st, e, ws, todo, Done(st, e, ws, todo))
    decreases |todo|
  {
    if todo != [] {
      var n := |todo| - 1;
      DoneIs(st, e, ws, todo[..n]);
      SummaryGrows(st, e, ws, todo[..n], Done(st, e, ws, todo[..n]), todo[n]);
      assert todo[..n] + [todo[n]] == todo;
    }
  }

  lemma SummaryGrows(st: State, e: Evidence, ws: nat, todo: seq<Target>, mid: State, t: Target)
    requires Summary(st, e, ws, todo, mid)
    ensures Summary(st, e, ws, todo + [t], Act(mid, e, ws, t).1)
  {
    var end, more := Act(mid, e, ws, t).1, todo + [t];
    ActLater(st, e, ws, todo, mid, t);
    FindingsStay(st.rows, mid.rows, e, ws, t);
    forall r ensures Live(end.rows, r) <==> Live(st.rows, r) && !Hit(st, e, ws, more, r) {
      HitGrows(st, e, ws, todo, t, r);
      assert Live(mid.rows, r) <==> Live(st.rows, r) && !Hit(st, e, ws, todo, r);
    }
    forall v ensures v in end.reviews <==> v in st.reviews || Recorded(st, e, ws, more, v) {
      RecordedGrows(st, e, ws, todo, t, v);
    }
  }

  lemma HitGrows(st: State, e: Evidence, ws: nat, todo: seq<Target>, t: Target, r: nat)
    ensures Hit(st, e, ws, todo + [t], r)
      <==> Hit(st, e, ws, todo, r) || (t.row == r && Act(st, e, ws, t).0 == Disconnected)
  {
    assert forall x :: x in todo + [t] <==> x in todo || x == t;
  }

  lemma RecordedGrows(st: State, e: Evidence, ws: nat, todo: seq<Target>, t: Target, v: Review)
    ensures Recorded(st, e, ws, todo + [t], v)
      <==> Recorded(st, e, ws, todo, v) || (Act(st, e, ws, t).0 == ReviewRecorded && v in NewReviews(st, e, ws, t))
  {
    assert forall x :: x in todo + [t] <==> x in todo || x == t;
  }

  // The state after a run, on the rows and the evidence it began with: a connector is live
  // unless a target has it disconnected, and what is to be reviewed is.
  lemma DoneOnColumns(st: State, e: Evidence, ws: nat, todo: seq<Target>)
    ensures var end := Done(st, e, ws, todo);
      && SameSubjects(st.rows, end.rows)
      && (forall r :: Live(end.rows, r)
            <==> Live(st.rows, r) && !exists x :: x in todo && x.row == r && ToDisconnect(st, e, ws, x))
      && (forall v :: v in end.reviews
            <==> || v in st.reviews
                 || (v.ref.Some? && Target(v.check, v.row) in todo
                     && ToReview(st, e, ws, Target(v.check, v.row), v.ref.value)))
  {
    hide ToDisconnect, ToReview, Act, Done;
    ghost var end := Done(st, e, ws, todo);
    DoneIs(st, e, ws, todo);
    forall t ensures Decided(st, e, ws, t, Act(st, e, ws, t).0, Act(st, e, ws, t).1)
    {
      DecidedByAct(st, e, ws, t);
    }
    forall r ensures Live(end.rows, r)
      <==> Live(st.rows, r) && !exists x :: x in todo && x.row == r && ToDisconnect(st, e, ws, x)
    {
      assert Live(end.rows, r) <==> Live(st.rows, r) && !Hit(st, e, ws, todo, r);
    }
    forall v ensures v in end.reviews
      <==> || v in st.reviews
           || (v.ref.Some? && Target(v.check, v.row) in todo
               && ToReview(st, e, ws, Target(v.check, v.row), v.ref.value))
    {
      RecordedOnColumns(st, e, ws, todo, v);
    }
  }

  lemma RecordedOnColumns(st: State, e: Evidence, ws: nat, todo: seq<Target>, v: Review)
    ensures v in st.reviews || Recorded(st, e, ws, todo, v)
      <==> || v in st.reviews
           || (v.ref.Some? && Target(v.check, v.row) in todo
               && ToReview(st, e, ws, Target(v.check, v.row), v.ref.value))
  {
    hide ToDisconnect, ToReview, Findings, Disconnects, NewReviews;
    forall t ensures Act(st, e, ws, t).0 == ReviewRecorded && v in NewReviews(st, e, ws, t)
      <==> v !in st.reviews && v.ref.Some? && v == Review(t.row, t.check, v.ref) && ToReview(st, e, ws, t, v.ref.value)
    {
      DisconnectsOnColumns(st, e, ws, t);
      NeverBoth(st, e, ws, t);
      if !ToDisconnect(st, e, ws, t) { ReviewsOnColumns(st, e, ws, t, v); }
    }
    if v !in st.reviews && v.ref.Some? && Target(v.check, v.row) in todo
      && ToReview(st, e, ws, Target(v.check, v.row), v.ref.value) {
      ghost var t := Target(v.check, v.row);
      assert t in todo && Act(st, e, ws, t).0 == ReviewRecorded && v in NewReviews(st, e, ws, t);
    }
  }

  // The outcomes of a real run, target by target.
  lemma {:induction false} EachDecided(st: State, e: Evidence, ws: nat, scope: Scope, answers: Answers,
                                       todo: seq<Target>, i: nat)
    requires i < |todo|
    ensures var result := RealResults(st, e, ws, scope, answers, todo)[i];
      && result.target == todo[i]
      && Decided(Done(st, e, ws, todo[..i]), e, ws, todo[i], result.outcome, Done(st, e, ws, todo[..i + 1]))
    decreases |todo|
  {
    hide Act, Decided, RealResult;
    var n := |todo| - 1;
    if i < n {
      EachDecided(st, e, ws, scope, answers, todo[..n], i);
      assert todo[..n][..i] == todo[..i] && todo[..n][..i + 1] == todo[..i + 1];
    } else {
      assert todo[..i + 1] == todo;
      DecidedByAct(Done(st, e, ws, todo[..n]), e, ws, todo[n]);
      OnlyOutcomes(Done(st, e, ws, todo[..n]), e, ws, scope, answers, todo[n]);
    }
  }

  // The declined targets are reported and the others gone through in the order given.
  lemma {:induction false} InOrder(a: seq<Target>, b: seq<Target>, declined: set<Target>)
    ensures Kept(a + b, declined) == Kept(a, declined) + Kept(b, declined)
    ensures Refused(a + b, declined) == Refused(a, declined) + Refused(b, declined)
  {
    if a == [] {
      assert a + b == b;
    } else {
      InOrder(a[1..], b, declined);
      assert (a + b)[1..] == a[1..] + b;
      Assoc(if a[0] in declined then [] else [a[0]], Kept(a[1..], declined), Kept(b, declined));
      Assoc(if a[0] in declined then [Result(a[0], NotConfirmed, NoRevoke)] else [],
            Refused(a[1..], declined), Refused(b, declined));
    }
  }

  lemma OneTarget(t: Target, declined: set<Target>)
    ensures Kept([t], declined) == if t in declined then [] else [t]
    ensures Refused([t], declined) == if t in declined then [Result(t, NotConfirmed, NoRevoke)] else []
  {
  }

  lemma Assoc<T>(x: seq<T>, y: seq<T>, z: seq<T>)
    ensures x + (y + z) == (x + y) + z
  {
  }

  ghost predicate Distinct(todo: seq<Target>) {
    forall i, j :: 0 <= i < j < |todo| ==> todo[i] != todo[j]
  }

  // The dry run's outcomes are the real run's, with `would_` in front, for any list of
  // distinct targets, several checks per row included.
  lemma {:induction false} DryRunSimulates(st: State, e: Evidence, ws: nat, scope: Scope, answers: Answers,
                                           todo: seq<Target>, i: nat)
    requires Distinct(todo) && i < |todo|
    ensures var dry, actual := DryResults(st, e, ws, scope, todo), RealResults(st, e, ws, scope, answers, todo);
      dry[i].target == actual[i].target == todo[i] && dry[i].outcome == Would(actual[i].outcome)
    decreases |todo|
  {
    hide Act, RealResult, DryResult, Summary;
    var n := |todo| - 1;
    if i < n {
      DryRunSimulates(st, e, ws, scope, answers, todo[..n], i);
    } else {
      DoneIs(st, e, ws, todo[..n]);
      ActLater(st, e, ws, todo[..n], Done(st, e, ws, todo[..n]), todo[n]);
      OnlyOutcomes(st, e, ws, scope, answers, todo[n]);
      OnlyOutcomes(Done(st, e, ws, todo[..n]), e, ws, scope, answers, todo[n]);
      DryOutcome(st, e, ws, scope, todo[..n], todo[n]);
      assert todo[n] !in todo[..n];
    }
  }

  lemma DryOutcome(st: State, e: Evidence, ws: nat, scope: Scope, earlier: seq<Target>, t: Target)
    ensures var d, o := DryResult(st, e, ws, scope, earlier, t), Act(st, e, ws, t).0;
      && d.target == t
      && d.outcome == if o == Disconnected && Hit(st, e, ws, earlier, t.row) then AlreadyDisconnected else Would(o)
  {
  }

  // An immediate re-run over the same targets writes nothing and calls no provider.
  lemma {:induction false} RerunWritesNothing(st: State, e: Evidence, ws: nat, scope: Scope, answers: Answers,
                                              todo: seq<Target>, again: seq<Target>)
    requires forall t :: t in again ==> t in todo
    ensures var end := Done(st, e, ws, todo);
      && Done(end, e, ws, again) == end
      && Calls(end, e, ws, scope, answers, again) == []
      && forall i :: 0 <= i < |again| ==>
           RealResults(end, e, ws, scope, answers, again)[i].outcome in {NotFlagged, AlreadyDisconnected, AlreadyRecorded}
    decreases |again|
  {
    hide Act, RealResult, Summary, Hit;
    if again != [] {
      var n := |again| - 1;
      ghost var end := Done(st, e, ws, todo);
      RerunWritesNothing(st, e, ws, scope, answers, todo, again[..n]);
      DoneIs(st, e, ws, todo);
      ActLater(st, e, ws, todo, end, again[n]);
      if Act(st, e, ws, again[n]).0 == Disconnected { HitBy(st, e, ws, todo, again[n]); }
      OnlyOutcomes(st, e, ws, scope, answers, again[n]);
      OnlyOutcomes(end, e, ws, scope, answers, again[n]);
    }
  }

  lemma HitBy(st: State, e: Evidence, ws: nat, todo: seq<Target>, t: Target)
    requires t in todo && Act(st, e, ws, t).0 == Disconnected
    ensures Hit(st, e, ws, todo, t.row)
  {
  }

  lemma OnlyOutcomes(st: State, e: Evidence, ws: nat, scope: Scope, answers: Answers, t: Target)
    ensures Act(st, e, ws, t).0 in {NotFlagged, Disconnected, AlreadyDisconnected, ReviewRecorded, AlreadyRecorded}
    ensures Act(st, e, ws, t).0 != Disconnected ==>
      RealResult(st, e, ws, scope, answers, t) == (Result(t, Act(st, e, ws, t).0, NoRevoke), false)
    ensures RealResult(st, e, ws, scope, answers, t).0.target == t
    ensures RealResult(st, e, ws, scope, answers, t).0.outcome == Act(st, e, ws, t).0
  {
  }

  // The provider is asked to revoke a grant only when, under the global scope, no other live
  // row of any workspace uses the account; it stays so to the end of the run.
  lemma {:induction false} CallsAreSafe(st: State, e: Evidence, ws: nat, answers: Answers, todo: seq<Target>, row: nat, other: nat)
    requires row in Calls(st, e, ws, Global, answers, todo)
    ensures var rows := Done(st, e, ws, todo).rows;
      && row in rows && rows[row].Connector? && rows[row].provider == Gmail && !rows[row].connected
      && !Rival(rows, other, Gmail, rows[row].account, row)
    decreases |todo|
  {
    hide Findings, Disconnects, NewReviews;
    var n := |todo| - 1;
    if row in Calls(st, e, ws, Global, answers, todo[..n]) {
      CallsAreSafe(st, e, ws, answers, todo[..n], row, other);
    }
    ActDisconnects(Done(st, e, ws, todo[..n]), e, ws, todo[n]);
  }

  // A step disconnects its own row or leaves the rows alone.
  lemma ActDisconnects(st: State, e: Evidence, ws: nat, t: Target)
    ensures var (outcome, after) := Act(st, e, ws, t);
      && SameSubjects(st.rows, after.rows)
      && (outcome != Disconnected ==> after.rows == st.rows)
      && (outcome == Disconnected ==>
            t.row in st.rows && st.rows[t.row].Connector? && st.rows[t.row].provider == Gmail
            && st.rows[t.row].connected && !after.rows[t.row].connected
            && forall r :: r in st.rows && r != t.row ==> after.rows[r] == st.rows[r])
  {
  }

  // The revoke column of the dry run says what the real one does: a revoke the provider is
  // asked for, one skipped as unsafe, or none.
  predicate Corresponds(dry: Revoke, done: (Result, bool)) {
    match dry
    case WouldRevoke => done.1
    case WouldSkipUnsafe => done.0.revoke == SkippedUnsafe
    case _ => done.0.revoke == NoRevoke
  }

  // A target the run disconnects, against the rows as they were before the run.
  lemma DisconnectedNow(st: State, e: Evidence, ws: nat, todo: seq<Target>, t: Target)
    requires Act(Done(st, e, ws, todo), e, ws, t).0 == Disconnected
    ensures var after := Act(Done(st, e, ws, todo), e, ws, t).1.rows;
      && t.row in st.rows && st.rows[t.row].Connector? && st.rows[t.row].provider == Gmail
      && Act(st, e, ws, t).0 == Disconnected && !Hit(st, e, ws, todo, t.row)
      && t.row in after && after[t.row].Connector? && after[t.row].provider == Gmail
      && after[t.row].credential == st.rows[t.row].credential && after[t.row].account == st.rows[t.row].account
      && forall r :: Rival(after, r, Gmail, st.rows[t.row].account, t.row)
           <==> Rival(st.rows, r, Gmail, st.rows[t.row].account, t.row) && !Hit(st, e, ws, todo, r)
  {
    hide Findings, Disconnects, NewReviews, Act;
    ghost var mid := Done(st, e, ws, todo);
    ghost var after := Act(mid, e, ws, t).1;
    DoneIs(st, e, ws, todo);
    ActLater(st, e, ws, todo, mid, t);
    OnlyOutcomes(st, e, ws, Global, Answers(r => false, r => false), t);
    ActDisconnects(mid, e, ws, t);
    ActDisconnects(st, e, ws, t);
    ghost var account := st.rows[t.row].account;
    forall r
      ensures Rival(after.rows, r, Gmail, account, t.row) <==> Rival(st.rows, r, Gmail, account, t.row) && !Hit(st, e, ws, todo, r)
    {
      assert Live(mid.rows, r) <==> Live(st.rows, r) && !Hit(st, e, ws, todo, r);
    }
  }

  // For every scope, credential and answer, the two revoke columns correspond exactly when
  // the target disconnects nothing or its credential is readable and, under the global scope,
  // the safety check goes through and some rival of the account, if there was any before the
  // run, is still connected when the target's turn comes.
  lemma RevokePrediction(st: State, e: Evidence, ws: nat, scope: Scope, answers: Answers, todo: seq<Target>, t: Target)
    ensures var done := RealResult(Done(st, e, ws, todo), e, ws, scope, answers, t);
      && (done.0.outcome == Disconnected ==> t.row in st.rows && st.rows[t.row].Connector?)
      && (Corresponds(DryResult(st, e, ws, scope, todo, t).revoke, done)
          <==> (done.0.outcome == Disconnected ==>
                  && st.rows[t.row].credential
                  && (scope == Global ==>
                        && !answers.checkFails(t.row)
                        && ((exists r :: Rival(st.rows, r, Gmail, st.rows[t.row].account, t.row)) ==>
                              exists r :: Rival(st.rows, r, Gmail, st.rows[t.row].account, t.row) && !Hit(st, e, ws, todo, r)))))
  {
    hide Findings, Disconnects, NewReviews, Act;
    ghost var mid := Done(st, e, ws, todo);
    OnlyOutcomes(mid, e, ws, scope, answers, t);
    OnlyOutcomes(st, e, ws, scope, answers, t);
    if Act(mid, e, ws, t).0 == Disconnected {
      DisconnectedNow(st, e, ws, todo, t);
    } else {
      DoneIs(st, e, ws, todo);
      ActLater(st, e, ws, todo, mid, t);
    }
  }

  // Where they can differ for the same row: the real revoke is skipped as unsafe exactly when
  // another row of the account was live and no earlier target of the run disconnected it; the
  // dry run, which looks at the unchanged rows, predicts a skip for the first part alone.
  lemma RivalsDecide(st: State, e: Evidence, ws: nat, answers: Answers, todo: seq<Target>, t: Target)
    requires Act(Done(st, e, ws, todo), e, ws, t).0 == Disconnected
    requires t.row in st.rows && st.rows[t.row].Connector? && st.rows[t.row].credential && !answers.checkFails(t.row)
    ensures var account := st.rows[t.row].account;
      && (RealResult(Done(st, e, ws, todo), e, ws, Global, answers, t).0.revoke == SkippedUnsafe
          <==> exists r :: Rival(st.rows, r, Gmail, account, t.row) && !Hit(st, e, ws, todo, r))
      && (DryResult(st, e, ws, Global, todo, t).revoke == WouldSkipUnsafe
          <==> exists r :: Rival(st.rows, r, Gmail, account, t.row))
  {
    hide Findings, Disconnects, NewReviews, Act;
    DisconnectedNow(st, e, ws, todo, t);
  }
}
