// The remediation command, target by target.
module RemediationRun {
  import opened Records
  import opened Remediation

  class Registry {
    var rows: map<nat, Subject>
    var reviews: set<Review>
    // The rows whose grant the provider was asked to revoke, in order.
    var calls: seq<nat>
    const evidence: Evidence
    const ws: nat
    const scope: Scope
    const answers: Answers

    constructor (st: State, evidence: Evidence, ws: nat, scope: Scope, answers: Answers)
      ensures Now() == st && calls == []
      ensures this.evidence == evidence && this.ws == ws && this.scope == scope && this.answers == answers
    {
      rows, reviews, calls := st.rows, st.reviews, [];
      this.evidence, this.ws, this.scope, this.answers := evidence, ws, scope, answers;
    }

    function Now(): State
      reads this
    {
      State(rows, reviews)
    }

    // One connector: disconnected unless it already is; `pending` asks for its revoke.
    method Disconnect(t: Target, dryRun: bool) returns (outcome: Outcome, revoke: Revoke, pending: Option<nat>)
      requires t.row in rows && rows[t.row].Connector?
      modifies this`rows
      ensures rows == if dryRun || !old(rows)[t.row].connected then old(rows) else
        var s := old(rows)[t.row];
        old(rows)[t.row := s.(connected := false, version := s.version + 1)]
      ensures outcome == if !old(rows)[t.row].connected then AlreadyDisconnected
                         else if dryRun then WouldDisconnect else Disconnected
      ensures revoke == if outcome == WouldDisconnect then Predicted(old(rows), scope, t.row) else NoRevoke
      ensures pending == if outcome == Disconnected then Some(t.row) else None
    {
      var row := rows[t.row];
      if !row.connected { return AlreadyDisconnected, NoRevoke, None; }
      if dryRun { return WouldDisconnect, Predicted(rows, scope, t.row), None; }
      rows := rows[t.row := row.(connected := false, version := row.version + 1)];
      return Disconnected, NoRevoke, Some(t.row);
    }

    // The findings not reviewed yet, each recorded once.
    method RecordReviews(t: Target, dryRun: bool) returns (outcome: Outcome)
      modifies this`reviews
      ensures var unreviewed := NewReviews(old(Now()), evidence, ws, t);
        && reviews == (if dryRun then old(reviews) else old(reviews) + unreviewed)
        && outcome == (if unreviewed == {} then AlreadyRecorded else if dryRun then WouldRecord else ReviewRecorded)
    {
      var todo := NewReviews(Now(), evidence, ws, t);
      if todo == {} { return AlreadyRecorded; }
      if dryRun { return WouldRecord; }
      reviews := reviews + todo;
      return ReviewRecorded;
    }

    method InTransaction(t: Target, dryRun: bool) returns (outcome: Outcome, revoke: Revoke, pending: Option<nat>)
      modifies this`rows, this`reviews
      ensures var (did, after) := Act(old(Now()), evidence, ws, t);
        && Now() == (if dryRun then old(Now()) else after)
        && outcome == (if dryRun then Would(did) else did)
        && (pending.Some? <==> outcome == Disconnected) && (pending.Some? ==> pending.value == t.row)
        && (outcome in {Disconnected, WouldDisconnect} ==> t.row in old(rows) && old(rows)[t.row].Connector?)
        && revoke == (if outcome == WouldDisconnect then Predicted(old(rows), scope, t.row) else NoRevoke)
      ensures !dryRun ==> Decided(old(Now()), evidence, ws, t, outcome, Now())
    {
      DecidedByAct(Now(), evidence, ws, t);
      hide Decided;
      if Findings(rows, evidence, ws, t) == {} { return NotFlagged, NoRevoke, None; }
      if Disconnects(rows, evidence, ws, t) {
        outcome, revoke, pending := Disconnect(t, dryRun);
        return;
      }
      outcome := RecordReviews(t, dryRun);
      revoke, pending := NoRevoke, None;
    }

    // After the commit: the provider is asked once or not at all, and asked exactly when the
    // grant is a Gmail one, its credential is readable and, under the global scope, the safety
    // check goes through and finds no other live row of the account.
    method RevokeGrant(row: nat) returns (revoke: Revoke)
      requires row in rows && rows[row].Connector?
      modifies this`calls
      ensures calls == old(calls) || calls == old(calls) + [row]
      ensures calls != old(calls) <==> Askable(rows, row) && Clear(rows, row, scope, answers)
      ensures revoke == Ok <==> calls != old(calls) && answers.confirms(row)
      ensures revoke == NoRevoke <==> rows[row].provider != Gmail
      ensures revoke == CredentialUnavailable <==> rows[row].provider == Gmail && !rows[row].credential
      ensures revoke == SkippedUnsafe <==> (Askable(rows, row) && scope == Global && !answers.checkFails(row)
        && exists r :: OtherLive(rows, row, r))
      ensures revoke == Error <==> Askable(rows, row) && (if calls != old(calls) then !answers.confirms(row)
                                                          else scope == Global && answers.checkFails(row))
    {
      var s := rows[row];
      if s.provider != Gmail { return NoRevoke; }
      OtherLiveIsRival(rows, row);
      if !s.credential { return CredentialUnavailable; }
      if scope != PerToken {
        if answers.checkFails(row) { return Error; }
        if !RevokeIsSafe(rows, s.provider, s.account, row, scope) { return SkippedUnsafe; }
      }
      calls := calls + [row];
      assert calls[|old(calls)|] == row;
      revoke := if answers.confirms(row) then Ok else Error;
    }

    // The whole command: declined targets first, then the others in order.
    method Remediate(targets: seq<Target>, declined: set<Target>, dryRun: bool) returns (results: seq<Result>)
      modifies this
      ensures var st, todo := old(Now()), Kept(targets, declined);
        && Now() == (if dryRun then st else Done(st, evidence, ws, todo))
        && results == Refused(targets, declined)
             + (if dryRun then DryResults(st, evidence, ws, scope, todo)
                else RealResults(st, evidence, ws, scope, answers, todo))
        && calls == old(calls) + (if dryRun then [] else Calls(st, evidence, ws, scope, answers, todo))
    {
      hide Act, RevokeOf, Predicted, DryResult, RealResult, Done, DryResults, RealResults, Calls, Refused, Kept;
      ghost var st, before := Now(), calls;
      var refused := Refused(targets, declined);
      results := refused;
      var todo := Kept(targets, declined);
      var would: set<nat> := {};
      NoneDone(st, evidence, ws, scope, answers, todo);
      for i := 0 to |todo|
        invariant dryRun ==> Now() == st && calls == before
        invariant dryRun ==> results == refused + DryResults(st, evidence, ws, scope, todo[..i])
        invariant dryRun ==> forall r :: r in would <==> Hit(st, evidence, ws, todo[..i], r)
        invariant !dryRun ==> Now() == Done(st, evidence, ws, todo[..i])
        invariant !dryRun ==> results == refused + RealResults(st, evidence, ws, scope, answers, todo[..i])
        invariant !dryRun ==> calls == before + Calls(st, evidence, ws, scope, answers, todo[..i])
      {
        if dryRun {
          OneMoreDry(st, evidence, ws, scope, todo, i);
          var result := PreviewTarget(todo[i], would);
          if result.1 { would := would + {todo[i].row}; }
          results := results + [result.0];
        } else {
          OneMore(st, evidence, ws, scope, answers, todo, i);
          var result := RemediateTarget(todo[i]);
          results := results + [result];
        }
      }
      assert todo[..|todo|] == todo;
    }

    // A dry target; whether it would disconnect its row.
    method PreviewTarget(t: Target, would: set<nat>) returns (r: (Result, bool))
      modifies this`rows, this`reviews
      ensures Now() == old(Now()) && (r.1 <==> Act(Now(), evidence, ws, t).0 == Disconnected)
      ensures r.1 ==> t.row in rows && rows[t.row].Connector?
      ensures r.0 == if !r.1 then Result(t, Would(Act(Now(), evidence, ws, t).0), NoRevoke)
                     else if t.row in would then Result(t, AlreadyDisconnected, NoRevoke)
                     else Result(t, WouldDisconnect, Predicted(rows, scope, t.row))
    {
      hide Act, Predicted;
      OnlyOutcomes(Now(), evidence, ws, scope, answers, t);
      var outcome, revoke, pending := InTransaction(t, true);
      var hits := outcome == WouldDisconnect;
      if hits && t.row in would { outcome, revoke := AlreadyDisconnected, NoRevoke; }
      r := (Result(t, outcome, revoke), hits);
    }

    // A target for real: its transaction, then the revoke it asks for.
    method RemediateTarget(t: Target) returns (r: Result)
      modifies this
      ensures Now() == Act(old(Now()), evidence, ws, t).1
      ensures r == RealResult(old(Now()), evidence, ws, scope, answers, t).0
      ensures calls == old(calls)
        + (if RealResult(old(Now()), evidence, ws, scope, answers, t).1 then [t.row] else [])
    {
      hide Act, RevokeOf, RealResult;
      RealResultIs(Now(), evidence, ws, scope, answers, t);
      OnlyOutcomes(Now(), evidence, ws, scope, answers, t);
      var outcome, revoke, pending := InTransaction(t, false);
      r := Result(t, outcome, if pending.None? then revoke else Interrupted);
      if pending.Some? {
        ghost var before := calls;
        revoke := RevokeGrant(pending.value);
        RevokeAnswers(rows, scope, answers, pending.value, revoke, calls != before);
        r := r.(revoke := revoke);
      }
    }
  }

  lemma NoneDone(st: State, e: Evidence, ws: nat, scope: Scope, answers: Answers, todo: seq<Target>)
    ensures forall r :: !Hit(st, e, ws, todo[..0], r)
    ensures Done(st, e, ws, todo[..0]) == st && DryResults(st, e, ws, scope, todo[..0]) == []
    ensures RealResults(st, e, ws, scope, answers, todo[..0]) == [] && Calls(st, e, ws, scope, answers, todo[..0]) == []
  {
  }

  lemma OneMore(st: State, e: Evidence, ws: nat, scope: Scope, answers: Answers, todo: seq<Target>, i: nat)
    requires i < |todo|
    ensures var done, more, t := todo[..i], todo[..i + 1], todo[i];
      var mid := Done(st, e, ws, done);
      var result := RealResult(mid, e, ws, scope, answers, t);
      && Done(st, e, ws, more) == Act(mid, e, ws, t).1
      && RealResults(st, e, ws, scope, answers, more) == RealResults(st, e, ws, scope, answers, done) + [result.0]
      && Calls(st, e, ws, scope, answers, more)
           == Calls(st, e, ws, scope, answers, done) + (if result.1 then [t.row] else [])
  {
    hide Act, RealResult;
    assert todo[..i + 1][..i] == todo[..i];
  }

  lemma OneMoreDry(st: State, e: Evidence, ws: nat, scope: Scope, todo: seq<Target>, i: nat)
    requires i < |todo|
    ensures var done, more, t := todo[..i], todo[..i + 1], todo[i];
      var now := Act(st, e, ws, t).0;
      && (forall r :: Hit(st, e, ws, more, r) <==> Hit(st, e, ws, done, r) || (t.row == r && now == Disconnected))
      && (now == Disconnected ==> t.row in st.rows && st.rows[t.row].Connector?)
      && DryResults(st, e, ws, scope, more) == DryResults(st, e, ws, scope, done)
           + [if now != Disconnected then Result(t, Would(now), NoRevoke)
              else if Hit(st, e, ws, done, t.row) then Result(t, AlreadyDisconnected, NoRevoke)
              else Result(t, WouldDisconnect, Predicted(st.rows, scope, t.row))]
  {
    assert todo[..i + 1][..i] == todo[..i];
    assert todo[..i + 1] == todo[..i] + [todo[i]];
    if Act(st, e, ws, todo[i]).0 == Disconnected { DisconnectsConnector(st, e, ws, todo[i]); }
    forall r ensures Hit(st, e, ws, todo[..i + 1], r)
      <==> Hit(st, e, ws, todo[..i], r) || (todo[i].row == r && Act(st, e, ws, todo[i]).0 == Disconnected)
    {
      HitGrows(st, e, ws, todo[..i], todo[i], r);
    }
  }

  // A readable Gmail credential.
  predicate Askable(rows: map<nat, Subject>, row: nat)
    requires row in rows && rows[row].Connector?
  {
    rows[row].provider == Gmail && rows[row].credential
  }

  // The scope leaves the revoke open.
  ghost predicate Clear(rows: map<nat, Subject>, row: nat, scope: Scope, answers: Answers)
    requires row in rows && rows[row].Connector?
  {
    scope == Global ==> !answers.checkFails(row) && !exists r :: OtherLive(rows, row, r)
  }

  // Another connected Gmail row of the account, in any workspace.
  ghost predicate OtherLive(rows: map<nat, Subject>, row: nat, r: nat)
    requires row in rows && rows[row].Connector?
  {
    && r != row && r in rows && rows[r].Connector?
    && rows[r].connected && rows[r].provider == Gmail && rows[r].account == rows[row].account
  }

  lemma OtherLiveIsRival(rows: map<nat, Subject>, row: nat)
    requires row in rows && rows[row].Connector? && rows[row].provider == Gmail
    ensures (exists r :: OtherLive(rows, row, r)) <==> exists r :: r in rows && Rival(rows, r, Gmail, rows[row].account, row)
  {
    if r :| OtherLive(rows, row, r) { assert Rival(rows, r, Gmail, rows[row].account, row); }
    if r :| r in rows && Rival(rows, r, Gmail, rows[row].account, row) { assert OtherLive(rows, row, r); }
  }

  lemma RevokeAnswers(rows: map<nat, Subject>, scope: Scope, answers: Answers, row: nat, revoke: Revoke, called: bool)
    requires row in rows && rows[row].Connector?
    requires called <==> Askable(rows, row) && Clear(rows, row, scope, answers)
    requires revoke == Ok <==> called && answers.confirms(row)
    requires revoke == NoRevoke <==> rows[row].provider != Gmail
    requires revoke == CredentialUnavailable <==> rows[row].provider == Gmail && !rows[row].credential
    requires revoke == SkippedUnsafe <==> (Askable(rows, row) && scope == Global && !answers.checkFails(row)
      && exists r :: OtherLive(rows, row, r))
    requires revoke == Error <==> Askable(rows, row) && (if called then !answers.confirms(row)
                                                         else scope == Global && answers.checkFails(row))
    ensures RevokeOf(rows, scope, answers, row) == (revoke, called)
  {
    if rows[row].provider == Gmail { OtherLiveIsRival(rows, row); }
    hide Rival, OtherLive;
  }

  lemma RealResultIs(st: State, e: Evidence, ws: nat, scope: Scope, answers: Answers, t: Target)
    ensures var (outcome, after) := Act(st, e, ws, t);
      && (outcome == Disconnected ==> t.row in after.rows && after.rows[t.row].Connector?)
      && RealResult(st, e, ws, scope, answers, t)
         == if outcome != Disconnected then (Result(t, outcome, NoRevoke), false)
            else
              var answer := RevokeOf(after.rows, scope, answers, t.row);
              (Result(t, outcome, answer.0), answer.1)
  {
  }
}
