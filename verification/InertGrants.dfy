// Sharing endpoints, backfill batches and restore pages interleaved on one database: which
// grants may end up without effect.
module InertGrants {
  import opened Records
  import opened Rules
  import opened Moves
  import opened Process
  import opened Settled
  import opened Store
  import opened Restore
  import opened Sharing
  import opened Grants

  // Every unrevoked grant sits on a `shared_explicitly` row. An attention item that copies
  // a task, commitment or risk is outside the claim: see `CopyMakesInert`.
  ghost predicate NoInertGrants(db: Db) {
    forall g :: g in db.grants ==> !Inert(db, db.grants[g])
  }

  ghost predicate Inert(db: Db, g: Grant) {
    && g.revokedAt.None? && Peer(db.rows, g.ws, g.resource)
    && EntityOf(g.resource, db.rows[g.resource]).None?
    && db.rows[g.resource].vis != SharedExplicitly
  }

  // One committed transaction.
  datatype Step =
    | GrantStep(dir: Directory, isolation: bool, caller: Membership, request: GrantRequest, id: nat)
    | RevokeStep(dir: Directory, caller: Membership, id: nat, now: nat)
    | TransferStep(dir: Directory, isolation: bool, caller: Membership, k: Key, to: nat)
    | BatchStep(w: World, run: nat, stamps: Key -> Stamp, keys: set<Key>)
    | RestoreStep(w: World, h: History, scope: Option<nat>, keys: set<Key>)
    | ContentStep(k: Key, version: nat, updatedAt: nat, member: MemberFields, mark: Mark)

  ghost predicate Enabled(db: Db, s: Step) {
    match s
    case GrantStep(dir, isolation, caller, r, id) =>
      id !in db.grants && GrantRefusal(db, dir, isolation, caller, r).None?
    case RevokeStep(dir, caller, id, _) => RevokeRefusal(db, dir, caller, id).None?
    case TransferStep(dir, isolation, caller, k, to) =>
      OneSeatPerAccount(dir) && TransferRefusal(db, dir, isolation, caller, k, to).None?
    case BatchStep(_, _, _, keys) => Selected(db.rows, keys)
    case RestoreStep(_, h, _, keys) => Logged(db.log, h.excludeRun, keys)
    case ContentStep(k, _, _, _, _) => k in db.rows
  }

  ghost function Next(db: Db, s: Step): Db
    requires Enabled(db, s)
  {
    match s
    case GrantStep(_, _, caller, r, id) => Granted(db, caller, r, id)
    case RevokeStep(_, _, id, now) => GrantRevoked(db, id, now)
    case TransferStep(dir, _, caller, k, to) => Transferred(db, k, UserOf(dir, caller.ws, to))
    case BatchStep(w, run, stamps, keys) => ProcessRows(db, w, run, stamps, keys)
    case RestoreStep(w, h, scope, keys) => RestoreRows(db, w, h, scope, keys)
    case ContentStep(k, version, updatedAt, member, mark) =>
      db.(rows := db.rows[k := db.rows[k].(version := version, updatedAt := updatedAt, member := member, mark := mark)])
  }

  // The endpoints are these steps: one goes through exactly when the step can be taken, with
  // the state it leaves.
  method PerformGrant(conn: Database, dir: Directory, isolation: bool, caller: Membership, r: GrantRequest, id: nat)
    returns (ok: bool)
    requires id !in conn.grants
    modifies conn`rows, conn`grants
    ensures var db, step := old(conn.State()), GrantStep(dir, isolation, caller, r, id);
      && (ok <==> Enabled(db, step))
      && conn.State() == if Enabled(db, step) then Next(db, step) else db
  {
    hide GrantRefusals, GrantView;
    var refused := CreateGrant(conn, dir, isolation, caller, r, id);
    ok := refused.None?;
  }

  method PerformRevoke(conn: Database, dir: Directory, caller: Membership, id: nat, now: nat) returns (ok: bool)
    modifies conn`grants
    ensures var db, step := old(conn.State()), RevokeStep(dir, caller, id, now);
      && (ok <==> Enabled(db, step))
      && conn.State() == if Enabled(db, step) then Next(db, step) else db
  {
    hide RevokeRefusals, RevokeView;
    var refused := RevokeGrant(conn, dir, caller, id, now);
    ok := refused.None?;
  }

  method PerformTransfer(conn: Database, dir: Directory, isolation: bool, caller: Membership, k: Key, to: nat)
    returns (ok: bool)
    requires OneSeatPerAccount(dir)
    modifies conn`rows
    ensures var db, step := old(conn.State()), TransferStep(dir, isolation, caller, k, to);
      && (ok <==> Enabled(db, step))
      && conn.State() == if Enabled(db, step) then Next(db, step) else db
  {
    hide TransferRefusals, TransferView;
    var refused := TransferOwnership(conn, dir, isolation, caller, k, to);
    ok := refused.None?;
  }

  ghost predicate Runs(states: seq<Db>, steps: seq<Step>) {
    && |states| == |steps| + 1
    && forall i :: 0 <= i < |steps| ==> Enabled(states[i], steps[i]) && states[i + 1] == Next(states[i], steps[i])
  }

  // A batch gives no grant back, and moves no row outside it but copying items.
  lemma BatchFrame(db: Db, w: World, run: nat, stamps: Key -> Stamp, keys: set<Key>)
    requires Selected(db.rows, keys)
    ensures var after := ProcessRows(db, w, run, stamps, keys);
      && after.grants.Keys == db.grants.Keys
      && (forall g :: g in db.grants ==> after.grants[g].revokedAt.None? ==> after.grants[g] == db.grants[g])
      && (forall k :: k in db.rows && k !in keys && EntityOf(k, db.rows[k]).None? ==> after.rows[k] == db.rows[k])
  {
  }

  lemma BatchKeepsGrantsLive(db: Db, w: World, run: nat, stamps: Key -> Stamp, keys: set<Key>)
    requires Selected(db.rows, keys) && NoInertGrants(db)
    ensures NoInertGrants(ProcessRows(db, w, run, stamps, keys))
  {
    hide ProcessRows, InSet, Effective;
    ghost var after := ProcessRows(db, w, run, stamps, keys);
    InputsKept(db, w, run, stamps, keys);
    BatchFrame(db, w, run, stamps, keys);
    forall g | g in after.grants ensures !Inert(after, after.grants[g]) {
      ghost var k := db.grants[g].resource;
      assert !Inert(db, db.grants[g]);
      if k in keys {
        assert after.grants[g].revokedAt.None? && after.grants[g].ws == after.rows[k].ws ==> g in ActiveGrantIds(after, k);
        GrantsSettled(db, w, run, stamps, keys, k);
        RowsSettled(db, w, run, stamps, keys, k);
      }
    }
  }

  // Restore only ever widens a row the backfill left private, so one that no unrevoked
  // grant is on.
  lemma PutBackFromPrivate(db: Db, w: World, h: History, scope: Option<nat>, k: Key)
    requires LogKey(h.excludeRun, k) in db.log && VerdictOf(db, w, h, scope, k).PutBack?
    ensures k in db.rows && EntityOf(k, db.rows[k]).None?
    ensures db.rows[k].vis == Private || db.rows[k].vis == VerdictOf(db, w, h, scope, k).vis
  {
  }

  lemma RestoreFrame(db: Db, w: World, h: History, scope: Option<nat>, keys: set<Key>, k: Key)
    requires Logged(db.log, h.excludeRun, keys) && k in db.rows && EntityOf(k, db.rows[k]).None?
    ensures RestoreRows(db, w, h, scope, keys).rows[k].vis
      == if k in keys && VerdictOf(db, w, h, scope, k).PutBack? then VerdictOf(db, w, h, scope, k).vis
         else db.rows[k].vis
  {
  }

  lemma SameEntities(a: map<Key, Row>, b: map<Key, Row>, k: Key)
    requires SameInputs(a, b)
    ensures k in a <==> k in b
    ensures k in a ==> b[k].ws == a[k].ws && EntityOf(k, b[k]) == EntityOf(k, a[k])
  {
  }

  lemma RestoreKeepsGrantLive(db: Db, w: World, h: History, scope: Option<nat>, keys: set<Key>, g: Grant)
    requires Logged(db.log, h.excludeRun, keys) && !Inert(db, g)
    ensures !Inert(RestoreRows(db, w, h, scope, keys), g)
  {
    hide VerdictOf, RestoreRows, EntityOf, SameInputs;
    ghost var k := g.resource;
    RestoreKeepsInputs(db, w, h, scope, keys);
    SameEntities(db.rows, RestoreRows(db, w, h, scope, keys).rows, k);
    if k in db.rows && EntityOf(k, db.rows[k]).None? {
      RestoreFrame(db, w, h, scope, keys, k);
      if k in keys && VerdictOf(db, w, h, scope, k).PutBack? {
        PutBackFromPrivate(db, w, h, scope, k);
      }
    }
  }

  lemma RestoreKeepsGrantsLive(db: Db, w: World, h: History, scope: Option<nat>, keys: set<Key>)
    requires Logged(db.log, h.excludeRun, keys) && NoInertGrants(db)
    ensures NoInertGrants(RestoreRows(db, w, h, scope, keys))
  {
    hide Inert, VerdictOf, RestoreMoves, ApplyMoves;
    ghost var after := RestoreRows(db, w, h, scope, keys);
    forall g | g in after.grants ensures !Inert(after, after.grants[g]) {
      RestoreKeepsGrantLive(db, w, h, scope, keys, db.grants[g]);
    }
  }

  lemma StepKeepsGrantsLive(db: Db, s: Step)
    requires NoInertGrants(db) && Enabled(db, s)
    ensures NoInertGrants(Next(db, s))
  {
    var after := Next(db, s);
    match s {
      case BatchStep(w, run, stamps, keys) => BatchKeepsGrantsLive(db, w, run, stamps, keys);
      case RestoreStep(w, h, scope, keys) => RestoreKeepsGrantsLive(db, w, h, scope, keys);
      case _ =>
        forall g | g in after.grants ensures !Inert(after, after.grants[g]) {
          if g in db.grants { assert !Inert(db, db.grants[g]); }
        }
    }
  }

  // Whatever the order of the transactions, no unrevoked grant is left without effect.
  lemma {:induction false} NoGrantIsInert(states: seq<Db>, steps: seq<Step>, n: nat)
    requires Runs(states, steps) && NoInertGrants(states[0]) && n < |states|
    ensures NoInertGrants(states[n])
  {
    if n > 0 {
      NoGrantIsInert(states, steps, n - 1);
      StepKeepsGrantsLive(states[n - 1], steps[n - 1]);
    }
  }

  // ------------------------------------------------- what isolation holds in place

  // A sharing transaction under isolation, or an edit of content.
  predicate Isolated(s: Step) {
    match s
    case GrantStep(_, isolation, _, _, _) => isolation
    case TransferStep(_, isolation, _, _, _) => isolation
    case RevokeStep(_, _, _, _) | ContentStep(_, _, _, _, _) => true
    case BatchStep(_, _, _, _) | RestoreStep(_, _, _, _) => false
  }

  ghost predicate Held(before: Db, after: Db, k: Key) {
    && IsPersonal(before.rows, k) && IsPersonal(after.rows, k)
    && after.rows[k].owner == before.rows[k].owner && after.rows[k].vis == before.rows[k].vis
    && ActiveGrantIds(after, k) <= ActiveGrantIds(before, k)
  }

  lemma StepHolds(db: Db, s: Step, k: Key)
    requires Enabled(db, s) && Isolated(s) && IsPersonal(db.rows, k)
    ensures Held(db, Next(db, s), k)
  {
    hide InSet;
    ghost var after := Next(db, s);
    assert SameFacts(db.rows, after.rows);
    SameSet(db.rows, after.rows, k);
  }

  // Once a batch has made a personal row private, neither sharing nor transferring under
  // isolation gives it away: it keeps its owner, stays private and gets no grant.
  lemma {:induction false} BatchHolds(db: Db, w: World, run: nat, stamps: Key -> Stamp, keys: set<Key>, k: Key,
                                      states: seq<Db>, steps: seq<Step>, n: nat)
    requires Selected(db.rows, keys) && k in keys && k.table != EntityAliases
    requires Runs(states, steps) && n < |states| && states[0] == ProcessRows(db, w, run, stamps, keys)
    requires forall i :: 0 <= i < |steps| ==> Isolated(steps[i])
    ensures Held(states[0], states[n], k)
    ensures ActiveGrantIds(states[n], k) == {}
    ensures Effective(db, w, run, k).Target? && !Feedback(k.table) ==>
      states[n].rows[k].vis == Private && states[n].rows[k].owner == Effective(db, w, run, k).owner
  {
    hide InSet, ProcessRows, Effective;
    if n == 0 {
      InputsKept(db, w, run, stamps, keys);
      SameSet(db.rows, states[0].rows, k);
      GrantsSettled(db, w, run, stamps, keys, k);
      RowsSettled(db, w, run, stamps, keys, k);
    } else {
      BatchHolds(db, w, run, stamps, keys, k, states, steps, n - 1);
      StepHolds(states[n - 1], steps[n - 1], k);
    }
  }

  // ------------------------------------------------- copying items, where the claim fails

  // Without the exception: an unrevoked grant on any row that is not `shared_explicitly`.
  ghost predicate WithoutEffect(db: Db, g: Grant) {
    g.revokedAt.None? && Peer(db.rows, g.ws, g.resource) && db.rows[g.resource].vis != SharedExplicitly
  }

  ghost predicate AllEffective(db: Db) {
    forall g :: g in db.grants ==> !WithoutEffect(db, db.grants[g])
  }

  // The grant sits on an item that copies one of these rows.
  ghost predicate OnCopyOf(rows: map<Key, Row>, g: Grant, keys: set<Key>) {
    && g.revokedAt.None? && Peer(rows, g.ws, g.resource)
    && exists e :: e in keys && Mirrors(rows, g.resource, e)
  }

  // The rows a restore page widens to anything but `shared_explicitly`.
  ghost function PutBackElse(db: Db, w: World, h: History, scope: Option<nat>, keys: set<Key>): set<Key>
    requires Logged(db.log, h.excludeRun, keys)
  {
    set k | k in keys && VerdictOf(db, w, h, scope, k).PutBack? && VerdictOf(db, w, h, scope, k).vis != SharedExplicitly
  }

  lemma DerivedMadePrivate(db: Db, w: World, run: nat, k: Key)
    requires k in db.rows && InSet(db.rows, k) && Derived(k.table)
    ensures Judge(db, w, run, k).vis == Private
  {
    DerivedHasTarget(db, w, run, k);
    DecisionVisibility(db, w, run, k);
  }

  lemma DerivedHasTarget(db: Db, w: World, run: nat, k: Key)
    requires k in db.rows && InSet(db.rows, k) && Derived(k.table)
    ensures Effective(db, w, run, k).Target?
  {
    SourceVerified(db.rows, w, k);
    EffectiveOfDerived(db, w, run, k);
  }

  lemma ItemGrantsKept(db: Db, w: World, run: nat, stamps: Key -> Stamp, keys: set<Key>, item: Key)
    requires Selected(db.rows, keys) && item !in keys
    ensures forall g :: g in db.grants && db.grants[g].resource == item ==>
      g in ProcessRows(db, w, run, stamps, keys).grants && ProcessRows(db, w, run, stamps, keys).grants[g] == db.grants[g]
  {
    hide Judge, InSet;
  }

  // An item copying a processed row ends private, whatever grants it has.
  lemma CopyMakesInert(db: Db, w: World, run: nat, stamps: Key -> Stamp, keys: set<Key>, item: Key, e: Key)
    requires Selected(db.rows, keys) && item in db.rows && e in keys && Mirrors(db.rows, item, e)
    ensures var after := ProcessRows(db, w, run, stamps, keys);
      && item in after.rows && after.rows[item].vis == Private
      && after.rows[item].vis == Judge(db, w, run, e).vis
      && (forall g :: g in db.grants && db.grants[g].resource == item ==>
            g in after.grants && after.grants[g] == db.grants[g])
      && (forall g :: g in db.grants && OnCopyOf(db.rows, db.grants[g], {e}) && db.grants[g].resource == item ==>
            WithoutEffect(after, after.grants[g]))
  {
    hide Judge, InSet, ProcessRows, MovesOf, Admissible, ApplyMoves, ActiveGrantIds;
    NotSelected(db.rows, keys, item);
    MovesAdmissible(db, w, run, keys);
    ItemFollows(db.rows, MovesOf(db.rows, PlanOf(db, w, run, keys)), item, e);
    ProcessMoves(db, w, run, stamps, keys);
    DerivedMadePrivate(db, w, run, e);
    ProcessedRow(db, w, run, stamps, keys, e);
    InputsKept(db, w, run, stamps, keys);
    ItemGrantsKept(db, w, run, stamps, keys, item);
  }

  lemma NotCopied(db: Db, w: World, run: nat, stamps: Key -> Stamp, keys: set<Key>, item: Key)
    requires Selected(db.rows, keys) && item in db.rows && item !in keys
    requires forall e :: e in keys ==> !Mirrors(db.rows, item, e)
    ensures ProcessRows(db, w, run, stamps, keys).rows[item] == db.rows[item]
  {
    hide Judge, InSet;
    var e := EntityOf(item, db.rows[item]);
    assert e.Some? && e.value in keys ==> !Peer(db.rows, db.rows[item].ws, e.value);
  }

  // Which grants a batch leaves without effect: exactly those on items copying its rows.
  lemma BatchLeavesWithoutEffect(db: Db, w: World, run: nat, stamps: Key -> Stamp, keys: set<Key>, g: nat)
    requires Selected(db.rows, keys) && AllEffective(db) && g in db.grants
    ensures var after := ProcessRows(db, w, run, stamps, keys);
      && g in after.grants
      && (WithoutEffect(after, after.grants[g]) <==> OnCopyOf(db.rows, db.grants[g], keys))
  {
    hide ProcessRows, InSet, Judge;
    ghost var after, k := ProcessRows(db, w, run, stamps, keys), db.grants[g].resource;
    InputsKept(db, w, run, stamps, keys);
    BatchFrame(db, w, run, stamps, keys);
    assert !WithoutEffect(db, db.grants[g]);
    if Peer(db.rows, db.grants[g].ws, k) {
      if EntityOf(k, db.rows[k]).Some? {
        NotSelected(db.rows, keys, k);
        if e :| e in keys && Mirrors(db.rows, k, e) {
          CopyMakesInert(db, w, run, stamps, keys, k, e);
        } else {
          NotCopied(db, w, run, stamps, keys, k);
        }
      } else {
        assert NoInertGrants(db);
        BatchKeepsGrantsLive(db, w, run, stamps, keys);
        assert !Inert(after, after.grants[g]);
      }
    }
  }

  lemma NotSelected(rows: map<Key, Row>, keys: set<Key>, k: Key)
    requires Selected(rows, keys) && k in rows && EntityOf(k, rows[k]).Some?
    ensures k !in keys
  {
    assert !InSet(rows, k);
  }

  // Which grants a restore page leaves without effect: exactly those on items copying a row
  // it puts back to anything but `shared_explicitly`.
  lemma RestoreLeavesWithoutEffect(db: Db, w: World, h: History, scope: Option<nat>, keys: set<Key>, g: nat)
    requires Logged(db.log, h.excludeRun, keys) && AllEffective(db) && g in db.grants
    ensures WithoutEffect(RestoreRows(db, w, h, scope, keys), db.grants[g])
      <==> OnCopyOf(db.rows, db.grants[g], PutBackElse(db, w, h, scope, keys))
  {
    RestoreAdmissible(db, w, h, scope, keys);
    RestoreKeepsInputs(db, w, h, scope, keys);
    hide VerdictOf;
    ghost var after, k := RestoreRows(db, w, h, scope, keys), db.grants[g].resource;
    assert !WithoutEffect(db, db.grants[g]);
    if Peer(db.rows, db.grants[g].ws, k) {
      if EntityOf(k, db.rows[k]).Some? {
        ghost var moves := RestoreMoves(db, w, h, scope, keys);
        ghost var e := EntityOf(k, db.rows[k]).value;
        if e in moves && Peer(db.rows, db.rows[k].ws, e) {
          ItemFollows(db.rows, moves, k, e);
          assert Mirrors(db.rows, k, e);
        }
      } else {
        assert !Inert(db, db.grants[g]);
        RestoreKeepsGrantLive(db, w, h, scope, keys, db.grants[g]);
      }
    }
  }

  // The transactions that leave some grant without effect.
  ghost predicate Disarms(db: Db, s: Step)
    requires Enabled(db, s)
  {
    match s
    case BatchStep(_, _, _, keys) => exists g :: g in db.grants && OnCopyOf(db.rows, db.grants[g], keys)
    case RestoreStep(w, h, scope, keys) =>
      exists g :: g in db.grants && OnCopyOf(db.rows, db.grants[g], PutBackElse(db, w, h, scope, keys))
    case _ => false
  }

  // With copying items counted in: of all the transactions, a batch over a row some shared
  // item copies, or a restore page that puts such a row back to anything but
  // `shared_explicitly`, leaves a grant without effect, and nothing else does.
  lemma EffectiveUnlessDisarmed(db: Db, s: Step)
    requires AllEffective(db) && Enabled(db, s)
    ensures AllEffective(Next(db, s)) <==> !Disarms(db, s)
  {
    hide ProcessRows, RestoreRows, OnCopyOf, PutBackElse, InSet, Selected, Logged;
    ghost var after := Next(db, s);
    match s {
      case BatchStep(w, run, stamps, keys) =>
        BatchFrame(db, w, run, stamps, keys);
        forall g | g in db.grants
          ensures g in after.grants && (WithoutEffect(after, after.grants[g]) <==> OnCopyOf(db.rows, db.grants[g], keys))
        {
          BatchLeavesWithoutEffect(db, w, run, stamps, keys, g);
        }
      case RestoreStep(w, h, scope, keys) =>
        GrantsUntouched(db, w, h, scope, keys);
        forall g | g in db.grants
          ensures WithoutEffect(after, db.grants[g])
            <==> OnCopyOf(db.rows, db.grants[g], PutBackElse(db, w, h, scope, keys))
        {
          RestoreLeavesWithoutEffect(db, w, h, scope, keys, g);
        }
      case _ =>
        forall g | g in after.grants ensures !WithoutEffect(after, after.grants[g]) {
          if g in db.grants { assert !WithoutEffect(db, db.grants[g]); }
        }
    }
  }

  lemma GrantsUntouched(db: Db, w: World, h: History, scope: Option<nat>, keys: set<Key>)
    requires Logged(db.log, h.excludeRun, keys)
    ensures RestoreRows(db, w, h, scope, keys).grants == db.grants
  {
  }

  // Over every interleaving: every active grant has its effect, copying items included, as
  // long as no transaction disarms one.
  lemma {:induction false} EffectiveOverRuns(states: seq<Db>, steps: seq<Step>, n: nat)
    requires Runs(states, steps) && AllEffective(states[0]) && n < |states|
    requires forall i :: 0 <= i < n ==> !Disarms(states[i], steps[i])
    ensures AllEffective(states[n])
  {
    if n > 0 {
      EffectiveOverRuns(states, steps, n - 1);
      EffectiveUnlessDisarmed(states[n - 1], steps[n - 1]);
    }
  }
}
