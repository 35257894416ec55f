// The sharing endpoints: creating, previewing and revoking a grant, transferring a row.
module Grants {
  import opened Records
  import opened Rules
  import opened Moves
  import opened Store
  import opened Sharing
  import Personal

  // Personal-domain tables: no grant may ever name one.
  const UNGRANTABLE: set<string> := {
    "personal_domains", "domain_consents", "domain_sources", "domain_records", "goals", "routines",
    "check_ins", "personal_insights", "cross_domain_grants", "personal_insight_feedback"}

  predicate Grantable(t: Table) { t.Other? ==> t.name !in UNGRANTABLE }

  // A row no share path may share: the personal data set and the rows derived from it.
  predicate IsPersonal(rows: map<Key, Row>, k: Key) {
    k in rows && k.table != EntityAliases && InSet(rows, k)
  }

  datatype Refusal =
    | TypeNotGrantable | ResourceNotFound | InsufficientRole | PersonalData | GranteeNotFound
    | RequiresNarrowVisibility | RecipientNotFound | GrantNotFound | GrantAlreadyRevoked

  predicate MayShare(db: Db, dir: Directory, caller: Membership, k: Key)
    requires k in db.rows
  {
    db.rows[k].owner == caller.user || CurrentRole(dir, caller) in {Some(WorkspaceOwner), Some(Admin)}
  }

  predicate ActiveAccount(dir: Directory, ws: nat, account: nat) {
    exists m :: m in dir && m.ws == ws && dir[m].account == account && dir[m].active
  }

  // The checks the share endpoints make on the row itself, in their order.
  function RowRefusal(db: Db, dir: Directory, isolation: bool, caller: Membership, k: Key): Option<Refusal> {
    if !Grantable(k.table) then Some(TypeNotGrantable)
    else if k !in db.rows || db.rows[k].ws != caller.ws then Some(ResourceNotFound)
    else if !MayShare(db, dir, caller, k) then Some(InsufficientRole)
    else if isolation && IsPersonal(db.rows, k) then Some(PersonalData)
    else None
  }

  // ------------------------------------------------------- what a member can do to a row

  function ActionsOf(db: Db, dir: Directory, m: Membership, k: Key, now: nat): set<Action> {
    var p := EffectivePermissions(db, dir, m, k, now);
    if p.Some? then p.value.actions else {}
  }

  // The row's visibility lets the member's role, or a live grant, give the action.
  ghost predicate Given(db: Db, dir: Directory, m: Membership, k: Key, a: Action, now: nat)
    requires k in db.rows && m in dir
  {
    || (db.rows[k].vis == Workspace && a in RolePermissions(dir[m].role))
    || (db.rows[k].vis == SharedExplicitly && HasGrant(db.grants, m.ws, dir[m].account, k, a, now))
  }

  // A live grant names the action.
  ghost predicate HasGrant(grants: map<nat, Grant>, ws: nat, account: nat, k: Key, a: Action, now: nat) {
    exists g :: g in grants && Names(grants[g], ws, account, k, now) && a in grants[g].actions
  }

  // An active member can do to a row of its workspace what ownership, its role or a live
  // grant gives.
  lemma ActionsMeaning(db: Db, dir: Directory, m: Membership, k: Key, a: Action, now: nat)
    ensures a in ActionsOf(db, dir, m, k, now)
      <==> (&& m in dir && dir[m].active && k in db.rows && db.rows[k].ws == m.ws
            && (db.rows[k].owner == m.user || Given(db, dir, m, k, a, now)))
  {
    if m in dir { GrantedIff(db.grants, m.ws, dir[m].account, k, a, now); }
  }

  // The member can do this to the granted row once the grant is made: by ownership, a grant
  // there was, or the new one.
  ghost predicate CanAfterGrant(before: Db, dir: Directory, ws: nat, r: GrantRequest, m: Membership, a: Action, now: nat)
    requires r.resource in before.rows
  {
    && m in dir && dir[m].active && m.ws == ws
    && (|| before.rows[r.resource].owner == m.user
        || HasGrant(before.grants, ws, dir[m].account, r.resource, a, now)
        || (dir[m].account == r.grantee && a in r.actions && (r.expiresAt.None? || r.expiresAt.value > now)))
  }

  // What a grant changes for the members: on its row they can do that and nothing else; on
  // every other row, what they could.
  ghost predicate GrantView(before: Db, after: Db, dir: Directory, ws: nat, r: GrantRequest)
    requires r.resource in before.rows
  {
    && (forall m, a, now: nat ::
          a in ActionsOf(after, dir, m, r.resource, now) <==> CanAfterGrant(before, dir, ws, r, m, a, now))
    && (forall m, k, now: nat :: k != r.resource ==> ActionsOf(after, dir, m, k, now) == ActionsOf(before, dir, m, k, now))
  }

  lemma NamesAfterGrant(db: Db, caller: Membership, r: GrantRequest, id: nat, ws: nat, account: nat, k: Key, a: Action, now: nat)
    requires r.resource in db.rows && id !in db.grants
    ensures HasGrant(Granted(db, caller, r, id).grants, ws, account, k, a, now)
      <==> || HasGrant(db.grants, ws, account, k, a, now)
           || (ws == caller.ws && k == r.resource && account == r.grantee && a in r.actions
               && (r.expiresAt.None? || r.expiresAt.value > now))
  {
    var after := Granted(db, caller, r, id).grants;
    if g :| g in db.grants && Names(db.grants[g], ws, account, k, now) && a in db.grants[g].actions {
      assert after[g] == db.grants[g];
    }
    if ws == caller.ws && k == r.resource && account == r.grantee && a in r.actions && (r.expiresAt.None? || r.expiresAt.value > now) {
      assert Names(after[id], ws, account, k, now);
    }
  }

  lemma GrantGivesOne(db: Db, dir: Directory, caller: Membership, r: GrantRequest, id: nat, m: Membership, k: Key,
                      a: Action, now: nat)
    requires r.resource in db.rows && db.rows[r.resource].ws == caller.ws && id !in db.grants
    ensures var after := Granted(db, caller, r, id);
      a in ActionsOf(after, dir, m, k, now)
      <==> if k != r.resource then a in ActionsOf(db, dir, m, k, now)
           else CanAfterGrant(db, dir, caller.ws, r, m, a, now)
  {
    hide ActionsOf, HasGrant;
    ActionsMeaning(Granted(db, caller, r, id), dir, m, k, a, now);
    ActionsMeaning(db, dir, m, k, a, now);
    if m in dir { NamesAfterGrant(db, caller, r, id, m.ws, dir[m].account, k, a, now); }
  }

  lemma GrantGives(db: Db, dir: Directory, caller: Membership, r: GrantRequest, id: nat)
    requires r.resource in db.rows && db.rows[r.resource].ws == caller.ws && id !in db.grants
    ensures GrantView(db, Granted(db, caller, r, id), dir, caller.ws, r)
  {
    hide ActionsOf, CanAfterGrant, Granted;
    ghost var after := Granted(db, caller, r, id);
    forall m, a, now: nat
      ensures a in ActionsOf(after, dir, m, r.resource, now) <==> CanAfterGrant(db, dir, caller.ws, r, m, a, now)
    {
      GrantGivesOne(db, dir, caller, r, id, m, r.resource, a, now);
    }
    forall m, k, now: nat | k != r.resource ensures ActionsOf(after, dir, m, k, now) == ActionsOf(db, dir, m, k, now) {
      forall a ensures a in ActionsOf(after, dir, m, k, now) <==> a in ActionsOf(db, dir, m, k, now) {
        GrantGivesOne(db, dir, caller, r, id, m, k, a, now);
      }
    }
  }

  // The member has the action on the row from this grant alone.
  ghost predicate OnlyFrom(db: Db, dir: Directory, id: nat, m: Membership, k: Key, a: Action, now: nat)
    requires id in db.grants
  {
    var g := db.grants[id];
    && m in dir && k in db.rows && db.rows[k].owner != m.user && db.rows[k].vis == SharedExplicitly
    && Names(g, m.ws, dir[m].account, k, now) && a in g.actions
    && forall j :: j in db.grants && j != id ==>
         !(Names(db.grants[j], m.ws, dir[m].account, k, now) && a in db.grants[j].actions)
  }

  // A revoke takes exactly what the grant alone gave.
  ghost predicate RevokeView(before: Db, after: Db, dir: Directory, id: nat)
    requires id in before.grants
  {
    forall m, k, a, now :: a in ActionsOf(after, dir, m, k, now)
      <==> a in ActionsOf(before, dir, m, k, now) && !OnlyFrom(before, dir, id, m, k, a, now)
  }

  lemma NamesAfterRevoke(db: Db, id: nat, at: nat, ws: nat, account: nat, k: Key, a: Action, now: nat)
    requires id in db.grants
    ensures HasGrant(GrantRevoked(db, id, at).grants, ws, account, k, a, now)
      <==> exists j :: j in db.grants && j != id && Names(db.grants[j], ws, account, k, now) && a in db.grants[j].actions
  {
    var after := GrantRevoked(db, id, at).grants;
    if j :| j in db.grants && j != id && Names(db.grants[j], ws, account, k, now) && a in db.grants[j].actions {
      assert after[j] == db.grants[j];
    }
    if HasGrant(after, ws, account, k, a, now) {
      var g :| g in after && Names(after[g], ws, account, k, now) && a in after[g].actions;
      assert g != id && after[g] == db.grants[g];
    }
  }

  lemma RevokeTakes(db: Db, dir: Directory, id: nat, at: nat)
    requires id in db.grants
    ensures RevokeView(db, GrantRevoked(db, id, at), dir, id)
  {
    hide ActionsOf;
    ghost var after := GrantRevoked(db, id, at);
    forall m, k, a, now
      ensures a in ActionsOf(after, dir, m, k, now)
        <==> a in ActionsOf(db, dir, m, k, now) && !OnlyFrom(db, dir, id, m, k, a, now)
    {
      ActionsMeaning(after, dir, m, k, a, now);
      ActionsMeaning(db, dir, m, k, a, now);
      if m in dir { NamesAfterRevoke(db, id, at, m.ws, dir[m].account, k, a, now); }
    }
  }

  // After a transfer the recipient, while active, can do everything to the row; everybody
  // else, its former owner included, what their role or a live grant gives.
  ghost predicate TransferView(before: Db, after: Db, dir: Directory, k: Key, to: nat)
    requires k in before.rows
  {
    && (forall m, a, now :: a in ActionsOf(after, dir, m, k, now)
          <==> m in dir && dir[m].active && before.rows[k].ws == m.ws && (m.user == to || Given(before, dir, m, k, a, now)))
    && (forall m, j, now :: j != k ==> ActionsOf(after, dir, m, j, now) == ActionsOf(before, dir, m, j, now))
  }

  lemma TransferMoves(db: Db, dir: Directory, k: Key, to: nat)
    requires k in db.rows
    ensures TransferView(db, Transferred(db, k, to), dir, k, to)
  {
    var after := Transferred(db, k, to);
    forall m, j, a, now
      ensures j == k ==> (a in ActionsOf(after, dir, m, j, now)
        <==> m in dir && dir[m].active && db.rows[k].ws == m.ws && (m.user == to || Given(db, dir, m, k, a, now)))
      ensures j != k ==> (a in ActionsOf(after, dir, m, j, now) <==> a in ActionsOf(db, dir, m, j, now))
    {
      hide ActionsOf;
      ActionsMeaning(after, dir, m, j, a, now);
      ActionsMeaning(db, dir, m, j, a, now);
    }
  }

  // ------------------------------------------------------------------- the endpoints

  datatype GrantRequest = GrantRequest(resource: Key, grantee: nat, actions: set<Action>, expiresAt: Option<nat>,
                                       narrow: bool)

  function GrantRefusal(db: Db, dir: Directory, isolation: bool, caller: Membership, r: GrantRequest): Option<Refusal> {
    var why := RowRefusal(db, dir, isolation, caller, r.resource);
    if why.Some? then why
    else if !ActiveAccount(dir, caller.ws, r.grantee) then Some(GranteeNotFound)
    else if r.resource in db.rows && db.rows[r.resource].vis == Workspace && !r.narrow
      then Some(RequiresNarrowVisibility)
    else None
  }

  // The state a created grant leaves.
  function Granted(db: Db, caller: Membership, r: GrantRequest, id: nat): Db
    requires r.resource in db.rows
  {
    Db(db.rows[r.resource := db.rows[r.resource].(vis := SharedExplicitly)],
       db.grants[id := Grant(caller.ws, r.resource, r.grantee, r.actions, caller.user, r.expiresAt, None)],
       db.log)
  }

  // ------------------------------------------------ the refusals, read off the tables

  // One of the tables no grant may name, one by one.
  ghost predicate Barred(t: Table) {
    && t.Other?
    && (|| t.name == "personal_domains" || t.name == "domain_consents" || t.name == "domain_sources"
        || t.name == "domain_records" || t.name == "goals" || t.name == "routines" || t.name == "check_ins"
        || t.name == "personal_insights" || t.name == "cross_domain_grants"
        || t.name == "personal_insight_feedback")
  }

  // The row exists in the caller's workspace.
  ghost predicate Found(db: Db, caller: Membership, k: Key) {
    k in db.rows && db.rows[k].ws == caller.ws
  }

  // An active seat that runs the workspace.
  ghost predicate Runs(dir: Directory, caller: Membership) {
    && caller in dir && dir[caller].active
    && (dir[caller].role == WorkspaceOwner || dir[caller].role == Admin)
  }

  // Who may share or transfer a row, and which rows may be shared.
  ghost predicate Shareable(db: Db, dir: Directory, isolation: bool, caller: Membership, k: Key) {
    && !Barred(k.table) && Found(db, caller, k)
    && (db.rows[k].owner == caller.user || Runs(dir, caller))
    && !(isolation && k.table != EntityAliases && Personal.OnColumns(db.rows, k))
  }

  ghost predicate Seated(dir: Directory, ws: nat, account: nat) {
    exists user :: Membership(ws, user) in dir && dir[Membership(ws, user)].account == account
                   && dir[Membership(ws, user)].active
  }

  // The refusals every share path makes on the row, each exactly when it is due.
  ghost predicate RowRefusals(db: Db, dir: Directory, isolation: bool, caller: Membership, k: Key,
                              refused: Option<Refusal>) {
    var may := k in db.rows && (db.rows[k].owner == caller.user || Runs(dir, caller));
    && (refused == Some(TypeNotGrantable) <==> Barred(k.table))
    && (refused == Some(ResourceNotFound) <==> !Barred(k.table) && !Found(db, caller, k))
    && (refused == Some(InsufficientRole) <==> !Barred(k.table) && Found(db, caller, k) && !may)
    && (refused == Some(PersonalData)
        <==> (&& !Barred(k.table) && Found(db, caller, k) && may
              && isolation && k.table != EntityAliases && Personal.OnColumns(db.rows, k)))
  }

  ghost predicate GrantRefusals(db: Db, dir: Directory, isolation: bool, caller: Membership, r: GrantRequest,
                                refused: Option<Refusal>) {
    var open := Shareable(db, dir, isolation, caller, r.resource);
    var seated := Seated(dir, caller.ws, r.grantee);
    var narrows := r.resource in db.rows && db.rows[r.resource].vis == Workspace;
    && RowRefusals(db, dir, isolation, caller, r.resource, refused)
    && (refused == Some(GranteeNotFound) <==> open && !seated)
    && (refused == Some(RequiresNarrowVisibility) <==> open && seated && narrows && !r.narrow)
    && (refused.None? <==> open && seated && (narrows ==> r.narrow))
  }

  ghost predicate TransferRefusals(db: Db, dir: Directory, isolation: bool, caller: Membership, k: Key, to: nat,
                                   refused: Option<Refusal>) {
    var open := Shareable(db, dir, isolation, caller, k);
    && RowRefusals(db, dir, isolation, caller, k, refused)
    && (refused == Some(RecipientNotFound) <==> open && !Seated(dir, caller.ws, to))
    && (refused.None? <==> open && Seated(dir, caller.ws, to))
  }

  // A revoke goes through when the caller made the grant, owns its row or runs the workspace.
  ghost predicate RevokeRefusals(db: Db, dir: Directory, caller: Membership, id: nat, refused: Option<Refusal>) {
    var found := id in db.grants && db.grants[id].ws == caller.ws;
    var open := found && db.grants[id].revokedAt.None?;
    var may := open && (|| db.grants[id].grantedBy == caller.user
                        || (db.grants[id].resource in db.rows && db.rows[db.grants[id].resource].owner == caller.user)
                        || Runs(dir, caller));
    && (refused == Some(GrantNotFound) <==> !found)
    && (refused == Some(GrantAlreadyRevoked) <==> found && !open)
    && (refused == Some(InsufficientRole) <==> open && !may)
    && (refused.None? <==> may)
  }

  lemma SeatedIff(dir: Directory, ws: nat, account: nat)
    ensures ActiveAccount(dir, ws, account) <==> Seated(dir, ws, account)
  {
    if ActiveAccount(dir, ws, account) {
      var m :| m in dir && m.ws == ws && dir[m].account == account && dir[m].active;
      assert Membership(ws, m.user) == m;
    }
  }

  lemma RowRefusedWhenDue(db: Db, dir: Directory, isolation: bool, caller: Membership, k: Key)
    ensures RowRefusals(db, dir, isolation, caller, k, RowRefusal(db, dir, isolation, caller, k))
    ensures RowRefusal(db, dir, isolation, caller, k).None? <==> Shareable(db, dir, isolation, caller, k)
  {
    if k in db.rows { Personal.SetOnColumns(db.rows, k); }
  }

  lemma GrantRefusedWhenDue(db: Db, dir: Directory, isolation: bool, caller: Membership, r: GrantRequest)
    ensures GrantRefusals(db, dir, isolation, caller, r, GrantRefusal(db, dir, isolation, caller, r))
  {
    hide Shareable, RowRefusal;
    RowRefusedWhenDue(db, dir, isolation, caller, r.resource);
    SeatedIff(dir, caller.ws, r.grantee);
    RowRefusalIsOne(db, dir, isolation, caller, r.resource);
  }

  lemma TransferRefusedWhenDue(db: Db, dir: Directory, isolation: bool, caller: Membership, k: Key, to: nat)
    ensures TransferRefusals(db, dir, isolation, caller, k, to, TransferRefusal(db, dir, isolation, caller, k, to))
  {
    hide Shareable, RowRefusal;
    RowRefusedWhenDue(db, dir, isolation, caller, k);
    SeatedIff(dir, caller.ws, to);
    RowRefusalIsOne(db, dir, isolation, caller, k);
  }

  lemma RowRefusalIsOne(db: Db, dir: Directory, isolation: bool, caller: Membership, k: Key)
    ensures RowRefusal(db, dir, isolation, caller, k)
      in {None, Some(TypeNotGrantable), Some(ResourceNotFound), Some(InsufficientRole), Some(PersonalData)}
  {
  }

  // POST /sharing/grants
  method CreateGrant(conn: Database, dir: Directory, isolation: bool, caller: Membership, r: GrantRequest, id: nat)
    returns (refused: Option<Refusal>)
    requires id !in conn.grants
    modifies conn`rows, conn`grants
    ensures refused == GrantRefusal(old(conn.State()), dir, isolation, caller, r)
    ensures GrantRefusals(old(conn.State()), dir, isolation, caller, r, refused)
    ensures refused.Some? ==> conn.State() == old(conn.State())
    ensures refused.None? ==> r.resource in old(conn.rows) && conn.State() == Granted(old(conn.State()), caller, r, id)
    ensures refused.None? ==> GrantView(old(conn.State()), conn.State(), dir, caller.ws, r)
  {
    GrantRefusedWhenDue(conn.State(), dir, isolation, caller, r);
    if !Grantable(r.resource.table) { return Some(TypeNotGrantable); }
    if r.resource !in conn.rows || conn.rows[r.resource].ws != caller.ws { return Some(ResourceNotFound); }
    var row := conn.rows[r.resource];
    if row.owner != caller.user {
      var role := CurrentRole(dir, caller);
      if role != Some(WorkspaceOwner) && role != Some(Admin) { return Some(InsufficientRole); }
    }
    if isolation && IsPersonal(conn.rows, r.resource) { return Some(PersonalData); }
    if !ActiveAccount(dir, caller.ws, r.grantee) { return Some(GranteeNotFound); }
    if row.vis == Workspace && !r.narrow { return Some(RequiresNarrowVisibility); }
    GrantGives(conn.State(), dir, caller, r, id);
    if row.vis != SharedExplicitly {
      conn.rows := conn.rows[r.resource := row.(vis := SharedExplicitly)];
    }
    assert row.vis == SharedExplicitly ==> conn.rows[r.resource := row] == conn.rows;
    conn.grants := conn.grants[id := Grant(caller.ws, r.resource, r.grantee, r.actions, caller.user, r.expiresAt, None)];
    return None;
  }

  function RevokeRefusal(db: Db, dir: Directory, caller: Membership, id: nat): Option<Refusal> {
    if id !in db.grants || db.grants[id].ws != caller.ws then Some(GrantNotFound)
    else
      var g := db.grants[id];
      if g.revokedAt.Some? then Some(GrantAlreadyRevoked)
      else if g.grantedBy != caller.user
              && CurrentRole(dir, caller) !in {Some(WorkspaceOwner), Some(Admin)}
              && !(g.resource in db.rows && db.rows[g.resource].owner == caller.user)
        then Some(InsufficientRole)
      else None
  }

  function GrantRevoked(db: Db, id: nat, now: nat): Db
    requires id in db.grants
  {
    db.(grants := db.grants[id := db.grants[id].(revokedAt := Some(now))])
  }

  // DELETE /sharing/grants/{id}
  method RevokeGrant(conn: Database, dir: Directory, caller: Membership, id: nat, now: nat)
    returns (refused: Option<Refusal>)
    modifies conn`grants
    ensures refused == RevokeRefusal(old(conn.State()), dir, caller, id)
    ensures RevokeRefusals(old(conn.State()), dir, caller, id, refused)
    ensures refused.Some? ==> conn.State() == old(conn.State())
    ensures refused.None? ==> id in old(conn.grants) && conn.State() == GrantRevoked(old(conn.State()), id, now)
    ensures refused.None? ==> RevokeView(old(conn.State()), conn.State(), dir, id)
    ensures refused.None? ==> id in conn.grants && conn.grants[id].revokedAt == Some(now)
  {
    if id !in conn.grants || conn.grants[id].ws != caller.ws { return Some(GrantNotFound); }
    var grant := conn.grants[id];
    if grant.revokedAt.Some? { return Some(GrantAlreadyRevoked); }
    if grant.grantedBy != caller.user {
      var role := CurrentRole(dir, caller);
      var isOwner := grant.resource in conn.rows && conn.rows[grant.resource].owner == caller.user;
      if role != Some(WorkspaceOwner) && role != Some(Admin) && !isOwner { return Some(InsufficientRole); }
    }
    RevokeTakes(conn.State(), dir, id, now);
    conn.grants := conn.grants[id := grant.(revokedAt := Some(now))];
    return None;
  }

  // Whoever made a grant may undo it, whatever has become of their seat since; what is left
  // of the grant is then the row's visibility, and nobody else may revoke it again.
  lemma GranterMayUndo(db: Db, dir: Directory, elsewhere: Directory, caller: Membership, r: GrantRequest, id: nat, at: nat)
    requires r.resource in db.rows && id !in db.grants
    ensures var granted := Granted(db, caller, r, id);
      var undone := GrantRevoked(granted, id, at);
      var narrowed := db.(rows := db.rows[r.resource := db.rows[r.resource].(vis := SharedExplicitly)]);
      && RevokeRefusal(granted, elsewhere, caller, id).None?
      && (forall m, k, now :: ActionsOf(undone, dir, m, k, now) == ActionsOf(narrowed, dir, m, k, now))
      && (forall m: Membership :: m.ws == caller.ws ==>
            RevokeRefusal(undone, elsewhere, m, id) == Some(GrantAlreadyRevoked))
  {
    hide ActionsOf, HasGrant;
    ghost var granted := Granted(db, caller, r, id);
    ghost var undone := GrantRevoked(granted, id, at);
    ghost var narrowed := db.(rows := db.rows[r.resource := db.rows[r.resource].(vis := SharedExplicitly)]);
    forall m, k, now ensures ActionsOf(undone, dir, m, k, now) == ActionsOf(narrowed, dir, m, k, now) {
      forall a ensures a in ActionsOf(undone, dir, m, k, now) <==> a in ActionsOf(narrowed, dir, m, k, now) {
        ActionsMeaning(undone, dir, m, k, a, now);
        ActionsMeaning(narrowed, dir, m, k, a, now);
        if m in dir {
          NamesAfterRevoke(granted, id, at, m.ws, dir[m].account, k, a, now);
          OthersKept(db, caller, r, id, m.ws, dir[m].account, k, a, now);
        }
      }
    }
  }

  lemma OthersKept(db: Db, caller: Membership, r: GrantRequest, id: nat, ws: nat, account: nat, k: Key, a: Action, now: nat)
    requires r.resource in db.rows && id !in db.grants
    ensures var after := Granted(db, caller, r, id).grants;
      HasGrant(db.grants, ws, account, k, a, now)
      <==> exists j :: j in after && j != id && Names(after[j], ws, account, k, now) && a in after[j].actions
  {
    var after := Granted(db, caller, r, id).grants;
    if j :| j in after && j != id && Names(after[j], ws, account, k, now) && a in after[j].actions {
      assert db.grants[j] == after[j];
    }
    if j :| j in db.grants && Names(db.grants[j], ws, account, k, now) && a in db.grants[j].actions {
      assert after[j] == db.grants[j];
    }
  }

  function TransferRefusal(db: Db, dir: Directory, isolation: bool, caller: Membership, k: Key, to: nat)
    : Option<Refusal>
  {
    var why := RowRefusal(db, dir, isolation, caller, k);
    if why.Some? then why
    else if !ActiveAccount(dir, caller.ws, to) then Some(RecipientNotFound)
    else None
  }

  function UserOf(dir: Directory, ws: nat, account: nat): (user: nat)
    requires OneSeatPerAccount(dir) && ActiveAccount(dir, ws, account)
    ensures Membership(ws, user) in dir
    ensures dir[Membership(ws, user)].account == account && dir[Membership(ws, user)].active
  {
    var m :| m in dir && m.ws == ws && dir[m].account == account && dir[m].active;
    assert m == Membership(ws, m.user);
    m.user
  }

  // POST /ownership/transfers
  method TransferOwnership(conn: Database, dir: Directory, isolation: bool, caller: Membership, k: Key, to: nat)
    returns (refused: Option<Refusal>)
    requires OneSeatPerAccount(dir)
    modifies conn`rows
    ensures refused == TransferRefusal(old(conn.State()), dir, isolation, caller, k, to)
    ensures TransferRefusals(old(conn.State()), dir, isolation, caller, k, to, refused)
    ensures refused.Some? ==> conn.State() == old(conn.State())
    ensures refused.None? ==> k in old(conn.rows) && ActiveAccount(dir, caller.ws, to)
    ensures refused.None? ==> conn.State() == Transferred(old(conn.State()), k, UserOf(dir, caller.ws, to))
    ensures refused.None? ==> TransferView(old(conn.State()), conn.State(), dir, k, UserOf(dir, caller.ws, to))
  {
    TransferRefusedWhenDue(conn.State(), dir, isolation, caller, k, to);
    if !Grantable(k.table) { return Some(TypeNotGrantable); }
    if k !in conn.rows || conn.rows[k].ws != caller.ws { return Some(ResourceNotFound); }
    if conn.rows[k].owner != caller.user {
      var role := CurrentRole(dir, caller);
      if role != Some(WorkspaceOwner) && role != Some(Admin) { return Some(InsufficientRole); }
    }
    if isolation && IsPersonal(conn.rows, k) { return Some(PersonalData); }
    if !ActiveAccount(dir, caller.ws, to) { return Some(RecipientNotFound); }
    TransferMoves(conn.State(), dir, k, UserOf(dir, caller.ws, to));
    conn.rows := conn.rows[k := conn.rows[k].(owner := UserOf(dir, caller.ws, to))];
    return None;
  }

  function Transferred(db: Db, k: Key, owner: nat): Db
    requires k in db.rows
  {
    db.(rows := db.rows[k := db.rows[k].(owner := owner)])
  }

  // -------------------------------------------------------------------- the preview

  datatype Preview = Preview(current: Visibility, requiresNarrowing: bool, losing: set<nat>,
                             alreadyHasAccess: bool, gains: set<Action>)

  // The accounts that lose the workspace-wide access the row has today.
  function MembersLosingDefaultAccess(db: Db, dir: Directory, ws: nat, owner: nat, grantee: nat, k: Key, now: nat)
    : set<nat>
  {
    set m | m in dir && m.ws == ws && dir[m].active && m.user != owner && dir[m].account != grantee
            && LiveGrants(db.grants, ws, dir[m].account, k, now) == {} :: dir[m].account
  }

  datatype PreviewResult = PreviewRefused(why: Refusal) | Previewed(preview: Preview)

  function PreviewGrant(db: Db, dir: Directory, isolation: bool, caller: Membership, r: GrantRequest, now: nat)
    : PreviewResult
    requires OneSeatPerAccount(dir)
  {
    var why := RowRefusal(db, dir, isolation, caller, r.resource);
    if why.Some? then PreviewRefused(why.value)
    else if !ActiveAccount(dir, caller.ws, r.grantee) then PreviewRefused(GranteeNotFound)
    else
      var row := db.rows[r.resource];
      var user := UserOf(dir, caller.ws, r.grantee);
      var access :=
        match row.vis
        case Workspace => RolePermissions(dir[Membership(caller.ws, user)].role)
        case SharedExplicitly => GrantedActions(db.grants, caller.ws, r.grantee, r.resource, now)
        case Private => {};
      var losing := if row.vis == Workspace
        then MembersLosingDefaultAccess(db, dir, caller.ws, row.owner, r.grantee, r.resource, now) else {};
      Previewed(Preview(row.vis, row.vis == Workspace, losing, r.actions <= access, r.actions - access))
  }

  // The preview is refused exactly when the confirmed grant would be, for the same reason.
  lemma PreviewRefusesAsCreate(db: Db, dir: Directory, isolation: bool, caller: Membership, r: GrantRequest, now: nat)
    requires OneSeatPerAccount(dir)
    ensures var p := PreviewGrant(db, dir, isolation, caller, r, now);
      && GrantRefusals(db, dir, isolation, caller, r.(narrow := true),
                       if p.PreviewRefused? then Some(p.why) else None)
      && (p.Previewed? ==> r.resource in db.rows && p.preview.current == db.rows[r.resource].vis
                           && (p.preview.requiresNarrowing <==> db.rows[r.resource].vis == Workspace))
    ensures var p := PreviewGrant(db, dir, isolation, caller, r, now);
      var refused := GrantRefusal(db, dir, isolation, caller, r.(narrow := true));
      && (p.PreviewRefused? <==> refused.Some?)
      && (p.PreviewRefused? ==> refused == Some(p.why))
      && (p.Previewed? && !r.narrow ==>
            (p.preview.requiresNarrowing
             <==> GrantRefusal(db, dir, isolation, caller, r) == Some(RequiresNarrowVisibility)))
  {
    GrantRefusedWhenDue(db, dir, isolation, caller, r.(narrow := true));
    hide GrantRefusals, InSet;
  }

  // The members whose access the grant takes away.
  ghost function Losers(before: Db, after: Db, dir: Directory, ws: nat, k: Key, now: nat): set<nat> {
    set m | m in dir && m.ws == ws && dir[m].active
            && EffectivePermissions(before, dir, m, k, now).Some?
            && EffectivePermissions(after, dir, m, k, now).None? :: dir[m].account
  }

  lemma ActionsAfter(db: Db, caller: Membership, r: GrantRequest, id: nat, account: nat, now: nat)
    requires r.resource in db.rows && id !in db.grants
    ensures GrantedActions(Granted(db, caller, r, id).grants, caller.ws, account, r.resource, now)
      == GrantedActions(db.grants, caller.ws, account, r.resource, now)
         + (if account == r.grantee && (r.expiresAt.None? || r.expiresAt.value > now) then r.actions else {})
  {
    var after := Granted(db, caller, r, id).grants;
    var x, y := GrantedActions(after, caller.ws, account, r.resource, now),
      GrantedActions(db.grants, caller.ws, account, r.resource, now);
    forall a | a in y ensures a in x {
      var g :| g in db.grants && Names(db.grants[g], caller.ws, account, r.resource, now) && a in db.grants[g].actions;
      assert after[g] == db.grants[g];
    }
    forall a | a in r.actions && account == r.grantee && (r.expiresAt.None? || r.expiresAt.value > now)
      ensures a in x
    {
      assert Names(after[id], caller.ws, account, r.resource, now);
    }
  }

  lemma HasActions(grants: map<nat, Grant>, ws: nat, account: nat, k: Key, now: nat)
    requires GrantsNonEmpty(grants)
    ensures GrantedActions(grants, ws, account, k, now) == {} <==> LiveGrants(grants, ws, account, k, now) == {}
  {
    if g :| g in LiveGrants(grants, ws, account, k, now) {
      var a :| a in grants[g].actions;
      assert a in GrantedActions(grants, ws, account, k, now);
    }
    if a :| a in GrantedActions(grants, ws, account, k, now) {
      var g :| g in grants && Names(grants[g], ws, account, k, now) && a in grants[g].actions;
      assert g in LiveGrants(grants, ws, account, k, now);
    }
  }

  // Who loses access to a `workspace` row once the grant is created.
  lemma LosesIff(db: Db, dir: Directory, caller: Membership, r: GrantRequest, id: nat, now: nat, m: Membership)
    requires GrantsNonEmpty(db.grants) && id !in db.grants && r.actions != {}
    requires r.resource in db.rows && db.rows[r.resource].ws == caller.ws && db.rows[r.resource].vis == Workspace
    requires m in dir && m.ws == caller.ws && dir[m].active
    ensures EffectivePermissions(db, dir, m, r.resource, now).Some?
    ensures EffectivePermissions(Granted(db, caller, r, id), dir, m, r.resource, now).None?
      <==> m.user != db.rows[r.resource].owner
           && LiveGrants(db.grants, caller.ws, dir[m].account, r.resource, now) == {}
           && (dir[m].account == r.grantee ==> r.expiresAt.Some? && r.expiresAt.value <= now)
  {
    ActionsAfter(db, caller, r, id, dir[m].account, now);
    HasActions(db.grants, caller.ws, dir[m].account, r.resource, now);
  }

  // The preview of a grant on a `workspace` row names exactly the members the grant locks
  // out; a grant that is created expired locks its grantee out, too.
  lemma PreviewExact(db: Db, dir: Directory, isolation: bool, caller: Membership, r: GrantRequest, id: nat, now: nat)
    requires OneSeatPerAccount(dir) && GrantsNonEmpty(db.grants) && id !in db.grants && r.actions != {}
    requires PreviewGrant(db, dir, isolation, caller, r, now).Previewed?
    requires db.rows[r.resource].vis == Workspace
    ensures var p := PreviewGrant(db, dir, isolation, caller, r, now).preview;
      var expired := r.expiresAt.Some? && r.expiresAt.value <= now;
      Losers(db, Granted(db, caller, r, id), dir, caller.ws, r.resource, now)
      == p.losing
         + (if expired && db.rows[r.resource].owner != UserOf(dir, caller.ws, r.grantee)
               && LiveGrants(db.grants, caller.ws, r.grantee, r.resource, now) == {} then {r.grantee} else {})
  {
    hide EffectivePermissions, LiveGrants, PreviewGrant;
    PreviewedLosers(db, dir, isolation, caller, r, now);
    ghost var after := Granted(db, caller, r, id);
    ghost var k, owner := r.resource, db.rows[r.resource].owner;
    ghost var expired := r.expiresAt.Some? && r.expiresAt.value <= now;
    forall m | m in dir && m.ws == caller.ws && dir[m].active
      ensures EffectivePermissions(db, dir, m, k, now).Some?
      ensures EffectivePermissions(after, dir, m, k, now).None?
        <==> m.user != owner && LiveGrants(db.grants, caller.ws, dir[m].account, k, now) == {}
             && (dir[m].account == r.grantee ==> expired)
    {
      LosesIff(db, dir, caller, r, id, now, m);
    }
    ghost var grantee := Membership(caller.ws, UserOf(dir, caller.ws, r.grantee));
    assert forall m :: m in dir && m.ws == caller.ws && dir[m].account == r.grantee ==> m == grantee;
    ghost var x, y := Losers(db, after, dir, caller.ws, k, now),
      MembersLosingDefaultAccess(db, dir, caller.ws, owner, r.grantee, k, now);
    ghost var extra: set<nat> := if expired && owner != grantee.user
      && LiveGrants(db.grants, caller.ws, r.grantee, k, now) == {} then {r.grantee} else {};
    forall a ensures a in x <==> a in y + extra {
      if a in x {
        var m :| m in dir && m.ws == caller.ws && dir[m].active && EffectivePermissions(after, dir, m, k, now).None?
          && a == dir[m].account;
      }
      if a in y {
        var m :| m in dir && m.ws == caller.ws && dir[m].active && m.user != owner && dir[m].account != r.grantee
          && LiveGrants(db.grants, caller.ws, dir[m].account, k, now) == {} && a == dir[m].account;
        assert EffectivePermissions(after, dir, m, k, now).None?;
      }
      if a in extra {
        assert EffectivePermissions(after, dir, grantee, k, now).None?;
      }
    }
  }

  lemma PreviewedLosers(db: Db, dir: Directory, isolation: bool, caller: Membership, r: GrantRequest, now: nat)
    requires OneSeatPerAccount(dir) && PreviewGrant(db, dir, isolation, caller, r, now).Previewed?
    ensures r.resource in db.rows && db.rows[r.resource].ws == caller.ws && ActiveAccount(dir, caller.ws, r.grantee)
    ensures db.rows[r.resource].vis == Workspace ==>
      PreviewGrant(db, dir, isolation, caller, r, now).preview.losing
      == MembersLosingDefaultAccess(db, dir, caller.ws, db.rows[r.resource].owner, r.grantee, r.resource, now)
  {
  }

  // What the preview says the grantee gains: exactly what it can do afterwards and could
  // not before, unless the grantee owns the row or the row's grants lie dormant because it
  // is not shared explicitly.
  lemma GainsExact(db: Db, dir: Directory, isolation: bool, caller: Membership, r: GrantRequest, id: nat, now: nat)
    requires OneSeatPerAccount(dir) && id !in db.grants
    requires PreviewGrant(db, dir, isolation, caller, r, now).Previewed?
    requires r.expiresAt.None? || r.expiresAt.value > now
    ensures var p := PreviewGrant(db, dir, isolation, caller, r, now).preview;
      var grantee := Membership(caller.ws, UserOf(dir, caller.ws, r.grantee));
      var k, after := r.resource, Granted(db, caller, r, id);
      var gained := ActionsOf(after, dir, grantee, k, now) - ActionsOf(db, dir, grantee, k, now);
      var dormant := if db.rows[k].vis == SharedExplicitly then {}
                     else GrantedActions(db.grants, caller.ws, r.grantee, k, now);
      if db.rows[k].owner == grantee.user then gained == {}
      else gained == p.gains + (dormant - ActionsOf(db, dir, grantee, k, now))
           && (p.alreadyHasAccess <==> r.actions <= ActionsOf(db, dir, grantee, k, now))
  {
    ActionsAfter(db, caller, r, id, r.grantee, now);
  }

  // On a `workspace` row a grant can also take away: what the grantee's role allowed and
  // the grant does not name.
  lemma NarrowingTakesFromGrantee(db: Db, dir: Directory, isolation: bool, caller: Membership, r: GrantRequest, id: nat, now: nat)
    requires OneSeatPerAccount(dir) && id !in db.grants
    requires PreviewGrant(db, dir, isolation, caller, r, now).Previewed?
    requires r.expiresAt.None? || r.expiresAt.value > now
    requires db.rows[r.resource].vis == Workspace
    ensures var grantee := Membership(caller.ws, UserOf(dir, caller.ws, r.grantee));
      var k, after := r.resource, Granted(db, caller, r, id);
      Write in ActionsOf(db, dir, grantee, k, now) - ActionsOf(after, dir, grantee, k, now)
      <==> (&& db.rows[k].owner != grantee.user && dir[grantee].role != Viewer && Write !in r.actions
            && Write !in GrantedActions(db.grants, caller.ws, r.grantee, k, now))
  {
    ActionsAfter(db, caller, r, id, r.grantee, now);
  }
}
