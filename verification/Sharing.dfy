// Who may do what to a row: the point decision, the permissions it reports, and the
// filter the lists use.
module Sharing {
  import opened Records
  import opened Ordering

  datatype Role = WorkspaceOwner | Admin | Member | Viewer

  const ACTIONS: set<Action> := {Read, Write}

  function RolePermissions(role: Role): (p: set<Action>)
    ensures Read in p
  {
    match role
    case WorkspaceOwner | Admin | Member => {Read, Write}
    case Viewer => {Read}
  }

  // A user of a workspace: the account behind it, and its membership.
  datatype Seat = Seat(account: nat, role: Role, active: bool)

  type Directory = map<Membership, Seat>

  // `UNIQUE (workspace_id, account_id)`.
  ghost predicate OneSeatPerAccount(dir: Directory) {
    forall a, b :: a in dir && b in dir && a.ws == b.ws && dir[a].account == dir[b].account ==> a == b
  }

  // `CHECK (cardinality(actions) > 0)`.
  ghost predicate GrantsNonEmpty(grants: map<nat, Grant>) {
    forall g :: g in grants ==> grants[g].actions != {}
  }

  function CurrentRole(dir: Directory, caller: Membership): Option<Role> {
    if caller in dir && dir[caller].active then Some(dir[caller].role) else None
  }

  function AccountOf(dir: Directory, caller: Membership): Option<nat> {
    if caller in dir then Some(dir[caller].account) else None
  }

  predicate Live(g: Grant, now: nat) {
    g.revokedAt.None? && (g.expiresAt.None? || g.expiresAt.value > now)
  }

  predicate Names(g: Grant, ws: nat, account: nat, k: Key, now: nat) {
    g.ws == ws && g.grantee == account && g.resource == k && Live(g, now)
  }

  // The live grants naming this account on this row.
  function LiveGrants(grants: map<nat, Grant>, ws: nat, account: nat, k: Key, now: nat): set<nat> {
    set g | g in grants && Names(grants[g], ws, account, k, now)
  }

  function LiveGrantsFor(grants: map<nat, Grant>, ws: nat, account: nat, k: Key, action: Action, now: nat): set<nat> {
    set g | g in LiveGrants(grants, ws, account, k, now) && action in grants[g].actions
  }

  // ------------------------------------------------------------ the point decision

  datatype Answer = Allowed | Denied | Raised

  // `one_or_none`: a second matching row raises.
  function ActiveGrantExists(grants: map<nat, Grant>, ws: nat, account: nat, k: Key, action: Action, now: nat): Answer {
    var n := |LiveGrantsFor(grants, ws, account, k, action, now)|;
    if n == 0 then Denied else if n == 1 then Allowed else Raised
  }

  datatype Access = Access(role: Role, row: Row, isOwner: bool)

  function ResourceAccess(db: Db, dir: Directory, caller: Membership, k: Key): Option<Access> {
    var role := CurrentRole(dir, caller);
    if role.None? || k !in db.rows || db.rows[k].ws != caller.ws then None
    else Some(Access(role.value, db.rows[k], db.rows[k].owner == caller.user))
  }

  function Authorize(db: Db, dir: Directory, caller: Membership, k: Key, action: Action, now: nat): Answer {
    match ResourceAccess(db, dir, caller, k)
    case None => Denied
    case Some(Access(role, row, isOwner)) =>
      if isOwner then Allowed
      else
        match row.vis
        case Private => Denied
        case SharedExplicitly =>
          var account := AccountOf(dir, caller);
          if account.None? then Denied
          else ActiveGrantExists(db.grants, caller.ws, account.value, k, action, now)
        case Workspace => if action in RolePermissions(role) then Allowed else Denied
  }

  // ------------------------------------------------------- the permissions reported

  datatype Via = ByOwnership | ByWorkspaceRole | ByResourceGrant

  datatype Permissions = Permissions(via: Via, actions: set<Action>)

  function GrantedActions(grants: map<nat, Grant>, ws: nat, account: nat, k: Key, now: nat): set<Action> {
    set g, a: Action | g in grants && Names(grants[g], ws, account, k, now) && a in grants[g].actions :: a
  }

  // The union over the matching grants, row by row.
  method ActiveGrantActionsFor(grants: map<nat, Grant>, ws: nat, account: nat, k: Key, now: nat)
    returns (combined: set<Action>)
    ensures combined == GrantedActions(grants, ws, account, k, now)
  {
    combined := {};
    var rows := LiveGrants(grants, ws, account, k, now);
    ghost var read := {};
    while rows != {}
      invariant read + rows == LiveGrants(grants, ws, account, k, now)
      invariant forall a :: a in combined <==> exists g :: g in read && g in grants && a in grants[g].actions
      decreases |rows|
    {
      var g :| g in rows;
      assert g in LiveGrants(grants, ws, account, k, now);
      combined := combined + grants[g].actions;
      rows, read := rows - {g}, read + {g};
    }
    assert read == LiveGrants(grants, ws, account, k, now);
    forall a ensures a in combined <==> a in GrantedActions(grants, ws, account, k, now) {
      if a in combined {
        var g :| g in read && g in grants && a in grants[g].actions;
      }
      if a in GrantedActions(grants, ws, account, k, now) {
        var g :| g in grants && Names(grants[g], ws, account, k, now) && a in grants[g].actions;
        assert g in read;
      }
    }
  }

  function EffectivePermissions(db: Db, dir: Directory, caller: Membership, k: Key, now: nat): Option<Permissions> {
    match ResourceAccess(db, dir, caller, k)
    case None => None
    case Some(Access(role, row, isOwner)) =>
      if isOwner then Some(Permissions(ByOwnership, ACTIONS))
      else
        match row.vis
        case Private => None
        case SharedExplicitly =>
          var account := AccountOf(dir, caller);
          if account.None? then None
          else
            var actions := GrantedActions(db.grants, caller.ws, account.value, k, now);
            if actions == {} then None else Some(Permissions(ByResourceGrant, actions))
        case Workspace => Some(Permissions(ByWorkspaceRole, RolePermissions(role)))
  }

  // -------------------------------------------------------------- the list filter

  predicate VisibleInList(db: Db, dir: Directory, caller: Membership, k: Key, action: Action, now: nat)
    requires k in db.rows
  {
    var role, account, row := CurrentRole(dir, caller), AccountOf(dir, caller), db.rows[k];
    role.Some? &&
    (row.owner == caller.user
     || (row.vis == Workspace && action in RolePermissions(role.value))
     || (row.vis == SharedExplicitly && account.Some?
         && exists g :: g in db.grants && Names(db.grants[g], caller.ws, account.value, k, now)
              && action in db.grants[g].actions))
  }

  function ListVisible(db: Db, dir: Directory, caller: Membership, t: Table, action: Action, now: nat): set<Key> {
    set k | k in db.rows && k.table == t && db.rows[k].ws == caller.ws
            && VisibleInList(db, dir, caller, k, action, now)
  }

  // ------------------------------------------------------------------- properties

  lemma GrantedIff(grants: map<nat, Grant>, ws: nat, account: nat, k: Key, action: Action, now: nat)
    ensures action in GrantedActions(grants, ws, account, k, now)
      <==> LiveGrantsFor(grants, ws, account, k, action, now) != {}
    ensures LiveGrantsFor(grants, ws, account, k, action, now) != {}
      <==> exists g :: g in grants && Names(grants[g], ws, account, k, now) && action in grants[g].actions
  {
    if g :| g in grants && Names(grants[g], ws, account, k, now) && action in grants[g].actions {
      assert g in LiveGrantsFor(grants, ws, account, k, action, now);
    }
    if LiveGrantsFor(grants, ws, account, k, action, now) != {} {
      var g :| g in LiveGrantsFor(grants, ws, account, k, action, now);
      assert g in grants && Names(grants[g], ws, account, k, now) && action in grants[g].actions;
    }
  }

  // One decision, three forms: a row is listed for an action iff the action is among the
  // permissions reported, iff the point decision does not deny it.
  lemma FormsAgree(db: Db, dir: Directory, caller: Membership, k: Key, action: Action, now: nat)
    ensures var listed := k in ListVisible(db, dir, caller, k.table, action, now);
      var perms := EffectivePermissions(db, dir, caller, k, now);
      var answer := Authorize(db, dir, caller, k, action, now);
      && (listed <==> perms.Some? && action in perms.value.actions)
      && (listed <==> answer != Denied)
      && (answer == Raised <==> Overlapping(db, dir, caller, k, action, now))
      && (!Overlapping(db, dir, caller, k, action, now) ==> (listed <==> answer == Allowed))
  {
    if k in db.rows && caller in dir {
      GrantedIff(db.grants, caller.ws, dir[caller].account, k, action, now);
    }
  }

  // Two live grants of the action to an active member who does not own the row.
  predicate Overlapping(db: Db, dir: Directory, caller: Membership, k: Key, action: Action, now: nat) {
    && CurrentRole(dir, caller).Some?
    && k in db.rows && db.rows[k].ws == caller.ws
    && db.rows[k].owner != caller.user && db.rows[k].vis == SharedExplicitly
    && |LiveGrantsFor(db.grants, caller.ws, dir[caller].account, k, action, now)| >= 2
  }

  // No permissions are reported exactly when no action is listed.
  lemma NoneIffNothingListed(db: Db, dir: Directory, caller: Membership, k: Key, now: nat)
    ensures EffectivePermissions(db, dir, caller, k, now).None?
      <==> (forall a :: k !in ListVisible(db, dir, caller, k.table, a, now))
  {
    var perms := EffectivePermissions(db, dir, caller, k, now);
    forall a ensures k in ListVisible(db, dir, caller, k.table, a, now) <==> perms.Some? && a in perms.value.actions {
      FormsAgree(db, dir, caller, k, a, now);
    }
    if perms.Some? {
      assert perms.value.actions != {};
      var a :| a in perms.value.actions;
      assert k in ListVisible(db, dir, caller, k.table, a, now);
    }
  }

  // Each permission names the rule it came from.
  lemma ViaMeaning(db: Db, dir: Directory, caller: Membership, k: Key, now: nat)
    requires EffectivePermissions(db, dir, caller, k, now).Some?
    ensures k in db.rows && db.rows[k].ws == caller.ws && caller in dir && dir[caller].active
    ensures var via, row := EffectivePermissions(db, dir, caller, k, now).value.via, db.rows[k];
      && (via == ByOwnership <==> row.owner == caller.user)
      && (via == ByWorkspaceRole <==> row.owner != caller.user && row.vis == Workspace)
      && (via == ByResourceGrant <==> row.owner != caller.user && row.vis == SharedExplicitly)
  {
  }

  // A viewer who does not own a row writes to it only through a grant of `write`.
  lemma ViewersWriteByGrantOnly(db: Db, dir: Directory, caller: Membership, k: Key, now: nat)
    requires CurrentRole(dir, caller) == Some(Viewer)
    requires Authorize(db, dir, caller, k, Write, now) == Allowed
    ensures k in db.rows && (db.rows[k].owner == caller.user
      || (db.rows[k].vis == SharedExplicitly
          && exists g :: g in db.grants && Names(db.grants[g], caller.ws, dir[caller].account, k, now)
               && Write in db.grants[g].actions))
  {
    GrantedIff(db.grants, caller.ws, dir[caller].account, k, Write, now);
  }
}
