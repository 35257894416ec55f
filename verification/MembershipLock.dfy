// Authorized writes against member removal, role change and sharing: the membership lock
// (shared by writers, exclusive for membership changes) and the row locks, step by step.
module MembershipLock {
  import opened Records
  import opened Rules
  import opened Moves
  import opened Process
  import opened Sharing
  import opened Grants

  // What an authorized write checks after taking the shared lock.
  datatype Gate =
    | RoleGate(action: Action)
    | RowGate(key: Key, action: Action, lockRow: bool)

  // `db`: the rows and grants the check read.
  datatype WriterStage = Waiting | Locked | Checked(role: Role, now: nat, db: Db)

  datatype Change = SetRole(to: Role) | Remove

  datatype ChangerStage = Starting | Entitled(role: Role) | Holding(role: Role) | Approved(role: Role)

  datatype Tx =
    | Writer(actor: Membership, gate: Gate, stage: WriterStage)
    | Changer(caller: Membership, target: nat, change: Change, at: ChangerStage)
    | Sharer

  datatype Hold = Hold(ws: nat, tx: nat)

  // The committed state, the locks held and the transactions under way.
  datatype System = System(db: Db, dir: Directory, shared: set<Hold>, exclusive: map<nat, nat>,
                           rowLocks: map<Key, nat>, txs: map<nat, Tx>)

  datatype Step =
    | Begin(t: nat, tx: Tx)
    | LockShared(t: nat)
    | LockRow(t: nat, k: Key)
    | Check(t: nat, now: nat)
    | CommitWrite(t: nat, db: Db)
    | ReadRole(t: nat)
    | LockExclusive(t: nat)
    | Approve(t: nat)
    | CommitChange(t: nat)
    | CommitSharing(t: nat, db: Db)
    | Join(m: Membership, seat: Seat)
    | Abort(t: nat)

  // ------------------------------------------------------------------------ guards

  predicate Starts(tx: Tx) {
    match tx
    case Writer(_, _, stage) => stage == Waiting
    case Changer(_, _, _, at) => at == Starting
    case Sharer => true
  }

  predicate GateOpen(s: System, actor: Membership, gate: Gate, now: nat) {
    match gate
    case RoleGate(action) =>
      CurrentRole(s.dir, actor).Some? && action in RolePermissions(CurrentRole(s.dir, actor).value)
    case RowGate(k, action, _) => Authorize(s.db, s.dir, actor, k, action, now) == Allowed
  }

  // What the endpoints ask of the caller's role before they take the lock.
  predicate EntitledTo(role: Role, self: bool, change: Change) {
    match change
    case SetRole(to) => role in {WorkspaceOwner, Admin} && (to == WorkspaceOwner ==> role == WorkspaceOwner)
    case Remove => role in {WorkspaceOwner, Admin} || self
  }

  predicate OtherOwner(dir: Directory, m: Membership) {
    exists o :: o in dir && o != m && o.ws == m.ws && dir[o].active && dir[o].role == WorkspaceOwner
  }

  // What they ask of the target under the lock.
  predicate Approvable(dir: Directory, m: Membership, change: Change, role: Role) {
    && m in dir && dir[m].active
    && (dir[m].role == WorkspaceOwner ==>
          role == WorkspaceOwner && (change == SetRole(WorkspaceOwner) || OtherOwner(dir, m)))
  }

  function Changed(dir: Directory, m: Membership, change: Change): Directory
    requires m in dir
  {
    match change
    case SetRole(to) => dir[m := dir[m].(role := to)]
    case Remove => dir[m := dir[m].(active := false)]
  }

  function GrantsOn(grants: map<nat, Grant>, k: Key): map<nat, Grant> {
    map g | g in grants && grants[g].resource == k :: grants[g]
  }

  // Rows, and grants on rows, that differ between two states are all among `keys`.
  ghost predicate OnlyTouches(a: Db, b: Db, keys: set<Key>) {
    forall k :: k !in keys ==>
      && (k in a.rows <==> k in b.rows)
      && (k in a.rows ==> a.rows[k] == b.rows[k])
      && GrantsOn(a.grants, k) == GrantsOn(b.grants, k)
  }

  function RowsHeld(s: System, t: nat): set<Key> {
    set k | k in s.rowLocks && s.rowLocks[k] == t
  }

  ghost predicate Enabled(s: System, step: Step) {
    match step
    case Begin(t, tx) => t !in s.txs && Starts(tx)
    case LockShared(t) =>
      t in s.txs && s.txs[t].Writer? && s.txs[t].stage.Waiting? && s.txs[t].actor.ws !in s.exclusive
    case LockRow(t, k) =>
      t in s.txs && k !in s.rowLocks
      && (s.txs[t].Sharer? || (s.txs[t].Writer? && !s.txs[t].stage.Waiting?))
    case Check(t, now) =>
      t in s.txs && s.txs[t].Writer? && s.txs[t].stage.Locked?
      && (s.txs[t].gate.RowGate? && s.txs[t].gate.lockRow ==> s.txs[t].gate.key in RowsHeld(s, t))
      && GateOpen(s, s.txs[t].actor, s.txs[t].gate, now)
    case CommitWrite(t, db) =>
      t in s.txs && s.txs[t].Writer? && s.txs[t].stage.Checked? && OnlyTouches(s.db, db, RowsHeld(s, t))
    case ReadRole(t) =>
      t in s.txs && s.txs[t].Changer? && s.txs[t].at.Starting?
      && CurrentRole(s.dir, s.txs[t].caller).Some?
      && EntitledTo(CurrentRole(s.dir, s.txs[t].caller).value, s.txs[t].caller.user == s.txs[t].target, s.txs[t].change)
    case LockExclusive(t) =>
      t in s.txs && s.txs[t].Changer? && s.txs[t].at.Entitled?
      && s.txs[t].caller.ws !in s.exclusive
      && (forall h :: h in s.shared ==> h.ws != s.txs[t].caller.ws)
    case Approve(t) =>
      t in s.txs && s.txs[t].Changer? && s.txs[t].at.Holding?
      && Approvable(s.dir, TargetOf(s.txs[t]), s.txs[t].change, s.txs[t].at.role)
    case CommitChange(t) =>
      t in s.txs && s.txs[t].Changer? && s.txs[t].at.Approved? && TargetOf(s.txs[t]) in s.dir
    case CommitSharing(t, db) => t in s.txs && s.txs[t].Sharer? && OnlyTouches(s.db, db, RowsHeld(s, t))
    case Join(m, seat) => (m in s.dir ==> !s.dir[m].active)
    case Abort(t) => t in s.txs
  }

  function TargetOf(tx: Tx): Membership
    requires tx.Changer?
  {
    Membership(tx.caller.ws, tx.target)
  }

  // The end of a transaction releases all its locks.
  function Ended(s: System, t: nat): System {
    s.(txs := s.txs - {t},
       shared := (set h | h in s.shared && h.tx != t),
       exclusive := (map ws | ws in s.exclusive && s.exclusive[ws] != t :: s.exclusive[ws]),
       rowLocks := (map k | k in s.rowLocks && s.rowLocks[k] != t :: s.rowLocks[k]))
  }

  function At(s: System, t: nat, tx: Tx): System { s.(txs := s.txs[t := tx]) }

  ghost function Next(s: System, step: Step): System
    requires Enabled(s, step)
  {
    match step
    case Begin(t, tx) => At(s, t, tx)
    case LockShared(t) =>
      At(s, t, s.txs[t].(stage := Locked)).(shared := s.shared + {Hold(s.txs[t].actor.ws, t)})
    case LockRow(t, k) => s.(rowLocks := s.rowLocks[k := t])
    case Check(t, now) => At(s, t, s.txs[t].(stage := Checked(CurrentRole(s.dir, s.txs[t].actor).value, now, s.db)))
    case CommitWrite(t, db) => Ended(s.(db := db), t)
    case ReadRole(t) => At(s, t, s.txs[t].(at := Entitled(CurrentRole(s.dir, s.txs[t].caller).value)))
    case LockExclusive(t) =>
      At(s, t, s.txs[t].(at := Holding(s.txs[t].at.role))).(exclusive := s.exclusive[s.txs[t].caller.ws := t])
    case Approve(t) => At(s, t, s.txs[t].(at := Approved(s.txs[t].at.role)))
    case CommitChange(t) =>
      Ended(s.(dir := Changed(s.dir, TargetOf(s.txs[t]), s.txs[t].change)), t)
    case CommitSharing(t, db) => Ended(s.(db := db), t)
    case Join(m, seat) => s.(dir := s.dir[m := seat.(active := true)])
    case Abort(t) => Ended(s, t)
  }

  // -------------------------------------------------------------------- invariant

  // A checked writer: its role is still the one it was checked with and still allows what it
  // was checked for on the rows and grants it read; where it locked the row first, the whole
  // decision still stands.
  ghost predicate StillAuthorized(s: System, t: nat)
    requires t in s.txs && s.txs[t].Writer? && s.txs[t].stage.Checked?
  {
    var w := s.txs[t];
    && CurrentRole(s.dir, w.actor) == Some(w.stage.role)
    && (w.gate.RoleGate? ==> w.gate.action in RolePermissions(w.stage.role))
    && (w.gate.RowGate? ==> Authorize(w.stage.db, s.dir, w.actor, w.gate.key, w.gate.action, w.stage.now) == Allowed)
    && (w.gate.RowGate? && w.gate.lockRow ==>
          w.gate.key in RowsHeld(s, t)
          && Authorize(s.db, s.dir, w.actor, w.gate.key, w.gate.action, w.stage.now) == Allowed)
  }

  ghost predicate WriterSound(s: System, t: nat)
    requires t in s.txs && s.txs[t].Writer?
  {
    && (!s.txs[t].stage.Waiting? ==> Hold(s.txs[t].actor.ws, t) in s.shared)
    && (s.txs[t].stage.Checked? ==> StillAuthorized(s, t))
  }

  ghost predicate ChangerSound(s: System, t: nat)
    requires t in s.txs && s.txs[t].Changer?
  {
    var c := s.txs[t];
    && (c.at.Holding? || c.at.Approved? ==> c.caller.ws in s.exclusive && s.exclusive[c.caller.ws] == t)
    && (c.at.Approved? ==> Approvable(s.dir, TargetOf(c), c.change, c.at.role))
    && (!c.at.Starting? ==> EntitledTo(c.at.role, c.caller.user == c.target, c.change))
  }

  ghost predicate Invariant(s: System) {
    && (forall h :: h in s.shared ==> h.ws !in s.exclusive)
    && (forall t :: t in s.txs && s.txs[t].Writer? ==> WriterSound(s, t))
    && (forall t :: t in s.txs && s.txs[t].Changer? ==> ChangerSound(s, t))
  }

  // Nothing is under way.
  ghost predicate Quiet(s: System) {
    s.shared == {} && s.exclusive == map[] && s.rowLocks == map[] && s.txs == map[]
  }

  // A point decision reads the caller's seat, the row and the grants on it.
  lemma AuthorizeReads(a: Db, b: Db, da: Directory, db: Directory, m: Membership, k: Key, action: Action, now: nat)
    requires m in da && m in db && da[m] == db[m]
    requires (k in a.rows <==> k in b.rows) && (k in a.rows ==> a.rows[k] == b.rows[k])
    requires GrantsOn(a.grants, k) == GrantsOn(b.grants, k)
    ensures Authorize(a, da, m, k, action, now) == Authorize(b, db, m, k, action, now)
  {
    var account := da[m].account;
    forall g ensures g in LiveGrantsFor(a.grants, m.ws, account, k, action, now)
      <==> g in LiveGrantsFor(b.grants, m.ws, account, k, action, now)
    {
      assert g in a.grants && a.grants[g].resource == k <==> g in GrantsOn(a.grants, k);
      assert g in b.grants && b.grants[g].resource == k <==> g in GrantsOn(b.grants, k);
    }
    assert LiveGrantsFor(a.grants, m.ws, account, k, action, now) == LiveGrantsFor(b.grants, m.ws, account, k, action, now);
  }

  // Authorized writers of a workspace pass a change of the directory that leaves their seat
  // alone and a change of rows they did not lock.
  lemma StillAuthorizedAfter(s: System, s': System, t: nat)
    requires t in s.txs && s.txs[t].Writer? && s.txs[t].stage.Checked? && StillAuthorized(s, t)
    requires t in s'.txs && s'.txs[t] == s.txs[t]
    requires s.txs[t].actor in s'.dir && s'.dir[s.txs[t].actor] == s.dir[s.txs[t].actor]
    requires RowsHeld(s, t) <= RowsHeld(s', t)
    requires s.txs[t].gate.RowGate? && s.txs[t].gate.lockRow ==>
      var k := s.txs[t].gate.key;
      && (k in s.db.rows <==> k in s'.db.rows) && (k in s.db.rows ==> s.db.rows[k] == s'.db.rows[k])
      && GrantsOn(s.db.grants, k) == GrantsOn(s'.db.grants, k)
    ensures StillAuthorized(s', t)
  {
    var w := s.txs[t];
    if w.gate.RowGate? {
      AuthorizeReads(w.stage.db, w.stage.db, s.dir, s'.dir, w.actor, w.gate.key, w.gate.action, w.stage.now);
    }
    if w.gate.RowGate? && w.gate.lockRow {
      AuthorizeReads(s.db, s'.db, s.dir, s'.dir, w.actor, w.gate.key, w.gate.action, w.stage.now);
    }
  }

  // No step takes from an authorized writer what it was authorized by.
  lemma WriterKept(s: System, step: Step, t: nat)
    requires Invariant(s) && Enabled(s, step)
    requires t in s.txs && s.txs[t].Writer? && t in Next(s, step).txs && Next(s, step).txs[t] == s.txs[t]
    ensures WriterSound(Next(s, step), t)
  {
    hide Authorize, Approvable, GateOpen, GrantsOn;
    var s' := Next(s, step);
    assert WriterSound(s, t);
    if s.txs[t].stage.Checked? {
      var actor := s.txs[t].actor;
      if step.CommitChange? {
        assert ChangerSound(s, step.t);
        assert s.txs[step.t].caller.ws != actor.ws by {
          assert Hold(actor.ws, t) in s.shared;
        }
      }
      assert actor in s'.dir && s'.dir[actor] == s.dir[actor];
      assert RowsHeld(s, t) <= RowsHeld(s', t);
      StillAuthorizedAfter(s, s', t);
    }
  }

  lemma WriterAdvanced(s: System, step: Step, t: nat)
    requires Invariant(s) && Enabled(s, step)
    requires t in Next(s, step).txs && Next(s, step).txs[t].Writer?
    requires t !in s.txs || Next(s, step).txs[t] != s.txs[t]
    ensures WriterSound(Next(s, step), t)
  {
    var s' := Next(s, step);
    if step.Check? {
      assert WriterSound(s, t);
      assert s'.db == s.db && s'.dir == s.dir && RowsHeld(s', t) == RowsHeld(s, t);
    }
  }

  lemma OtherOwnerKept(dir: Directory, m: Membership, j: Membership, seat: Seat)
    requires OtherOwner(dir, m) && (j in dir ==> !dir[j].active)
    ensures OtherOwner(dir[j := seat], m)
  {
    var o :| o in dir && o != m && o.ws == m.ws && dir[o].active && dir[o].role == WorkspaceOwner;
    assert o in dir[j := seat] && o != j;
  }

  // Another change in the same workspace cannot come between approval and commit.
  lemma ChangerKept(s: System, step: Step, t: nat)
    requires Invariant(s) && Enabled(s, step)
    requires t in Next(s, step).txs && Next(s, step).txs[t].Changer?
    ensures ChangerSound(Next(s, step), t)
  {
    hide Authorize, OtherOwner;
    var s' := Next(s, step);
    if t in s.txs && s'.txs[t] == s.txs[t] {
      assert ChangerSound(s, t);
      var m := TargetOf(s.txs[t]);
      if step.CommitChange? && s.txs[t].at.Approved? {
        assert ChangerSound(s, step.t);
        assert s.txs[step.t].caller.ws != s.txs[t].caller.ws;
        ElsewhereKeepsOwners(s.dir, m, TargetOf(s.txs[step.t]), s.txs[step.t].change);
      }
      if step.Join? && s.txs[t].at.Approved? && OtherOwner(s.dir, m) {
        OtherOwnerKept(s.dir, m, step.m, step.seat.(active := true));
      }
    } else if t in s.txs {
      assert ChangerSound(s, t);
    }
  }

  lemma ElsewhereKeepsOwners(dir: Directory, m: Membership, j: Membership, change: Change)
    requires j in dir && j.ws != m.ws
    ensures OtherOwner(Changed(dir, j, change), m) == OtherOwner(dir, m)
  {
    var after := Changed(dir, j, change);
    if OtherOwner(dir, m) {
      var o :| o in dir && o != m && o.ws == m.ws && dir[o].active && dir[o].role == WorkspaceOwner;
      assert o in after && after[o] == dir[o];
    }
    if OtherOwner(after, m) {
      var o :| o in after && o != m && o.ws == m.ws && after[o].active && after[o].role == WorkspaceOwner;
      assert o in dir && after[o] == dir[o];
    }
  }

  lemma LocksApart(s: System, step: Step)
    requires Invariant(s) && Enabled(s, step)
    ensures forall h :: h in Next(s, step).shared ==> h.ws !in Next(s, step).exclusive
  {
    hide Authorize, Approvable, GateOpen;
  }

  lemma StepKeepsInvariant(s: System, step: Step)
    requires Invariant(s) && Enabled(s, step)
    ensures Invariant(Next(s, step))
  {
    hide Authorize, Approvable, GateOpen, WriterSound, ChangerSound, Next, Enabled;
    ghost var s' := Next(s, step);
    LocksApart(s, step);
    forall t | t in s'.txs && s'.txs[t].Writer? ensures WriterSound(s', t) {
      if t in s.txs && s'.txs[t] == s.txs[t] { WriterKept(s, step, t); } else { WriterAdvanced(s, step, t); }
    }
    forall t | t in s'.txs && s'.txs[t].Changer? ensures ChangerSound(s', t) { ChangerKept(s, step, t); }
  }

  ghost predicate Runs(states: seq<System>, steps: seq<Step>) {
    && |states| == |steps| + 1 && Quiet(states[0])
    && forall i :: 0 <= i < |steps| ==> Enabled(states[i], steps[i]) && states[i + 1] == Next(states[i], steps[i])
  }

  lemma {:induction false} AlwaysInvariant(states: seq<System>, steps: seq<Step>, n: nat)
    requires Runs(states, steps) && n < |states|
    ensures Invariant(states[n])
  {
    hide Next, Enabled;
    if n > 0 {
      AlwaysInvariant(states, steps, n - 1);
      StepKeepsInvariant(states[n - 1], steps[n - 1]);
    }
  }

  // ------------------------------------------------------------------ main results

  // Over every interleaving, a write commits only while its actor holds the role it was
  // checked with, and that role still allows the write: for a row, on the row and grants the
  // check read. A write that locked its row before it was authorized commits only while the
  // decision on the row as it is then still allows it.
  lemma CommitsAreAuthorized(states: seq<System>, steps: seq<Step>, n: nat)
    requires Runs(states, steps) && n < |steps| && steps[n].CommitWrite?
    ensures var s, w := states[n], states[n].txs[steps[n].t];
      && CurrentRole(s.dir, w.actor) == Some(w.stage.role)
      && (w.gate.RoleGate? ==> w.gate.action in RolePermissions(CurrentRole(s.dir, w.actor).value))
      && (w.gate.RowGate? ==>
            Authorize(w.stage.db, s.dir, w.actor, w.gate.key, w.gate.action, w.stage.now) == Allowed)
      && (w.gate.RowGate? && w.gate.lockRow ==>
            Authorize(s.db, s.dir, w.actor, w.gate.key, w.gate.action, w.stage.now) == Allowed)
  {
    AlwaysInvariant(states, steps, n);
    assert WriterSound(states[n], steps[n].t);
  }

  ghost predicate HasOwner(dir: Directory, ws: nat) {
    exists m :: m in dir && m.ws == ws && dir[m].active && dir[m].role == WorkspaceOwner
  }

  lemma StepKeepsOwner(s: System, step: Step, ws: nat)
    requires Invariant(s) && Enabled(s, step) && HasOwner(s.dir, ws)
    ensures HasOwner(Next(s, step).dir, ws)
  {
    hide Authorize, GateOpen;
    var o :| o in s.dir && o.ws == ws && s.dir[o].active && s.dir[o].role == WorkspaceOwner;
    var dir := Next(s, step).dir;
    if step.CommitChange? {
      var c := s.txs[step.t];
      assert ChangerSound(s, step.t);
      var m := TargetOf(c);
      if o == m && c.change != SetRole(WorkspaceOwner) {
        var p :| p in s.dir && p != m && p.ws == m.ws && s.dir[p].active && s.dir[p].role == WorkspaceOwner;
        assert p in dir && dir[p] == s.dir[p];
      } else {
        assert o in dir && dir[o].active && dir[o].role == WorkspaceOwner;
      }
    } else {
      assert o in dir && dir[o] == s.dir[o];
    }
  }

  // Over every interleaving of removals and role changes, a workspace keeps an active owner.
  lemma {:induction false} OwnerRemains(states: seq<System>, steps: seq<Step>, ws: nat, n: nat)
    requires Runs(states, steps) && n < |states| && HasOwner(states[0].dir, ws)
    ensures HasOwner(states[n].dir, ws)
  {
    hide HasOwner, Invariant, Next, Enabled;
    if n > 0 {
      OwnerRemains(states, steps, ws, n - 1);
      AlwaysInvariant(states, steps, n - 1);
      StepKeepsOwner(states[n - 1], steps[n - 1], ws);
    }
  }

  // Only somebody read as an owner makes or unmakes an owner, and only owners and admins
  // touch anybody else's membership.
  lemma OwnersByOwners(states: seq<System>, steps: seq<Step>, n: nat)
    requires Runs(states, steps) && n < |steps| && steps[n].CommitChange?
    ensures var c, dir, after := states[n].txs[steps[n].t], states[n].dir, states[n + 1].dir;
      var m := TargetOf(c);
      && m in dir && dir[m].active && m in after
      && (forall j :: j in dir && j != m ==> j in after && after[j] == dir[j])
      && ((dir[m].role == WorkspaceOwner) != (after[m].active && after[m].role == WorkspaceOwner) ==>
            c.at.role == WorkspaceOwner)
      && (m != c.caller || c.change.SetRole? ==> c.at.role in {WorkspaceOwner, Admin})
  {
    hide Authorize, GateOpen;
    AlwaysInvariant(states, steps, n);
    assert ChangerSound(states[n], steps[n].t);
  }

  // --------------------------------------------------- a transaction nobody stands in way of

  // A new transaction in a workspace whose membership lock nobody holds; other workspaces may
  // be busy.
  ghost predicate FreeFor(s: System, t: nat, ws: nat) {
    && t !in s.txs && ws !in s.exclusive && (forall h :: h in s.shared ==> h.ws != ws && h.tx != t)
    && (forall w :: w in s.exclusive ==> s.exclusive[w] != t) && forall k :: k in s.rowLocks ==> s.rowLocks[k] != t
  }

  // Who may ask for a change: owners and admins, only an owner for making an owner; anybody
  // may leave.
  ghost predicate MayAsk(dir: Directory, caller: Membership, target: nat, change: Change) {
    && caller in dir && dir[caller].active
    && match change
       case SetRole(to) =>
         dir[caller].role == WorkspaceOwner || (dir[caller].role == Admin && to != WorkspaceOwner)
       case Remove => dir[caller].role in {WorkspaceOwner, Admin} || target == caller.user
  }

  // Whose seat may be changed: an active one; an owner's only by an owner, and an owner
  // unseated only while there is another.
  ghost predicate MayBeChanged(dir: Directory, caller: Membership, m: Membership, change: Change)
    requires caller in dir
  {
    && m in dir && dir[m].active
    && (dir[m].role == WorkspaceOwner ==>
          && dir[caller].role == WorkspaceOwner
          && (change != SetRole(WorkspaceOwner) ==>
                exists o :: o in dir && o != m && o.ws == m.ws && dir[o].active && dir[o].role == WorkspaceOwner))
  }

  // With the lock free, a change is made exactly when its caller may ask for it and the seat
  // may be changed, and it changes that seat's role or ends it.
  lemma UnhinderedChange(s: System, t: nat, caller: Membership, target: nat, change: Change)
    requires FreeFor(s, t, caller.ws)
    ensures var m, begin := Membership(caller.ws, target), Begin(t, Changer(caller, target, change, Starting));
      && Enabled(s, begin)
      && var s1 := Next(s, begin);
         && (Enabled(s1, ReadRole(t)) <==> MayAsk(s.dir, caller, target, change))
         && (MayAsk(s.dir, caller, target, change) ==>
               var s2 := Next(s1, ReadRole(t));
               && Enabled(s2, LockExclusive(t))
               && var s3 := Next(s2, LockExclusive(t));
                  && (Enabled(s3, Approve(t)) <==> MayBeChanged(s.dir, caller, m, change))
                  && (MayBeChanged(s.dir, caller, m, change) ==>
                        var s4 := Next(s3, Approve(t));
                        && Enabled(s4, CommitChange(t))
                        && Next(s4, CommitChange(t)) == s.(dir := s.dir[m := match change
                             case SetRole(to) => Seat(s.dir[m].account, to, s.dir[m].active)
                             case Remove => Seat(s.dir[m].account, s.dir[m].role, false)])))
  {
    AskStep(s, t, caller, target, change);
    ghost var m := Membership(caller.ws, target);
    if MayAsk(s.dir, caller, target, change) {
      ghost var role := s.dir[caller].role;
      LockStep(s, t, caller, target, change, role);
      ApproveStep(s, t, caller, target, change);
      if MayBeChanged(s.dir, caller, m, change) { CommitStep(s, t, caller, target, change, role); }
    }
    hide Enabled, Next, MayAsk, MayBeChanged, FreeFor;
  }

  ghost function Under(s: System, t: nat, tx: Tx): System { s.(txs := s.txs[t := tx]) }

  ghost function HeldBy(s: System, t: nat, tx: Tx): System
    requires tx.Changer?
  {
    Under(s, t, tx).(exclusive := s.exclusive[tx.caller.ws := t])
  }

  lemma AskStep(s: System, t: nat, caller: Membership, target: nat, change: Change)
    requires t !in s.txs
    ensures Enabled(s, Begin(t, Changer(caller, target, change, Starting)))
    ensures var s1 := Under(s, t, Changer(caller, target, change, Starting));
      && Next(s, Begin(t, Changer(caller, target, change, Starting))) == s1
      && (Enabled(s1, ReadRole(t)) <==> MayAsk(s.dir, caller, target, change))
      && (MayAsk(s.dir, caller, target, change) ==>
            Next(s1, ReadRole(t)) == Under(s, t, Changer(caller, target, change, Entitled(s.dir[caller].role))))
  {
    var s1 := Under(s, t, Changer(caller, target, change, Starting));
    assert s1.txs[t := Changer(caller, target, change, Entitled(WorkspaceOwner))]
      == s.txs[t := Changer(caller, target, change, Entitled(WorkspaceOwner))];
  }

  lemma LockStep(s: System, t: nat, caller: Membership, target: nat, change: Change, role: Role)
    requires FreeFor(s, t, caller.ws)
    ensures var s2 := Under(s, t, Changer(caller, target, change, Entitled(role)));
      && Enabled(s2, LockExclusive(t))
      && Next(s2, LockExclusive(t)) == HeldBy(s, t, Changer(caller, target, change, Holding(role)))
  {
  }

  lemma ApproveStep(s: System, t: nat, caller: Membership, target: nat, change: Change)
    requires caller in s.dir
    ensures var role := s.dir[caller].role;
      var s3 := HeldBy(s, t, Changer(caller, target, change, Holding(role)));
      && (Enabled(s3, Approve(t)) <==> MayBeChanged(s.dir, caller, Membership(caller.ws, target), change))
      && (Enabled(s3, Approve(t)) ==> Next(s3, Approve(t)) == HeldBy(s, t, Changer(caller, target, change, Approved(role))))
  {
  }

  lemma CommitStep(s: System, t: nat, caller: Membership, target: nat, change: Change, role: Role)
    requires FreeFor(s, t, caller.ws) && Membership(caller.ws, target) in s.dir
    ensures var s4, m := HeldBy(s, t, Changer(caller, target, change, Approved(role))), Membership(caller.ws, target);
      && Enabled(s4, CommitChange(t))
      && Next(s4, CommitChange(t)) == s.(dir := Changed(s.dir, m, change))
  {
    ghost var tx := Changer(caller, target, change, Approved(role));
    EndedUnhindered(s, t, caller.ws, tx, Changed(s.dir, Membership(caller.ws, target), change));
  }

  lemma EndedUnhindered(s: System, t: nat, ws: nat, tx: Tx, dir: Directory)
    requires FreeFor(s, t, ws)
    ensures Ended(s.(txs := s.txs[t := tx], exclusive := s.exclusive[ws := t], dir := dir), t) == s.(dir := dir)
  {
    var e := Ended(s.(txs := s.txs[t := tx], exclusive := s.exclusive[ws := t], dir := dir), t);
    assert e.txs == s.txs && e.exclusive == s.exclusive && e.rowLocks == s.rowLocks && e.shared == s.shared;
  }

  // A write passes its check exactly when its actor is active and its role allows the action,
  // or the action is among what the actor can do to the row and no two grants overlap.
  ghost predicate MayWrite(s: System, actor: Membership, gate: Gate, now: nat) {
    match gate
    case RoleGate(action) => actor in s.dir && s.dir[actor].active && (action == Read || s.dir[actor].role != Viewer)
    case RowGate(k, action, _) =>
      action in ActionsOf(s.db, s.dir, actor, k, now) && !Overlapping(s.db, s.dir, actor, k, action, now)
  }

  lemma UnhinderedWrite(s: System, t: nat, actor: Membership, gate: Gate, now: nat)
    requires t !in s.txs && actor.ws !in s.exclusive && forall k :: k in s.rowLocks ==> s.rowLocks[k] != t
    requires gate.RowGate? && gate.lockRow ==> gate.key !in s.rowLocks
    ensures var begin := Begin(t, Writer(actor, gate, Waiting));
      && Enabled(s, begin)
      && var s1 := Next(s, begin);
         && Enabled(s1, LockShared(t))
         && var s2 := Next(s1, LockShared(t));
            if gate.RowGate? && gate.lockRow then
              && !Enabled(s2, Check(t, now)) && Enabled(s2, LockRow(t, gate.key))
              && (Enabled(Next(s2, LockRow(t, gate.key)), Check(t, now)) <==> MayWrite(s, actor, gate, now))
            else Enabled(s2, Check(t, now)) <==> MayWrite(s, actor, gate, now)
  {
    hide Authorize, Overlapping, EffectivePermissions;
    if gate.RowGate? { FormsAgree(s.db, s.dir, actor, gate.key, gate.action, now); }
  }

  // The caller may ask for the change as things are now.
  predicate EntitledNow(s: System, t: nat)
    requires t in s.txs && s.txs[t].Changer?
  {
    var c := s.txs[t];
    CurrentRole(s.dir, c.caller).Some?
    && EntitledTo(CurrentRole(s.dir, c.caller).value, c.caller.user == c.target, c.change)
  }

  // From step `j`, which took the exclusive lock for `t`, to step `n` the transaction goes on.
  ghost predicate HoldsFrom(steps: seq<Step>, t: nat, j: nat, n: nat) {
    && j < n <= |steps| && steps[j] == LockExclusive(t)
    && forall i :: j < i < n ==> steps[i] != Abort(t) && steps[i] != CommitChange(t)
  }

  lemma {:induction false} StillHolding(states: seq<System>, steps: seq<Step>, t: nat, j: nat, n: nat)
    requires Runs(states, steps) && HoldsFrom(steps, t, j, n)
    ensures t in states[n].txs && states[n].txs[t].Changer?
    ensures states[n].txs[t].at.Holding? || states[n].txs[t].at.Approved?
    ensures states[n].txs[t].(at := Starting) == states[j].txs[t].(at := Starting)
    ensures states[n].txs[t].at.role == states[j].txs[t].at.role
  {
    hide Authorize, Approvable, GateOpen, OnlyTouches;
    if n > j + 1 { StillHolding(states, steps, t, j, n - 1); }
  }

  // While the exclusive lock is held, the workspace's seats change only by a member joining.
  lemma SeatKept(s: System, step: Step, t: nat, m: Membership)
    requires Invariant(s) && Enabled(s, step) && step != CommitChange(t)
    requires t in s.txs && s.txs[t].Changer? && (s.txs[t].at.Holding? || s.txs[t].at.Approved?)
    requires m.ws == s.txs[t].caller.ws && !(step.Join? && step.m == m)
    ensures CurrentRole(Next(s, step).dir, m) == CurrentRole(s.dir, m)
  {
    hide Authorize, Approvable, GateOpen, OnlyTouches;
    assert ChangerSound(s, t);
    if step.CommitChange? { assert ChangerSound(s, step.t); }
  }

  lemma {:induction false} RoleUnderLock(states: seq<System>, steps: seq<Step>, t: nat, j: nat, n: nat, m: Membership)
    requires Runs(states, steps) && HoldsFrom(steps, t, j, n)
    requires t in states[j].txs && states[j].txs[t].Changer? && m.ws == states[j].txs[t].caller.ws
    requires forall i :: j < i < n && steps[i].Join? ==> steps[i].m != m
    ensures CurrentRole(states[n].dir, m) == CurrentRole(states[j].dir, m)
  {
    hide Authorize, Approvable, GateOpen, OnlyTouches, Invariant, CurrentRole;
    if n > j + 1 {
      RoleUnderLock(states, steps, t, j, n - 1, m);
      StillHolding(states, steps, t, j, n - 1);
      AlwaysInvariant(states, steps, n - 1);
      SeatKept(states[n - 1], steps[n - 1], t, m);
    }
  }

  // A membership change commits on behalf of somebody entitled to it then exactly when they
  // were when it took the lock, which is when the role read before is not read again (for a
  // caller who does not join anew in between).
  lemma EntitledIffUnderLock(states: seq<System>, steps: seq<Step>, t: nat, j: nat, n: nat)
    requires Runs(states, steps) && HoldsFrom(steps, t, j, n) && n < |steps| && steps[n] == CommitChange(t)
    requires forall i :: j < i < n && steps[i].Join? ==> steps[i].m != states[j].txs[t].caller
    ensures t in states[j].txs && states[j].txs[t].Changer? && t in states[n].txs && states[n].txs[t].Changer?
    ensures EntitledNow(states[n], t) <==> EntitledNow(states[j], t)
  {
    hide Authorize, Approvable, GateOpen, OnlyTouches, CurrentRole;
    StillHolding(states, steps, t, j, n);
    RoleUnderLock(states, steps, t, j, n, states[j].txs[t].caller);
  }

  // ------------------------------------------------- the sharing transactions obey the locks

  lemma GrantTouches(db: Db, caller: Membership, r: GrantRequest, id: nat)
    requires r.resource in db.rows && id !in db.grants
    ensures OnlyTouches(db, Granted(db, caller, r, id), {r.resource})
  {
  }

  lemma RevokeTouches(db: Db, id: nat, now: nat)
    requires id in db.grants
    ensures OnlyTouches(db, GrantRevoked(db, id, now), {db.grants[id].resource})
  {
  }

  lemma TransferTouches(db: Db, k: Key, owner: nat)
    requires k in db.rows
    ensures OnlyTouches(db, Transferred(db, k, owner), {k})
  {
  }

  // A backfill batch changes its own rows, the grants on them and the items that copy them.
  lemma BatchTouches(db: Db, w: World, run: nat, stamps: Key -> Stamp, keys: set<Key>, copies: set<Key>)
    requires Selected(db.rows, keys)
    requires forall k :: k in db.rows && EntityOf(k, db.rows[k]).Some? && EntityOf(k, db.rows[k]).value in keys ==>
      k in copies
    ensures OnlyTouches(db, ProcessRows(db, w, run, stamps, keys), keys + copies)
  {
    hide Judge, InSet;
    var after := ProcessRows(db, w, run, stamps, keys);
    forall k | k !in keys + copies
      ensures k in db.rows ==> after.rows[k] == db.rows[k]
      ensures GrantsOn(db.grants, k) == GrantsOn(after.grants, k)
    {
    }
  }
}
