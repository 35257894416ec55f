// Requests carrying an idempotency key: lock, load, act, store, commit, interleaved.
module Idempotency {
  import opened Records

  // PRIMARY KEY (workspace_id, actor_id, key)
  datatype Id = Id(ws: nat, actor: nat, key: string)

  datatype Record = Record(hash: nat, body: nat, expiresAt: nat)

  datatype Stage =
    | Waiting
    | Locked
    | Missed(now: nat)
    | Stored(record: Record)

  datatype Tx = Tx(id: Id, hash: nat, stage: Stage)

  datatype Outcome = Replayed(body: nat) | Conflict | RolledBack | Committed(body: nat)

  // A request that ended: its key, its hash, and how.
  datatype Ending = Ending(id: Id, hash: nat, outcome: Outcome)

  // What commits changed, in order: an effect with its record, or a record purged.
  datatype Event = Effect(id: Id, tx: nat, hash: nat, body: nat) | Purged(id: Id)

  datatype System = System(records: map<Id, Record>, locks: map<nat, nat>, txs: map<nat, Tx>,
                           ended: map<nat, Ending>, events: seq<Event>)

  datatype Step =
    | Begin(t: nat, id: Id, hash: nat)
    | Lock(t: nat)
    | Load(t: nat, now: nat)
    | Store(t: nat, body: nat, expiresAt: nat)
    | Commit(t: nat)
    | Abort(t: nat)
    | Purge(id: Id)

  // `slot`: the advisory lock an id hashes to; ids may share one.
  predicate Enabled(slot: Id -> nat, s: System, step: Step) {
    match step
    case Begin(t, _, _) => t !in s.txs && t !in s.ended
    case Lock(t) => t in s.txs && s.txs[t].stage.Waiting? && slot(s.txs[t].id) !in s.locks
    case Load(t, _) => t in s.txs && s.txs[t].stage.Locked?
    case Store(t, _, _) => t in s.txs && s.txs[t].stage.Missed?
    case Commit(t) => t in s.txs && s.txs[t].stage.Stored?
    case Abort(t) => t in s.txs
    case Purge(id) => id in s.records
  }

  function At(s: System, t: nat, stage: Stage): System
    requires t in s.txs
  {
    s.(txs := s.txs[t := s.txs[t].(stage := stage)])
  }

  // The end of a transaction releases its lock.
  function End(s: System, t: nat, o: Outcome): System
    requires t in s.txs
  {
    s.(txs := s.txs - {t}, ended := s.ended[t := Ending(s.txs[t].id, s.txs[t].hash, o)], locks := (map l | l in s.locks && s.locks[l] != t :: s.locks[l]))
  }

  // An expired record is a miss.
  function Hit(s: System, id: Id, now: nat): Option<Record> {
    if id in s.records && s.records[id].expiresAt > now then Some(s.records[id]) else None
  }

  function Loaded(s: System, t: nat, now: nat): System
    requires t in s.txs
  {
    match Hit(s, s.txs[t].id, now)
    case None => At(s, t, Missed(now))
    case Some(r) => End(s, t, if r.hash == s.txs[t].hash then Replayed(r.body) else Conflict)
  }

  function Next(slot: Id -> nat, s: System, step: Step): System
    requires Enabled(slot, s, step)
  {
    match step
    case Begin(t, id, hash) => s.(txs := s.txs[t := Tx(id, hash, Waiting)])
    case Lock(t) => At(s.(locks := s.locks[slot(s.txs[t].id) := t]), t, Locked)
    case Load(t, now) => Loaded(s, t, now)
    case Store(t, body, expiresAt) =>
      // A plain INSERT: a record with this primary key makes it fail.
      if s.txs[t].id in s.records then End(s, t, RolledBack)
      else At(s, t, Stored(Record(s.txs[t].hash, body, expiresAt)))
    case Commit(t) =>
      var tx := s.txs[t];
      End(s.(records := s.records[tx.id := tx.stage.record],
             events := s.events + [Effect(tx.id, t, tx.hash, tx.stage.record.body)]),
          t, Committed(tx.stage.record.body))
    case Abort(t) => End(s, t, RolledBack)
    case Purge(id) => s.(records := s.records - {id}, events := s.events + [Purged(id)])
  }

  // The last event about an id.
  function Latest(events: seq<Event>, id: Id): Option<Event> {
    if events == [] then None
    else
      var n := |events| - 1;
      if events[n].id == id then Some(events[n]) else Latest(events[..n], id)
  }

  // Between two effects of one key its record was purged.
  ghost predicate OneEffectEach(events: seq<Event>) {
    forall i :: 0 <= i < |events| && events[i].Effect? ==>
      var before := Latest(events[..i], events[i].id);
      before.None? || before.value.Purged?
  }

  // A transaction past the load holds its key's lock; what it found is still so.
  ghost predicate Holds(slot: Id -> nat, s: System, t: nat)
    requires t in s.txs
  {
    var tx := s.txs[t];
    && (!tx.stage.Waiting? ==> slot(tx.id) in s.locks && s.locks[slot(tx.id)] == t)
    && (tx.stage.Missed? && tx.id in s.records ==> s.records[tx.id].expiresAt <= tx.stage.now)
    && (tx.stage.Stored? ==> tx.id !in s.records && tx.stage.record.hash == tx.hash)
  }

  // A record is the latest effect of its key; without one, there was none since a purge.
  ghost predicate RecordsEffect(s: System, id: Id) {
    var last := Latest(s.events, id);
    if id in s.records
      then last.Some? && last.value.Effect? && last.value.hash == s.records[id].hash && last.value.body == s.records[id].body
      else last.None? || last.value.Purged?
  }

  // An effect of this key, by a request with or without this hash.
  ghost predicate EffectOf(e: Event, id: Id, hash: nat, same: bool) {
    e.Effect? && e.id == id && (e.hash == hash <==> same)
  }

  ghost predicate NoEffectBy(events: seq<Event>, t: nat) {
    forall i :: 0 <= i < |events| && events[i].Effect? ==> events[i].tx != t
  }

  // How a request ended, against what was committed: a replay, with the body of an effect of
  // its own key for the same request; a conflict, with an effect of its key for another; a
  // commit, as the one effect that is its own.
  ghost predicate Explained(s: System, t: nat)
    requires t in s.ended
  {
    var r := s.ended[t];
    match r.outcome
    case Replayed(body) =>
      && NoEffectBy(s.events, t)
      && exists i :: 0 <= i < |s.events| && EffectOf(s.events[i], r.id, r.hash, true) && s.events[i].body == body
    case Conflict =>
      && NoEffectBy(s.events, t)
      && exists i :: 0 <= i < |s.events| && EffectOf(s.events[i], r.id, r.hash, false)
    case Committed(body) =>
      exists i :: 0 <= i < |s.events| && EffectOf(s.events[i], r.id, r.hash, true) && s.events[i].body == body
                  && s.events[i].tx == t
                  && forall j :: 0 <= j < |s.events| && s.events[j].Effect? && s.events[j].tx == t ==> j == i
    case RolledBack => NoEffectBy(s.events, t)
  }

  ghost predicate Invariant(slot: Id -> nat, s: System) {
    && OneEffectEach(s.events)
    && (forall t :: t in s.txs ==> Holds(slot, s, t) && t !in s.ended)
    && (forall id :: RecordsEffect(s, id))
    && (forall i :: 0 <= i < |s.events| && s.events[i].Effect? ==> s.events[i].tx in s.ended)
    && (forall t :: t in s.ended ==> Explained(s, t))
  }

  lemma LatestGrows(events: seq<Event>, e: Event, id: Id)
    ensures Latest(events + [e], id) == if e.id == id then Some(e) else Latest(events, id)
  {
    assert (events + [e])[..|events + [e]| - 1] == events;
  }

  lemma {:induction false} LatestIsIn(events: seq<Event>, id: Id)
    ensures var last := Latest(events, id);
      last.Some? ==> last.value.id == id && exists i :: 0 <= i < |events| && events[i] == last.value
    decreases |events|
  {
    if events != [] {
      var n := |events| - 1;
      LatestIsIn(events[..n], id);
      if events[n].id != id && Latest(events[..n], id).Some? {
        var i :| 0 <= i < n && events[..n][i] == Latest(events[..n], id).value;
        assert events[i] == Latest(events, id).value;
      }
    }
  }

  lemma OneEffectGrows(events: seq<Event>, e: Event)
    requires OneEffectEach(events)
    requires e.Effect? ==> var last := Latest(events, e.id); last.None? || last.value.Purged?
    ensures OneEffectEach(events + [e])
  {
    var more := events + [e];
    forall i | 0 <= i < |more| && more[i].Effect?
      ensures var before := Latest(more[..i], more[i].id);
        before.None? || before.value.Purged?
    {
      if i < |events| { assert more[..i] == events[..i]; } else { assert more[..i] == events; }
    }
  }

  // Two transactions past the lock have different keys.
  lemma KeysApart(slot: Id -> nat, s: System, t: nat, u: nat)
    requires t in s.txs && u in s.txs && t != u && Holds(slot, s, t) && Holds(slot, s, u)
    requires !s.txs[t].stage.Waiting? && !s.txs[u].stage.Waiting?
    ensures s.txs[t].id != s.txs[u].id
  {
  }

  lemma HoldsKept(slot: Id -> nat, s: System, step: Step, t: nat)
    requires Invariant(slot, s) && Enabled(slot, s, step) && t in Next(slot, s, step).txs
    ensures Holds(slot, Next(slot, s, step), t) && t !in Next(slot, s, step).ended
  {
    hide OneEffectEach, RecordsEffect, Explained;
    if t in s.txs { assert Holds(slot, s, t); }
    if step.Commit? && t != step.t && !s.txs[t].stage.Waiting? {
      KeysApart(slot, s, t, step.t);
    }
  }

  lemma RecordsKept(slot: Id -> nat, s: System, step: Step, id: Id)
    requires Invariant(slot, s) && Enabled(slot, s, step)
    ensures RecordsEffect(Next(slot, s, step), id)
    ensures OneEffectEach(Next(slot, s, step).events)
  {
    hide OneEffectEach, Explained;
    assert RecordsEffect(s, id);
    match step {
      case Commit(t) =>
        var e := Effect(s.txs[t].id, t, s.txs[t].hash, s.txs[t].stage.record.body);
        assert Holds(slot, s, t);
        assert RecordsEffect(s, s.txs[t].id);
        LatestGrows(s.events, e, id);
        OneEffectGrows(s.events, e);
      case Purge(gone) =>
        LatestGrows(s.events, Purged(gone), id);
        OneEffectGrows(s.events, Purged(gone));
      case _ =>
    }
  }

  lemma ExplainedGrows(s: System, e: Event, s': System, t: nat)
    requires t in s.ended && Explained(s, t) && t in s'.ended && s'.ended[t] == s.ended[t]
    requires s'.events == s.events + [e]
    requires e.Effect? ==> e.tx != t
    ensures Explained(s', t)
  {
    var r := s.ended[t];
    match r.outcome {
      case Replayed(body) =>
        var i :| 0 <= i < |s.events| && EffectOf(s.events[i], r.id, r.hash, true) && s.events[i].body == body;
        assert s'.events[i] == s.events[i];
      case Conflict =>
        var i :| 0 <= i < |s.events| && EffectOf(s.events[i], r.id, r.hash, false);
        assert s'.events[i] == s.events[i];
      case Committed(body) =>
        var i :| 0 <= i < |s.events| && EffectOf(s.events[i], r.id, r.hash, true) && s.events[i].body == body
          && s.events[i].tx == t;
        assert s'.events[i] == s.events[i];
      case RolledBack =>
    }
  }

  lemma LoadExplained(slot: Id -> nat, s: System, t: nat, now: nat)
    requires Invariant(slot, s) && t in s.txs && t in Loaded(s, t, now).ended
    ensures Explained(Loaded(s, t, now), t)
  {
    hide OneEffectEach;
    assert Holds(slot, s, t) && t !in s.ended;
    var id := s.txs[t].id;
    assert RecordsEffect(s, id);
    LatestIsIn(s.events, id);
  }

  lemma EndedKept(slot: Id -> nat, s: System, step: Step, t: nat)
    requires Invariant(slot, s) && Enabled(slot, s, step) && t in Next(slot, s, step).ended
    ensures Explained(Next(slot, s, step), t)
  {
    hide OneEffectEach, RecordsEffect, Holds;
    var s' := Next(slot, s, step);
    if t in s.ended {
      if s'.events != s.events { ExplainedGrows(s, s'.events[|s.events|], s', t); }
    } else if step.Load? {
      LoadExplained(slot, s, t, step.now);
    } else if step.Commit? {
      assert s'.events[|s.events|].tx == t;
    }
  }

  lemma StepKeepsInvariant(slot: Id -> nat, s: System, step: Step)
    requires Invariant(slot, s) && Enabled(slot, s, step)
    ensures Invariant(slot, Next(slot, s, step))
  {
    hide OneEffectEach, RecordsEffect, Holds, Explained;
    ghost var s' := Next(slot, s, step);
    forall t | t in s'.txs ensures Holds(slot, s', t) && t !in s'.ended { HoldsKept(slot, s, step, t); }
    forall id ensures RecordsEffect(s', id) { RecordsKept(slot, s, step, id); }
    forall t | t in s'.ended ensures Explained(s', t) { EndedKept(slot, s, step, t); }
    RecordsKept(slot, s, step, Id(0, 0, ""));
  }

  const START := System(map[], map[], map[], map[], [])

  ghost predicate Runs(slot: Id -> nat, states: seq<System>, steps: seq<Step>) {
    && |states| == |steps| + 1 && states[0] == START
    && forall i :: 0 <= i < |steps| ==>
         Enabled(slot, states[i], steps[i]) && states[i + 1] == Next(slot, states[i], steps[i])
  }

  lemma {:induction false} AlwaysInvariant(slot: Id -> nat, states: seq<System>, steps: seq<Step>, n: nat)
    requires Runs(slot, states, steps) && n < |states|
    ensures Invariant(slot, states[n])
  {
    if n > 0 {
      AlwaysInvariant(slot, states, steps, n - 1);
      StepKeepsInvariant(slot, states[n - 1], steps[n - 1]);
    }
  }

  // ------------------------------------------------------------------- main results

  // Over every interleaving: at most one effect per key between two purges of its record;
  // every request that ended committed exactly one effect, of its key, or none and replayed the
  // body of an effect of its key, met an effect of its key for another request or was rolled
  // back.
  lemma AtMostOneEffect(slot: Id -> nat, states: seq<System>, steps: seq<Step>, n: nat, t: nat)
    requires Runs(slot, states, steps) && n < |states|
    ensures OneEffectEach(states[n].events)
    ensures t in states[n].ended ==> Explained(states[n], t)
  {
    AlwaysInvariant(slot, states, steps, n);
  }

  // A replay answers with the body of the latest effect of the request's own key, committed
  // for the same request; a conflict is with that effect's different request.
  lemma ReplayIsFaithful(slot: Id -> nat, states: seq<System>, steps: seq<Step>, n: nat)
    requires Runs(slot, states, steps) && n < |steps| && steps[n].Load?
    requires steps[n].t in states[n + 1].ended
    ensures var tx, o := states[n].txs[steps[n].t], states[n + 1].ended[steps[n].t];
      var last := Latest(states[n].events, tx.id);
      && last.Some? && last.value.Effect?
      && o.id == tx.id && o.hash == tx.hash
      && (o.outcome == Replayed(last.value.body) <==> last.value.hash == tx.hash)
      && (o.outcome == Conflict <==> last.value.hash != tx.hash)
  {
    AlwaysInvariant(slot, states, steps, n);
    assert Holds(slot, states[n], steps[n].t) && steps[n].t !in states[n].ended;
    assert RecordsEffect(states[n], states[n].txs[steps[n].t].id);
  }

  // A request is answered from its key's record exactly while that one has not expired.
  lemma AnsweredWhileLive(slot: Id -> nat, states: seq<System>, steps: seq<Step>, n: nat)
    requires Runs(slot, states, steps) && n < |steps| && steps[n].Load?
    ensures var s, tx, end := states[n], states[n].txs[steps[n].t], states[n + 1];
      && (steps[n].t in end.ended <==> tx.id in s.records && steps[n].now < s.records[tx.id].expiresAt)
      && (steps[n].t !in end.ended ==> steps[n].t in end.txs && end.txs[steps[n].t].stage == Missed(steps[n].now))
  {
    AlwaysInvariant(slot, states, steps, n);
    assert Holds(slot, states[n], steps[n].t) && steps[n].t !in states[n].ended;
  }

  // What a request gets while nobody else holds its lock: the body of its key's unexpired
  // record if that was for the same request, and a conflict if it was not; nothing while an
  // expired one is still there; otherwise its effect, recorded.
  ghost function UndisturbedOutcome(s: System, id: Id, hash: nat, now: nat, body: nat): Outcome {
    if id !in s.records then Committed(body)
    else if s.records[id].expiresAt <= now then RolledBack
    else if s.records[id].hash == hash then Replayed(s.records[id].body)
    else Conflict
  }

  // A new request whose lock is free, whatever other requests are under way.
  ghost predicate Undisturbed(slot: Id -> nat, s: System, t: nat, id: Id) {
    && slot(id) !in s.locks && t !in s.txs && t !in s.ended
    && forall l :: l in s.locks ==> s.locks[l] != t
  }

  // The request has ended like this, with nothing else changed but these records and events.
  ghost predicate EndsAs(s: System, t: nat, id: Id, hash: nat, o: Outcome, records: map<Id, Record>, events: seq<Event>,
                         end: System)
  {
    end == s.(ended := s.ended[t := Ending(id, hash, o)], records := records, events := events)
  }

  lemma UndisturbedRequest(slot: Id -> nat, s: System, t: nat, id: Id, hash: nat, now: nat, body: nat, expiresAt: nat)
    requires Undisturbed(slot, s, t, id)
    ensures var o := UndisturbedOutcome(s, id, hash, now, body);
      && Enabled(slot, s, Begin(t, id, hash))
      && var s1 := Next(slot, s, Begin(t, id, hash));
      && Enabled(slot, s1, Lock(t))
      && var s2 := Next(slot, s1, Lock(t));
      && Enabled(slot, s2, Load(t, now))
      && var s3 := Next(slot, s2, Load(t, now));
         if o.Replayed? || o.Conflict? then EndsAs(s, t, id, hash, o, s.records, s.events, s3)
         else
           && Enabled(slot, s3, Store(t, body, expiresAt))
           && var s4 := Next(slot, s3, Store(t, body, expiresAt));
              if o.RolledBack? then EndsAs(s, t, id, hash, o, s.records, s.events, s4)
              else
                && Enabled(slot, s4, Commit(t))
                && EndsAs(s, t, id, hash, o, s.records[id := Record(hash, body, expiresAt)],
                          s.events + [Effect(id, t, hash, body)], Next(slot, s4, Commit(t)))
  {
    ghost var o := UndisturbedOutcome(s, id, hash, now, body);
    ghost var s2 := Next(slot, Next(slot, s, Begin(t, id, hash)), Lock(t));
    assert s2 == s.(txs := s.txs[t := Tx(id, hash, Locked)], locks := s.locks[slot(id) := t]);
    if o.Replayed? || o.Conflict? {
      EndedUndisturbed(slot, s, t, Tx(id, hash, Locked), s.records, s.events, o);
    } else {
      ghost var s3 := Next(slot, s2, Load(t, now));
      assert s3 == s2.(txs := s.txs[t := Tx(id, hash, Missed(now))]);
      if id in s.records {
        EndedUndisturbed(slot, s, t, Tx(id, hash, Missed(now)), s.records, s.events, o);
      } else {
        ghost var stored := Stored(Record(hash, body, expiresAt));
        ghost var s4 := Next(slot, s3, Store(t, body, expiresAt));
        assert s4 == s2.(txs := s.txs[t := Tx(id, hash, stored)]);
        EndedUndisturbed(slot, s, t, Tx(id, hash, stored), s.records[id := stored.record],
                         s.events + [Effect(id, t, hash, body)], o);
      }
    }
  }

  lemma EndedUndisturbed(slot: Id -> nat, s: System, t: nat, tx: Tx, records: map<Id, Record>, events: seq<Event>, o: Outcome)
    requires Undisturbed(slot, s, t, tx.id)
    ensures var r := s.(txs := s.txs[t := tx], locks := s.locks[slot(tx.id) := t], records := records, events := events);
      End(r, t, o) == s.(ended := s.ended[t := Ending(tx.id, tx.hash, o)], records := records, events := events)
  {
    var r := s.(txs := s.txs[t := tx], locks := s.locks[slot(tx.id) := t], records := records, events := events);
    assert End(r, t, o).txs == s.txs;
    assert End(r, t, o).locks == s.locks;
  }

  // However a request ends, its end is recorded and its lock released.
  lemma EndsRelease(slot: Id -> nat, s: System, step: Step, t: nat)
    requires Enabled(slot, s, step) && t in s.txs && t !in Next(slot, s, step).txs
    ensures t in Next(slot, s, step).ended && forall l :: l in Next(slot, s, step).locks ==> Next(slot, s, step).locks[l] != t
  {
  }

  // The store fails on a taken key exactly when the key's record was there, expired, at the
  // load and has not been purged since: never because of a concurrent twin.
  lemma CollidesOnlyWithExpired(slot: Id -> nat, states: seq<System>, steps: seq<Step>, n: nat)
    requires Runs(slot, states, steps) && n < |steps| && steps[n].Store?
    ensures var s, tx := states[n], states[n].txs[steps[n].t];
      steps[n].t in states[n + 1].ended
      <==> tx.id in s.records && s.records[tx.id].expiresAt <= tx.stage.now
  {
    AlwaysInvariant(slot, states, steps, n);
    assert Holds(slot, states[n], steps[n].t) && steps[n].t !in states[n].ended;
  }

  lemma RecordKept(slot: Id -> nat, s: System, step: Step, id: Id)
    requires Invariant(slot, s) && Enabled(slot, s, step) && id in s.records && step != Purge(id)
    ensures var s' := Next(slot, s, step);
      id in s'.records && s'.records[id] == s.records[id] && Latest(s'.events, id) == Latest(s.events, id)
  {
    hide OneEffectEach, RecordsEffect, Explained, Latest;
    if step.Commit? {
      assert Holds(slot, s, step.t);
      LatestGrows(s.events, Effect(s.txs[step.t].id, step.t, s.txs[step.t].hash, s.txs[step.t].stage.record.body), id);
    } else if step.Purge? {
      LatestGrows(s.events, Purged(step.id), id);
    }
  }

  // While its record stays, expired or not, a key has no further effect.
  lemma {:induction false} KeyStaysTaken(slot: Id -> nat, states: seq<System>, steps: seq<Step>, id: Id, m: nat, n: nat)
    requires Runs(slot, states, steps) && m <= n < |states| && id in states[m].records
    requires forall i :: m <= i < n ==> steps[i] != Purge(id)
    ensures id in states[n].records && states[n].records[id] == states[m].records[id]
    ensures Latest(states[n].events, id) == Latest(states[m].events, id)
  {
    hide Invariant, Next, Enabled, Latest;
    if m < n {
      KeyStaysTaken(slot, states, steps, id, m, n - 1);
      AlwaysInvariant(slot, states, steps, n - 1);
      RecordKept(slot, states[n - 1], steps[n - 1], id);
    }
  }
}
