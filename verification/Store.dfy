// The database connection both commands work through, and the statements they share.
module Store {
  import opened Records
  import opened Rules
  import opened Moves
  import opened Process

  // How the database answers an attempted transaction.
  datatype Attempt = Commits | RolledBack(retryable: bool)

  function First(attempts: seq<Attempt>): Attempt { if attempts == [] then Commits else attempts[0] }
  function Rest(attempts: seq<Attempt>): seq<Attempt> { if attempts == [] then [] else attempts[1..] }

  // A transaction tried up to `n` times commits: the first attempt does, or it is rolled back
  // retryably and one of the others does.
  ghost predicate GetsThrough(attempts: seq<Attempt>, n: nat)
    decreases n
  {
    n > 0 && (First(attempts).Commits? || (First(attempts).retryable && GetsThrough(Rest(attempts), n - 1)))
  }

  // Wherever in it a transaction starts, five attempts get it through.
  ghost predicate Surmountable(attempts: seq<Attempt>) {
    attempts == [] || (GetsThrough(attempts, 5) && Surmountable(attempts[1..]))
  }

  lemma SurmountableOnce(attempts: seq<Attempt>)
    requires Surmountable(attempts)
    ensures GetsThrough(attempts, 5) && Surmountable(Rest(attempts))
  {
  }

  class Database {
    var rows: map<Key, Row>
    var grants: map<nat, Grant>
    var log: map<LogKey, LogEntry>
    // Tables neither command writes.
    const world: World
    // What the coming transactions meet; when it runs out they commit.
    var attempts: seq<Attempt>

    constructor (db: Db, world: World, attempts: seq<Attempt>)
      ensures State() == db && this.world == world
    {
      this.world := world;
      rows, grants, log, this.attempts := db.rows, db.grants, db.log, attempts;
    }

    function State(): Db
      reads this
    {
      Db(rows, grants, log)
    }

    // COMMIT, or the rollback the database forces.
    method End(before: Db) returns (a: Attempt)
      modifies this
      ensures State() == if a.Commits? then old(State()) else before
      ensures a == First(old(attempts)) && attempts == Rest(old(attempts))
    {
      a := if attempts == [] then Commits else attempts[0];
      if attempts != [] { attempts := attempts[1..]; }
      if !a.Commits? { rows, grants, log := before.rows, before.grants, before.log; }
    }

    // Sets owner and visibility per row where they differ, bumping `version` on versioned
    // tables; returns the rows updated.
    method UpdateRows(values: map<Key, (nat, Visibility)>) returns (updated: set<Key>)
      requires values.Keys <= rows.Keys
      modifies this`rows
      ensures rows.Keys == old(rows.Keys)
      ensures forall k :: k in rows ==>
        rows[k] == if k in values then MovedRow(k.table, old(rows)[k], values[k].0, values[k].1) else old(rows)[k]
      ensures forall k :: k in updated <==>
        k in values && (old(rows)[k].owner, old(rows)[k].vis) != values[k]
    {
      updated := set k | k in values && (rows[k].owner, rows[k].vis) != values[k];
      rows := map k | k in rows ::
        if k !in updated then rows[k]
        else rows[k].(owner := values[k].0, vis := values[k].1,
                      version := rows[k].version + if Versioned(k.table) then 1 else 0);
    }

    // Sets the copying attention items of `keys` to their entity's current values, carrying
    // a dismissal across the version bump of the `bumped` ones.
    method MirrorAttention(keys: set<Key>, bumped: set<Key>)
      requires keys <= rows.Keys
      modifies this`rows
      ensures rows.Keys == old(rows.Keys)
      ensures forall k :: k in rows ==>
        rows[k] == MirroredBy(old(rows), keys, bumped, k)
    {
      rows := map k | k in rows :: MirroredBy(rows, keys, bumped, k);
    }
  }

  function MirroredBy(rows: map<Key, Row>, keys: set<Key>, bumped: set<Key>, k: Key): Row
    requires k in rows
  {
    var item, e := rows[k], EntityOf(k, rows[k]);
    if e.Some? && e.value in keys && Peer(rows, item.ws, e.value) then
      var t := rows[e.value];
      var carry := e.value in bumped && item.mark.dismissed == Some(item.mark.source)
                   && item.mark.source + 1 == t.version;
      item.(owner := t.owner, vis := t.vis,
            mark := if carry then Mark(t.version, Some(t.version)) else item.mark)
    else item
  }

  // Updating the rows and then mirroring them is one simultaneous move.
  lemma UpdateThenMirror(rows: map<Key, Row>, mid: map<Key, Row>, moves: map<Key, Row>, bumped: set<Key>)
    requires Admissible(rows, moves) && mid.Keys == rows.Keys
    requires forall k :: k in rows ==> mid[k] == if k in moves then moves[k] else rows[k]
    requires forall k :: k in moves && Derived(k.table) ==>
      (k in bumped <==> moves[k] != rows[k]) && (k in bumped ==> moves[k].version == rows[k].version + 1)
    requires forall k :: k in moves && moves[k] == rows[k] ==> k !in bumped
    ensures forall k :: k in rows ==> MirroredBy(mid, moves.Keys, bumped, k) == MoveOne(rows, moves, k)
  {
    forall k | k in rows ensures MirroredBy(mid, moves.Keys, bumped, k) == MoveOne(rows, moves, k) {
      var e := EntityOf(k, rows[k]);
      assert k in moves ==> e.None?;
      if e.Some? && e.value in moves && Peer(rows, rows[k].ws, e.value) {
        assert Derived(e.value.table);
      }
    }
  }
}
