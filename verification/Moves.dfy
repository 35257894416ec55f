// Setting rows' owner and visibility, with the attention items that copy them.
module Moves {
  import opened Records
  import opened Rules

  // The derived row whose owner and visibility an attention item copies.
  function EntityOf(k: Key, row: Row): Option<Key> {
    if k.table == AttentionItems && row.facts.AttentionFacts? then
      match row.facts.entityType
      case TaskEntity => Some(Key(Tasks, row.facts.entity))
      case CommitmentEntity => Some(Key(Commitments, row.facts.entity))
      case RiskEntity => Some(Key(Risks, row.facts.entity))
      case _ => None
    else None
  }

  predicate Mirrors(rows: map<Key, Row>, item: Key, entity: Key)
    requires item in rows
  {
    EntityOf(item, rows[item]) == Some(entity) && Peer(rows, rows[item].ws, entity)
  }

  // UPDATE ... SET owner, visibility, version + 1 where they differ.
  function MovedRow(t: Table, row: Row, owner: nat, vis: Visibility): Row {
    if row.owner == owner && row.vis == vis then row
    else row.(owner := owner, vis := vis, version := if Versioned(t) then row.version + 1 else row.version)
  }

  predicate Carries(item: Row, before: Row, after: Row) {
    after.version == before.version + 1
    && item.mark.dismissed == Some(item.mark.source) && item.mark.source == before.version
  }

  // The item takes the entity's owner and visibility; a dismissal made at the
  // entity's version follows its bump.
  function Mirrored(item: Row, before: Row, after: Row): Row {
    item.(owner := after.owner, vis := after.vis,
          mark := if Carries(item, before, after) then Mark(after.version, Some(after.version)) else item.mark)
  }

  function MoveOne(rows: map<Key, Row>, moves: map<Key, Row>, k: Key): Row
    requires k in rows
  {
    if k in moves then moves[k]
    else
      var e := EntityOf(k, rows[k]);
      if e.Some? && e.value in moves && Peer(rows, rows[k].ws, e.value)
      then Mirrored(rows[k], rows[e.value], moves[e.value]) else rows[k]
  }

  function ApplyMoves(rows: map<Key, Row>, moves: map<Key, Row>): (r: map<Key, Row>) {
    map k | k in rows :: MoveOne(rows, moves, k)
  }

  // `moves` rewrites rows of the table only in owner, visibility and version, and no
  // copying attention item directly.
  ghost predicate Admissible(rows: map<Key, Row>, moves: map<Key, Row>) {
    forall k :: k in moves ==>
      && k in rows && EntityOf(k, rows[k]).None?
      && moves[k] == rows[k].(owner := moves[k].owner, vis := moves[k].vis, version := moves[k].version)
  }

  lemma ComposeMoves(rows: map<Key, Row>, a: map<Key, Row>, b: map<Key, Row>)
    requires a.Keys !! b.Keys && Admissible(rows, a) && Admissible(rows, b)
    ensures Admissible(ApplyMoves(rows, a), b)
    ensures ApplyMoves(ApplyMoves(rows, a), b) == ApplyMoves(rows, a + b)
  {
    var mid := ApplyMoves(rows, a);
    forall k | k in rows
      ensures MoveOne(mid, b, k) == MoveOne(rows, a + b, k)
    {
      var e := EntityOf(k, rows[k]);
      assert EntityOf(k, mid[k]) == e;
      if k !in a && k !in b && e.Some? {
        assert Peer(mid, mid[k].ws, e.value) == Peer(rows, rows[k].ws, e.value);
      }
    }
  }

  // A dismissal in force stays in force across the move exactly when it was made at the
  // version the item was computed at.
  ghost predicate InForce(item: Row, entity: Row) {
    item.mark.dismissed == Some(entity.version)
  }

  lemma DismissalSurvives(t: Table, item: Row, entity: Row, owner: nat, vis: Visibility)
    requires item.mark.dismissed.Some? ==> item.mark.dismissed.value <= entity.version
    ensures var moved := MovedRow(t, entity, owner, vis);
      InForce(Mirrored(item, entity, moved), moved)
      <==> (InForce(item, entity) && (moved.version != entity.version ==> item.mark.source == entity.version))
    ensures var moved := MovedRow(t, entity, owner, vis);
      var after := Mirrored(item, entity, moved);
      && (InForce(after, moved) && moved.version != entity.version ==> after.mark.source == moved.version)
      && (!InForce(after, moved) || moved.version == entity.version ==> after.mark == item.mark)
  {
  }

  // Which items copy a row: those of its workspace that name it, as a task, a commitment or
  // a risk.
  lemma CopiesOnColumns(rows: map<Key, Row>, item: Key, k: Key)
    requires item in rows && k in rows
    ensures Mirrors(rows, item, k)
      <==> (var f := rows[item].facts;
            && item.table == AttentionItems && f.AttentionFacts? && f.entity == k.id && rows[item].ws == rows[k].ws
            && (|| (k.table == Tasks && f.entityType == TaskEntity)
                || (k.table == Commitments && f.entityType == CommitmentEntity)
                || (k.table == Risks && f.entityType == RiskEntity)))
  {
  }

  // A copying item of a moved row ends with that row's owner and visibility.
  lemma ItemFollows(rows: map<Key, Row>, moves: map<Key, Row>, k: Key, e: Key)
    requires Admissible(rows, moves) && k in rows && e in moves
    requires EntityOf(k, rows[k]) == Some(e) && Peer(rows, rows[k].ws, e)
    ensures ApplyMoves(rows, moves)[k].owner == ApplyMoves(rows, moves)[e].owner
    ensures ApplyMoves(rows, moves)[k].vis == ApplyMoves(rows, moves)[e].vis
  {
  }

  lemma MovesNothing(rows: map<Key, Row>, moves: map<Key, Row>)
    requires forall k :: k in moves ==> k in rows && moves[k] == rows[k]
    requires forall k, e :: k in rows && EntityOf(k, rows[k]) == Some(e) && e in moves && Peer(rows, rows[k].ws, e) ==>
      rows[k].owner == rows[e].owner && rows[k].vis == rows[e].vis
    ensures ApplyMoves(rows, moves) == rows
  {
    forall k | k in rows ensures MoveOne(rows, moves, k) == rows[k] {
      var e := EntityOf(k, rows[k]);
      if k !in moves && e.Some? && e.value in moves && Peer(rows, rows[k].ws, e.value) {
        assert moves[e.value] == rows[e.value];
      }
    }
  }
}
