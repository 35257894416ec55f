// Search results: their score, their order, the keyset predicate and the signed cursor
// that continues them.
module SearchPaging {
  import opened Records
  import opened Base64

  // A row matched by the query; `age` in seconds, `score` inputs as the database returns
  // them.
  datatype Match = Match(exact: bool, prefix: bool, trigram: real, fulltext: real, bodyPrefix: bool,
                         age: int, pinned: bool, archived: bool)

  const DAY := 86400

  function Most(a: real, b: real): real { if a >= b then a else b }
  function Least(a: real, b: real): real { if a <= b then a else b }

  function TextScore(m: Match): real {
    if m.exact then 1.0
    else if m.prefix then 0.85
    else Most(Most(Least(m.trigram, 0.75), Least(m.fulltext, 0.70)), if m.bodyPrefix then 0.55 else 0.0)
  }

  function Recency(age: int): real {
    if age <= 7 * DAY then 0.12 else if age <= 30 * DAY then 0.06 else if age <= 90 * DAY then 0.02 else 0.0
  }

  function Score(m: Match): real {
    Least(1.0, TextScore(m) + Recency(m.age) + (if m.pinned then 0.08 else 0.0) - (if m.archived then 0.20 else 0.0))
  }

  // `similarity` and `ts_rank_cd` are never negative; a match matches somehow.
  predicate Matches(m: Match) {
    && 0.0 <= m.trigram <= 1.0 && m.fulltext >= 0.0
    && (m.exact || m.prefix || m.trigram >= 0.15 || m.fulltext > 0.0 || m.bodyPrefix)
  }

  // A score is never above 1, and below 0 exactly for an archived weak match: neither title
  // nor body begins with the query, and similarity, rank, age and pin make up less than the
  // archive penalty.
  lemma ScoreRange(m: Match)
    requires Matches(m)
    ensures Score(m) <= 1.0
    ensures Score(m) < 0.0
      <==> (m.archived && !m.exact && !m.prefix && !m.bodyPrefix
            && Most(m.trigram, m.fulltext) + Recency(m.age) + (if m.pinned then 0.08 else 0.0) < 0.20)
  {
  }

  // The same but for how the query was matched.
  predicate AlikeElse(a: Match, b: Match) { a.age == b.age && a.pinned == b.pinned && a.archived == b.archived }

  // The kind of match decides before its degree: a whole title before the beginning of one,
  // and that before anything else, which scores at most 0.75 of its own, for similarity, or
  // 0.70, for rank; a body beginning with the query scores at least 0.55.
  lemma TiersOrder(a: Match, b: Match)
    requires Matches(a) && Matches(b) && AlikeElse(a, b)
    ensures a.exact ==> Score(a) >= Score(b)
    ensures a.prefix && !b.exact ==> Score(a) >= Score(b)
    ensures a.prefix && !a.exact && !b.exact && !b.prefix && Score(a) < 1.0 ==> Score(a) >= Score(b) + 0.10
    ensures a.exact && !b.exact && Score(a) < 1.0 ==> Score(a) >= Score(b) + 0.15
    ensures a.bodyPrefix && !b.exact && !b.prefix && b.trigram <= 0.55 && b.fulltext <= 0.55 ==> Score(a) >= Score(b)
    ensures a.age > 7776000 && !a.pinned && !a.archived && !a.exact && !a.prefix ==>
      && Score(a) <= 0.75
      && (Score(a) > 0.70 <==> a.trigram > 0.70)
      && (Score(a) >= 0.70 <==> a.trigram >= 0.70 || a.fulltext >= 0.70)
      && (Score(a) >= 0.55 <==> a.bodyPrefix || a.trigram >= 0.55 || a.fulltext >= 0.55)
  {
  }

  // A younger match of the same kind, or one pinned or not archived, never scores less; by
  // how much at most.
  lemma ScoreMonotone(a: Match, b: Match)
    requires Matches(a) && a == b.(age := a.age, pinned := a.pinned, archived := a.archived)
    ensures a.age <= b.age && (b.pinned ==> a.pinned) && (a.archived ==> b.archived) ==>
      Score(b) <= Score(a) <= Score(b) + 0.12 + 0.08 + 0.20
    ensures a.age == b.age && a.pinned == b.pinned && !a.archived && b.archived && Score(a) < 1.0 ==>
      Score(a) == Score(b) + 0.20
    ensures a.age == b.age && a.archived == b.archived && a.pinned && !b.pinned && Score(a) < 1.0 ==>
      Score(a) == Score(b) + 0.08
    ensures a.archived == b.archived && a.pinned == b.pinned && Score(a) < 1.0 && Score(b) < 1.0 ==>
      (Score(a) == Score(b) <==> (b.age <= 604800 <==> a.age <= 604800) && (b.age <= 2592000 <==> a.age <= 2592000)
                                 && (b.age <= 7776000 <==> a.age <= 7776000))
  {
  }

  // What being recent is worth: the most up to seven days, half of it up to thirty, a sixth up
  // to ninety, and nothing after that.
  lemma RecencyWorth(a: Match, aged: Match)
    requires Matches(a) && aged == a.(age := aged.age) && aged.age > 7776000 && Score(a) < 1.0
    ensures a.age <= 604800 ==> Score(a) == Score(aged) + 0.12
    ensures 604800 < a.age <= 2592000 ==> Score(a) == Score(aged) + 0.06
    ensures 2592000 < a.age <= 7776000 ==> Score(a) == Score(aged) + 0.02
    ensures a.age > 7776000 ==> Score(a) == Score(aged)
  {
  }

  // What the results are ordered by, and what a cursor holds.
  datatype Hit = Hit(score: real, updatedAt: int, typeOrder: nat, id: nat)

  // ORDER BY score DESC, updated_at DESC, type_order ASC, entity_id ASC
  predicate Precedes(a: Hit, b: Hit) {
    if a.score != b.score then a.score > b.score
    else if a.updatedAt != b.updatedAt then a.updatedAt > b.updatedAt
    else if a.typeOrder != b.typeOrder then a.typeOrder < b.typeOrder
    else a.id < b.id
  }

  // The WHERE clause: the four ways of coming after the cursor.
  predicate Continues(h: Hit, cursor: Option<Hit>) {
    cursor.Some? ==>
      var c := cursor.value;
      || h.score < c.score
      || (h.score == c.score && h.updatedAt < c.updatedAt)
      || (h.score == c.score && h.updatedAt == c.updatedAt && h.typeOrder > c.typeOrder)
      || (h.score == c.score && h.updatedAt == c.updatedAt && h.typeOrder == c.typeOrder && h.id > c.id)
  }

  lemma PrecedesIsTotalOrder(a: Hit, b: Hit, c: Hit)
    ensures !Precedes(a, a)
    ensures a != b ==> (Precedes(a, b) <==> !Precedes(b, a))
    ensures Precedes(a, b) && Precedes(b, c) ==> Precedes(a, c)
  {
  }

  // The keyset predicate selects exactly what comes strictly after the cursor in the order.
  lemma ContinuesIsStrictlyAfter(h: Hit, c: Hit)
    ensures Continues(h, Some(c)) <==> Precedes(c, h)
  {
  }

  // A snapshot's matching rows in order; entity ids are unique.
  ghost predicate Ranked(hits: seq<Hit>) {
    forall i, j :: 0 <= i < j < |hits| ==> Precedes(hits[i], hits[j])
  }

  function Where(hits: seq<Hit>, cursor: Option<Hit>): seq<Hit> {
    if hits == [] then []
    else (if Continues(hits[0], cursor) then [hits[0]] else []) + Where(hits[1..], cursor)
  }

  lemma {:induction false} WhereAll(hits: seq<Hit>, cursor: Option<Hit>)
    requires forall i :: 0 <= i < |hits| ==> Continues(hits[i], cursor)
    ensures Where(hits, cursor) == hits
  {
    if hits != [] {
      WhereAll(hits[1..], cursor);
      assert hits == [hits[0]] + hits[1..];
    }
  }

  // Continuing from the n-th hit selects the hits after it.
  lemma {:induction false} WhereAfter(hits: seq<Hit>, n: nat)
    requires Ranked(hits) && 0 < n <= |hits|
    ensures Where(hits, Some(hits[n - 1])) == hits[n..]
  {
    WhereFrom(hits, hits[n - 1], n);
  }

  lemma {:induction false} WhereFrom(hits: seq<Hit>, c: Hit, n: nat)
    requires n <= |hits|
    requires forall i :: 0 <= i < n ==> !Precedes(c, hits[i])
    requires forall i :: n <= i < |hits| ==> Precedes(c, hits[i])
    ensures Where(hits, Some(c)) == hits[n..]
    decreases n
  {
    if n == 0 {
      WhereAll(hits, Some(c));
    } else {
      assert forall i :: 0 <= i < |hits| - 1 ==> hits[1..][i] == hits[i + 1];
      WhereFrom(hits[1..], c, n - 1);
    }
  }

  // ------------------------------------------------------------------------ the cursor

  // JSON and HMAC-SHA256, as far as the cursor depends on them.
  datatype Codec = Codec(dumps: Hit -> seq<byte>, loads: seq<byte> -> Option<Hit>, sign: seq<byte> -> seq<byte>)

  ghost predicate Faithful(c: Codec) {
    && (forall h :: c.loads(c.dumps(h)) == Some(h))
    && (forall b :: |c.sign(b)| == 32)
    && (forall h :: c.dumps(h) != [])
  }

  predicate InRange(h: Hit) { 0.0 <= h.score <= 1.0 && 1 <= h.typeOrder <= 6 }

  function SignCursor(c: Codec, h: Hit): string {
    Unpadded(Encode(c.dumps(h) + c.sign(c.dumps(h))))
  }

  // None: 400 INVALID_CURSOR.
  function DecodeCursor(c: Codec, cursor: string): Option<Hit> {
    match Decode(Padded(cursor))
    case None => None
    case Some(decoded) =>
      if |decoded| <= 32 then None
      else
        var raw, signature := decoded[..|decoded| - 32], decoded[|decoded| - 32..];
        var h := c.loads(raw);
        if signature != c.sign(raw) || h.None? || !InRange(h.value) then None else h
  }

  // A cursor is read back exactly when its score is one a cursor may hold.
  lemma CursorRoundTrip(c: Codec, h: Hit)
    requires Faithful(c)
    ensures DecodeCursor(c, SignCursor(c, h))
      == if 0.0 <= h.score <= 1.0 && 1 <= h.typeOrder <= 6 then Some(h) else None
    ensures SignCursor(c, h) != ""
  {
    var raw := c.dumps(h);
    var all := raw + c.sign(raw);
    PaddingRestored(all);
    DecodeEncode(all);
    assert all[..|all| - 32] == raw && all[|all| - 32..] == c.sign(raw);
  }

  // A cursor is accepted, and read as this hit, exactly when it decodes to a payload holding
  // the hit in range, followed by the payload's own signature.
  lemma AcceptedIffSigned(c: Codec, cursor: string, h: Hit)
    requires Faithful(c)
    ensures DecodeCursor(c, cursor) == Some(h)
      <==> && 0.0 <= h.score <= 1.0 && 1 <= h.typeOrder <= 6
           && exists raw :: raw != [] && Decode(Padded(cursor)) == Some(raw + c.sign(raw)) && c.loads(raw) == Some(h)
  {
    if DecodeCursor(c, cursor) == Some(h) {
      var decoded := Decode(Padded(cursor)).value;
      var raw := decoded[..|decoded| - 32];
      assert raw + decoded[|decoded| - 32..] == decoded;
      assert raw != [] && Decode(Padded(cursor)) == Some(raw + c.sign(raw)) && c.loads(raw) == Some(h);
    }
    if raw :| raw != [] && Decode(Padded(cursor)) == Some(raw + c.sign(raw)) && c.loads(raw) == Some(h) {
      var all := raw + c.sign(raw);
      assert all[..|all| - 32] == raw && all[|all| - 32..] == c.sign(raw);
    }
  }

  // ----------------------------------------------------------------------- the pages

  datatype Result = InvalidCursor | Page(items: seq<Hit>, next: Option<string>)

  method Search(c: Codec, hits: seq<Hit>, cursor: Option<string>, limit: nat) returns (r: Result)
    requires limit > 0
    ensures r.InvalidCursor? <==> cursor.Some? && cursor.value != "" && DecodeCursor(c, cursor.value).None?
    ensures r.Page? ==>
      var from := if cursor.Some? && cursor.value != "" then DecodeCursor(c, cursor.value) else None;
      var rest := Where(hits, from);
      && r.items == (if |rest| <= limit then rest else rest[..limit])
      && r.next == (if |rest| <= limit then None else Some(SignCursor(c, rest[limit - 1])))
  {
    var from: Option<Hit> := None;
    if cursor.Some? && cursor.value != "" {
      from := DecodeCursor(c, cursor.value);
      if from.None? { return InvalidCursor; }
    }
    var rest := Where(hits, from);
    var rows := if |rest| <= limit + 1 then rest else rest[..limit + 1];
    var page := if |rows| <= limit then rows else rows[..limit];
    var next := None;
    if |rows| > limit && page != [] {
      next := Some(SignCursor(c, page[|page| - 1]));
    }
    r := Page(page, next);
  }

  // The last hit of a page that is not the last page, if any.
  function LastBoundary(hits: seq<Hit>, limit: nat): Option<Hit>
    requires limit > 0
    decreases |hits|
  {
    if |hits| <= limit then None
    else
      var later := LastBoundary(hits[limit..], limit);
      if later.Some? then later else Some(hits[limit - 1])
  }

  lemma BoundaryFrom(hits: seq<Hit>, n: nat, limit: nat)
    requires limit > 0 && n <= |hits|
    ensures |hits| - n <= limit ==> LastBoundary(hits[n..], limit).None?
    ensures |hits| - n > limit ==>
      var later := LastBoundary(hits[n + limit..], limit);
      LastBoundary(hits[n..], limit) == if later.Some? then later else Some(hits[n + limit - 1])
  {
    if |hits| - n > limit {
      assert hits[n..][limit..] == hits[n + limit..] && hits[n..][limit - 1] == hits[n + limit - 1];
    }
  }

  // Scores only fall, so a boundary below 0 leaves only boundaries below 0.
  lemma {:induction false} BoundaryLeft(hits: seq<Hit>, n: nat, limit: nat)
    requires Ranked(hits) && limit > 0 && 0 < n < |hits|
    ensures LastBoundary(hits[n..], limit).Some? ==> LastBoundary(hits[n..], limit).value.score <= hits[n - 1].score
    decreases |hits| - n
  {
    BoundaryFrom(hits, n, limit);
    if |hits| - n > limit {
      assert Precedes(hits[n - 1], hits[n + limit - 1]);
      BoundaryLeft(hits, n + limit, limit);
    }
  }

  // The walk has given the first n hits; `cursor` continues it.
  ghost predicate Reached(c: Codec, hits: seq<Hit>, limit: nat, n: nat, cursor: Option<string>)
    requires limit > 0
  {
    && n <= |hits|
    && (if n == 0 then cursor.None? else n < |hits| && cursor == Some(SignCursor(c, hits[n - 1])))
    && LastBoundary(hits, limit) == if n == 0 || LastBoundary(hits[n..], limit).Some? then LastBoundary(hits[n..], limit)
                                    else Some(hits[n - 1])
  }

  ghost predicate Scored(hits: seq<Hit>) {
    forall i :: 0 <= i < |hits| ==> hits[i].score <= 1.0 && 1 <= hits[i].typeOrder <= 6
  }

  lemma PageFrom(c: Codec, hits: seq<Hit>, limit: nat, n: nat, cursor: Option<string>)
    requires Faithful(c) && Ranked(hits) && Scored(hits) && limit > 0 && Reached(c, hits, limit, n, cursor)
    ensures n == 0 ==> Where(hits, None) == hits[n..]
    ensures n > 0 ==> cursor.Some? && cursor.value != ""
    ensures n > 0 ==> DecodeCursor(c, cursor.value) == if hits[n - 1].score >= 0.0 then Some(hits[n - 1]) else None
    ensures n > 0 ==> Where(hits, Some(hits[n - 1])) == hits[n..]
    ensures n > 0 && hits[n - 1].score < 0.0 ==>
      LastBoundary(hits, limit).Some? && LastBoundary(hits, limit).value.score < 0.0
  {
    if n > 0 {
      CursorRoundTrip(c, hits[n - 1]);
      WhereAfter(hits, n);
      BoundaryLeft(hits, n, limit);
    } else {
      WhereAll(hits, None);
    }
  }

  lemma Walked(c: Codec, hits: seq<Hit>, limit: nat, n: nat, cursor: Option<string>, items: seq<Hit>, next: Option<string>)
    requires limit > 0 && Reached(c, hits, limit, n, cursor)
    requires var rest := hits[n..];
      && items == (if |rest| <= limit then rest else rest[..limit])
      && next == (if |rest| <= limit then None else Some(SignCursor(c, rest[limit - 1])))
    ensures hits[..n] + items == (if next.None? then hits else hits[..n + limit])
    ensures next.None? && LastBoundary(hits, limit).Some? ==> n > 0 && LastBoundary(hits, limit).value == hits[n - 1]
    ensures next.Some? ==> Reached(c, hits, limit, n + limit, next)
  {
    hide LastBoundary, SignCursor;
    BoundaryFrom(hits, n, limit);
    assert hits[0..] == hits;
  }

  // Following the cursors gives the ranked hits, each once and in order: all of them exactly
  // when the last cursor needed is one a cursor may hold.
  method FollowCursors(c: Codec, hits: seq<Hit>, limit: nat) returns (complete: bool, all: seq<Hit>)
    requires Faithful(c) && Ranked(hits) && Scored(hits) && limit > 0
    ensures all <= hits
    ensures complete ==> all == hits
    ensures complete <==> (LastBoundary(hits, limit).Some? ==> LastBoundary(hits, limit).value.score >= 0.0)
  {
    hide SignCursor, DecodeCursor, Where, LastBoundary, Ranked, Scored, Faithful;
    all := [];
    var cursor: Option<string> := None;
    ghost var n := 0;
    assert hits[0..] == hits;
    while true
      invariant Reached(c, hits, limit, n, cursor) && all == hits[..n]
      decreases |hits| - n
    {
      PageFrom(c, hits, limit, n, cursor);
      var r := Search(c, hits, cursor, limit);
      if r.InvalidCursor? { return false, all; }
      Walked(c, hits, limit, n, cursor, r.items, r.next);
      all := all + r.items;
      if r.next.None? { return true, all; }
      n, cursor := n + limit, r.next;
    }
  }
}
