// The shared-activity feed: one page of the visible audit events, scanned in batches.
module ActivityFeed {
  import opened Records
  import opened Sharing

  datatype Position = Position(at: int, id: nat)

  datatype Event = Event(pos: Position, aggregateType: string, aggregate: nat)

  // (a) < (b), as the row comparison `(occurred_at, id) < (...)`.
  predicate Before(a: Position, b: Position) { a.at < b.at || (a.at == b.at && a.id < b.id) }

  // ORDER BY occurred_at DESC, id DESC; ids are unique.
  ghost predicate Descending(events: seq<Event>) {
    forall i, j :: 0 <= i < j < |events| ==> Before(events[j].pos, events[i].pos)
  }

  // The events older than the cursor.
  function Rest(events: seq<Event>, cursor: Option<Position>): seq<Event> {
    if events == [] || cursor.None? || Before(events[0].pos, cursor.value) then events
    else Rest(events[1..], cursor)
  }

  // Aggregate types outside this map never show.
  function ResourceTable(aggregateType: string): Option<Table> {
    match aggregateType
    case "incident" => Some(Other("incidents"))
    case "engineering_decision" => Some(Other("engineering_decisions"))
    case "engineering_work_item" => Some(Other("engineering_work_items"))
    case "repository" => Some(Other("repositories"))
    case "personal_domain" => Some(Other("personal_domains"))
    case "domain_record" => Some(Other("domain_records"))
    case "cross_domain_grant" => Some(Other("cross_domain_grants"))
    case _ => None
  }

  // The decision on the row the event is about, as things are now.
  function Shown(db: Db, dir: Directory, caller: Membership, now: nat, e: Event): Answer {
    var t := ResourceTable(e.aggregateType);
    if t.None? then Denied else Authorize(db, dir, caller, Key(t.value, e.aggregate), Read, now)
  }

  function Visible(show: Event -> Answer, events: seq<Event>): (r: seq<Event>)
    ensures |r| <= |events|
  {
    if events == [] then []
    else
      var n := |events| - 1;
      Visible(show, events[..n]) + (if show(events[n]) == Allowed then [events[n]] else [])
  }

  const MULTIPLIER := 4
  const MAX_ITERATIONS := 5

  // SELECT ... WHERE (occurred_at, id) < cursor ORDER BY occurred_at DESC, id DESC LIMIT n
  function FetchCandidates(events: seq<Event>, before: Option<Position>, n: nat): seq<Event> {
    var rest := Rest(events, before);
    if |rest| <= n then rest else rest[..n]
  }

  lemma {:induction false} RestAll(events: seq<Event>, cursor: Option<Position>)
    requires Descending(events)
    ensures Descending(Rest(events, cursor))
    ensures |Rest(events, cursor)| <= |events|
    ensures Rest(events, cursor) == events[|events| - |Rest(events, cursor)|..]
    ensures cursor.Some? ==> forall e :: e in Rest(events, cursor) <==> e in events && Before(e.pos, cursor.value)
  {
    if events != [] && cursor.Some? && !Before(events[0].pos, cursor.value) {
      RestAll(events[1..], cursor);
      assert events == [events[0]] + events[1..];
    }
  }

  lemma {:induction false} SkipTo(events: seq<Event>, c: Position, k: nat)
    requires Descending(events) && k <= |events|
    requires forall i :: 0 <= i < k ==> !Before(events[i].pos, c)
    requires k < |events| ==> Before(events[k].pos, c)
    ensures Rest(events, Some(c)) == events[k..]
    decreases k
  {
    if k > 0 {
      assert forall i :: 0 <= i < |events| - 1 ==> events[1..][i] == events[i + 1];
      SkipTo(events[1..], c, k - 1);
      assert events[1..][k - 1..] == events[k..];
    }
  }

  lemma RestIs(events: seq<Event>, k: nat, n: nat)
    requires Descending(events) && k + n <= |events| && n > 0
    ensures Rest(events, Some(events[k..][n - 1].pos)) == events[k..][n..]
  {
    hide Rest;
    assert events[k..][n - 1] == events[k + n - 1];
    SkipTo(events, events[k + n - 1].pos, k + n);
    assert events[k..][n..] == events[k + n..];
  }

  // Continuing from the n-th event of what is left leaves the part after it.
  lemma Continue(events: seq<Event>, cursor: Option<Position>, n: nat)
    requires Descending(events) && 0 < n <= |Rest(events, cursor)|
    ensures Rest(events, Some(Rest(events, cursor)[n - 1].pos)) == Rest(events, cursor)[n..]
  {
    hide Rest, Descending;
    RestAll(events, cursor);
    RestIs(events, |events| - |Rest(events, cursor)|, n);
  }

  // Where a walk of the first n events left of `rest` stands.
  function CursorAt(cursor: Option<Position>, rest: seq<Event>, n: nat): Option<Position>
    requires n <= |rest|
  {
    if n == 0 then cursor else Some(rest[n - 1].pos)
  }

  lemma {:induction false} VisibleAdds(show: Event -> Answer, a: seq<Event>, b: seq<Event>)
    ensures Visible(show, a + b) == Visible(show, a) + Visible(show, b)
    decreases |b|
  {
    if b == [] {
      assert a + b == a;
    } else {
      var n := |b| - 1;
      assert (a + b)[..|a + b| - 1] == a + b[..n] && (a + b)[|a + b| - 1] == b[n];
      VisibleAdds(show, a, b[..n]);
    }
  }

  // ------------------------------------------------------ where a page and a walk end

  ghost function Count(show: Event -> Answer, events: seq<Event>): nat { |Visible(show, events)| }

  // How far a batch is walked for `want` more visible events.
  ghost function FillPoint(show: Event -> Answer, batch: seq<Event>, want: nat): (n: nat)
    ensures n <= |batch|
  {
    if batch == [] || want == 0 then 0
    else 1 + FillPoint(show, batch[1..], if show(batch[0]) == Allowed then want - 1 else want)
  }

  ghost function BatchOf(rest: seq<Event>, want: nat): (b: seq<Event>)
    ensures |b| <= |rest| && b == rest[..|b|]
  {
    if |rest| <= want * MULTIPLIER then rest else rest[..want * MULTIPLIER]
  }

  ghost function Less(want: nat, found: nat): nat { if found <= want then want - found else 0 }

  // How many events the page walks.
  ghost function PageRows(show: Event -> Answer, rest: seq<Event>, want: nat, passes: nat): (n: nat)
    ensures n <= |rest|
    decreases passes
  {
    if passes == 0 || want == 0 then 0
    else
      var n := FillPoint(show, BatchOf(rest, want), want);
      if |rest| < want * MULTIPLIER then n
      else n + PageRows(show, rest[n..], Less(want, Count(show, rest[..n])), passes - 1)
  }

  // A batch shorter than asked for comes up before the page is full or its passes are used.
  ghost predicate EndsShort(show: Event -> Answer, rest: seq<Event>, want: nat, passes: nat)
    decreases passes
  {
    if passes == 0 || want == 0 then false
    else if |rest| < want * MULTIPLIER then true
    else
      var n := FillPoint(show, BatchOf(rest, want), want);
      EndsShort(show, rest[n..], Less(want, Count(show, rest[..n])), passes - 1)
  }

  // Where the last page of a walk over all the events starts.
  ghost function LastStart(show: Event -> Answer, events: seq<Event>, limit: nat): (n: nat)
    ensures n <= |events|
    decreases |events|
  {
    var n := PageRows(show, events, limit, MAX_ITERATIONS);
    if EndsShort(show, events, limit, MAX_ITERATIONS) || n == 0 then 0
    else n + LastStart(show, events[n..], limit)
  }

  // The events a walk over all of them reads.
  ghost function WalkRows(show: Event -> Answer, events: seq<Event>, limit: nat): (n: nat)
    ensures n <= |events|
  {
    var start := LastStart(show, events, limit);
    start + PageRows(show, events[start..], limit, MAX_ITERATIONS)
  }

  lemma {:induction false} VisibleFirst(show: Event -> Answer, events: seq<Event>)
    requires events != []
    ensures Visible(show, events) == (if show(events[0]) == Allowed then [events[0]] else []) + Visible(show, events[1..])
  {
    VisibleAdds(show, events[..1], events[1..]);
    assert events[..1] + events[1..] == events;
    assert events[..1][..0] == [] && Visible(show, []) == [];
  }

  // One row walked of what is left of a batch.
  lemma FillOne(show: Event -> Answer, batch: seq<Event>, n: nat, want: nat)
    requires n < |batch| && want > 0
    ensures FillPoint(show, batch[n..], want)
      == 1 + FillPoint(show, batch[n + 1..], if show(batch[n]) == Allowed then want - 1 else want)
  {
    assert batch[n..][1..] == batch[n + 1..];
  }

  ghost predicate NoneRaised(show: Event -> Answer, events: seq<Event>) {
    forall i :: 0 <= i < |events| ==> show(events[i]) != Raised
  }

  // Walks one batch until the page is full.
  method WalkBatch(show: Event -> Answer, batch: seq<Event>, collected: seq<Event>, limit: nat)
    returns (ok: bool, collected': seq<Event>, walked: nat)
    requires |collected| < limit
    ensures walked <= |batch| && (batch != [] ==> walked > 0)
    ensures ok <==> NoneRaised(show, batch[..FillPoint(show, batch, limit - |collected|)])
    ensures ok ==> walked == FillPoint(show, batch, limit - |collected|)
    ensures ok ==> collected' == collected + Visible(show, batch[..walked]) && |collected'| <= limit
    ensures ok && walked < |batch| ==> |collected'| == limit
    ensures !ok ==> walked > 0 && show(batch[walked - 1]) == Raised
  {
    hide Visible, FillPoint;
    ok, collected', walked := true, collected, 0;
    ghost var end := FillPoint(show, batch, limit - |collected|);
    NothingWalked(show, batch);
    while walked < |batch| && |collected'| < limit
      invariant walked <= |batch| && |collected'| <= limit && ok
      invariant walked == 0 ==> collected' == collected
      invariant collected' == collected + Visible(show, batch[..walked])
      invariant end == walked + FillPoint(show, batch[walked..], limit - |collected'|)
      invariant NoneRaised(show, batch[..walked])
    {
      var row := batch[walked];
      VisibleLast(show, batch, walked);
      FillOne(show, batch, walked, limit - |collected'|);
      walked := walked + 1;
      var answer := show(row);
      if answer == Raised {
        assert batch[..end][walked - 1] == row;
        return false, collected', walked;
      }
      if answer == Allowed { collected' := collected' + [row]; }
    }
    NothingLeft(show, batch[walked..], limit - |collected'|);
  }

  lemma NothingWalked(show: Event -> Answer, batch: seq<Event>)
    ensures batch[..0] == [] && batch[0..] == batch && Visible(show, batch[..0]) == []
  {
  }

  lemma NothingLeft(show: Event -> Answer, rest: seq<Event>, want: nat)
    requires rest == [] || want == 0
    ensures FillPoint(show, rest, want) == 0
  {
  }

  lemma VisibleLast(show: Event -> Answer, batch: seq<Event>, n: nat)
    requires n < |batch|
    ensures Visible(show, batch[..n + 1]) == Visible(show, batch[..n]) + (if show(batch[n]) == Allowed then [batch[n]] else [])
  {
    assert batch[..n + 1][..n] == batch[..n];
  }

  // The next batch is the next stretch of what was left.
  lemma NextBatch(events: seq<Event>, cursor: Option<Position>, n: nat, size: nat)
    requires Descending(events) && n <= |Rest(events, cursor)|
    ensures var rest := Rest(events, cursor);
      FetchCandidates(events, CursorAt(cursor, rest, n), size)
      == rest[n..if |rest| - n <= size then |rest| else n + size]
  {
    if n > 0 { Continue(events, cursor, n); }
  }

  // Walking the first `walked` rows of that batch.
  lemma Walk(show: Event -> Answer, rest: seq<Event>, n: nat, m: nat, walked: nat)
    requires n <= m <= |rest| && walked <= m - n
    ensures Visible(show, rest[..n]) + Visible(show, rest[n..m][..walked]) == Visible(show, rest[..n + walked])
    ensures walked > 0 ==> rest[n..m][walked - 1] == rest[n + walked - 1]
  {
    assert rest[..n] + rest[n..m][..walked] == rest[..n + walked];
    VisibleAdds(show, rest[..n], rest[n..m][..walked]);
  }

  // What a null cursor leaves behind.
  lemma NullCursor(show: Event -> Answer, rest: seq<Event>, n: nat, limit: nat)
    requires n <= |rest| && |Visible(show, rest[..n])| <= limit
    requires |Visible(show, rest[..n])| == limit || n == |rest|
    ensures Visible(show, rest[n..]) == [] <==> |Visible(show, rest)| <= limit
  {
    assert rest[..n] + rest[n..] == rest;
    VisibleAdds(show, rest[..n], rest[n..]);
  }

  // One batch of a page: read, walked until the page is full, and known to be the last when
  // it is short.
  method ScanBatch(events: seq<Event>, show: Event -> Answer, walk: Option<Position>, items: seq<Event>, limit: nat,
                   ghost cursor: Option<Position>, ghost n: nat)
    returns (ok: bool, walk': Option<Position>, items': seq<Event>, exhausted: bool, ghost n': nat)
    requires Descending(events) && |items| < limit && n <= |Rest(events, cursor)|
    requires walk == CursorAt(cursor, Rest(events, cursor), n)
    requires items == Visible(show, Rest(events, cursor)[..n])
    ensures var rest, want := Rest(events, cursor), limit - |items|;
      && n' == n + FillPoint(show, BatchOf(rest[n..], want), want) <= |rest|
      && (ok <==> NoneRaised(show, rest[n..n']))
      && (ok ==> walk' == CursorAt(cursor, rest, n') && items' == Visible(show, rest[..n']) && |items'| <= limit)
      && (ok ==> items' == items + Visible(show, rest[n..n']))
      && (ok && exhausted ==> n' == |rest| || |items'| == limit)
      && (ok ==> (exhausted <==> |rest| - n < want * MULTIPLIER))
  {
    hide Visible, Rest, Descending, FetchCandidates, FillPoint;
    ghost var rest, want := Rest(events, cursor), limit - |items|;
    var size := (limit - |items|) * MULTIPLIER;
    NextBatch(events, cursor, n, size);
    ghost var m := if |rest| - n <= size then |rest| else n + size;
    var batch := FetchCandidates(events, walk, size);
    assert batch == rest[n..m] == BatchOf(rest[n..], want);
    n' := n + FillPoint(show, batch, want);
    assert rest[n..n'] == batch[..n' - n];
    if batch == [] {
      NothingWalked(show, rest[n..n']);
      return true, walk, items, true, n';
    }
    var walked;
    ok, items', walked := WalkBatch(show, batch, items, limit);
    walk' := Some(batch[walked - 1].pos);
    exhausted := |batch| < size;
    if ok { Walk(show, rest, n, m, walked); }
  }

  // A page, one batch later.
  lemma PageGoesOn(show: Event -> Answer, rest: seq<Event>, n: nat, want: nat, passes: nat)
    requires n <= |rest| && want > 0 && passes > 0
    ensures var more := FillPoint(show, BatchOf(rest[n..], want), want);
      var n' := n + more;
      && n' <= |rest|
      && var left := Less(want, Count(show, rest[n..n']));
         if |rest| - n < want * MULTIPLIER
           then EndsShort(show, rest[n..], want, passes) && PageRows(show, rest[n..], want, passes) == more
           else (EndsShort(show, rest[n..], want, passes) <==> EndsShort(show, rest[n'..], left, passes - 1))
                && PageRows(show, rest[n..], want, passes) == more + PageRows(show, rest[n'..], left, passes - 1)
                && more > 0
  {
    SuffixOf(rest, n, FillPoint(show, BatchOf(rest[n..], want), want));
  }

  // One page: exactly the visible ones among the rows it walks, newest first. Its cursor is
  // null exactly when a short batch ended it, and then nothing visible is left behind exactly
  // when no more than a page of it was left.
  method ListSharedActivity(events: seq<Event>, show: Event -> Answer, cursor: Option<Position>, limit: nat)
    returns (ok: bool, items: seq<Event>, next: Option<Position>)
    requires Descending(events) && limit > 0
    ensures var rest := Rest(events, cursor);
      var n := PageRows(show, rest, limit, MAX_ITERATIONS);
      && (ok <==> NoneRaised(show, rest[..n]))
      && (ok ==>
            && items == Visible(show, rest[..n]) && |items| <= limit
            && (next.None? <==> EndsShort(show, rest, limit, MAX_ITERATIONS))
            && (next.Some? ==> n > 0 && next == Some(rest[n - 1].pos) && Rest(events, next) == rest[n..])
            && (next.None? ==> (Visible(show, rest[n..]) == [] <==> |Visible(show, rest)| <= limit))
            && (next.None? && |items| < limit ==> n == |rest|)
            && (|rest| < MULTIPLIER * limit ==> next.None?))
  {
    hide Visible, Rest, Descending, FillPoint, EndsShort, PageRows, NoneRaised, BatchOf;
    items, next := [], None;
    var walk, exhausted := cursor, false;
    ghost var rest := Rest(events, cursor);
    ghost var n: nat := 0;
    NothingWalked(show, rest);
    NoneRaisedIn(show, rest[..0]);
    var pass := 0;
    while pass < MAX_ITERATIONS && |items| < limit && !exhausted
      invariant n <= |rest| && pass <= MAX_ITERATIONS && walk == CursorAt(cursor, rest, n)
      invariant items == Visible(show, rest[..n]) && |items| <= limit && NoneRaised(show, rest[..n])
      invariant exhausted ==> n == |rest| || |items| == limit
      invariant !exhausted ==> (PageRows(show, rest, limit, MAX_ITERATIONS)
        == n + PageRows(show, rest[n..], limit - |items|, MAX_ITERATIONS - pass))
      invariant !exhausted ==> (EndsShort(show, rest, limit, MAX_ITERATIONS)
        <==> EndsShort(show, rest[n..], limit - |items|, MAX_ITERATIONS - pass))
      invariant exhausted ==> EndsShort(show, rest, limit, MAX_ITERATIONS) && PageRows(show, rest, limit, MAX_ITERATIONS) == n
      invariant pass > 0 && !exhausted ==> n > 0
    {
      PageGoesOn(show, rest, n, limit - |items|, MAX_ITERATIONS - pass);
      ghost var before := n;
      ok, walk, items, exhausted, n := ScanBatch(events, show, walk, items, limit, cursor, n);
      RaisedSplit(show, rest, before, n, PageRows(show, rest, limit, MAX_ITERATIONS));
      if !ok { return; }
      pass := pass + 1;
    }
    if exhausted { NullCursor(show, rest, n, limit); } else { PageOver(show, rest[n..], limit - |items|, MAX_ITERATIONS - pass); }
    if n > 0 { Continue(events, cursor, n); }
    if |rest| < MULTIPLIER * limit { FewEndShort(show, rest, limit); }
    ok, next := true, if exhausted then None else walk;
  }

  lemma FewEndShort(show: Event -> Answer, rest: seq<Event>, limit: nat)
    requires limit > 0 && |rest| < MULTIPLIER * limit
    ensures EndsShort(show, rest, limit, MAX_ITERATIONS)
  {
  }

  lemma NoneRaisedIn(show: Event -> Answer, none: seq<Event>)
    requires none == []
    ensures NoneRaised(show, none)
  {
  }

  lemma RaisedSplit(show: Event -> Answer, rest: seq<Event>, n: nat, m: nat, end: nat)
    requires n <= m <= end <= |rest| && NoneRaised(show, rest[..n])
    ensures NoneRaised(show, rest[n..m]) <==> NoneRaised(show, rest[..m])
    ensures !NoneRaised(show, rest[..m]) ==> !NoneRaised(show, rest[..end])
  {
    if NoneRaised(show, rest[n..m]) {
      forall i | 0 <= i < m ensures show(rest[i]) != Raised {
        if i < n { assert show(rest[..n][i]) != Raised; } else { assert show(rest[n..m][i - n]) != Raised; }
      }
    }
    if NoneRaised(show, rest[..m]) {
      forall i | 0 <= i < m - n ensures show(rest[n..m][i]) != Raised { assert show(rest[..m][n + i]) != Raised; }
    }
    if NoneRaised(show, rest[..end]) {
      forall i | 0 <= i < m ensures show(rest[i]) != Raised { assert show(rest[..end][i]) != Raised; }
    }
  }

  lemma RaisedAnywhere(show: Event -> Answer, events: seq<Event>, end: nat)
    requires end <= |events|
    ensures NoneRaised(show, events) ==> NoneRaised(show, events[..end])
  {
  }

  lemma PageOver(show: Event -> Answer, rest: seq<Event>, want: nat, passes: nat)
    requires want == 0 || passes == 0
    ensures !EndsShort(show, rest, want, passes) && PageRows(show, rest, want, passes) == 0
  {
  }

  ghost function Flatten(pages: seq<seq<Event>>): seq<Event> {
    if pages == [] then [] else Flatten(pages[..|pages| - 1]) + pages[|pages| - 1]
  }

  // A walk, one page later.
  lemma WalkGoesOn(show: Event -> Answer, events: seq<Event>, n: nat, limit: nat)
    requires n <= |events| && limit > 0
    ensures var k := PageRows(show, events[n..], limit, MAX_ITERATIONS);
      && n + k <= |events|
      && if EndsShort(show, events[n..], limit, MAX_ITERATIONS) then LastStart(show, events[n..], limit) == 0
         else k > 0 && LastStart(show, events[n..], limit) == k + LastStart(show, events[n + k..], limit)
  {
    hide PageRows, EndsShort;
    PageMoves(show, events[n..], limit);
    SuffixOf(events, n, PageRows(show, events[n..], limit, MAX_ITERATIONS));
  }

  lemma PageMoves(show: Event -> Answer, rest: seq<Event>, limit: nat)
    requires limit > 0
    ensures !EndsShort(show, rest, limit, MAX_ITERATIONS) ==> PageRows(show, rest, limit, MAX_ITERATIONS) > 0
  {
  }

  lemma SuffixOf<T>(q: seq<T>, n: nat, k: nat)
    requires n <= |q| && k <= |q[n..]|
    ensures q[n..][k..] == q[n + k..] && q[n..][..k] == q[n..n + k]
  {
  }

  // Following the cursors: the pages one after the other are the visible events of the rows
  // the walk reads, none repeated, skipped or out of order, and the walk ends. Everything
  // visible is given exactly when no more than a page of it is left where the last page
  // starts.
  method FollowCursors(events: seq<Event>, show: Event -> Answer, limit: nat)
    returns (ok: bool, all: seq<Event>, pages: seq<seq<Event>>)
    requires Descending(events) && limit > 0
    ensures ok <==> NoneRaised(show, events[..WalkRows(show, events, limit)])
    ensures NoneRaised(show, events) ==> ok
    ensures all == Flatten(pages) && (ok ==> pages != [])
    ensures ok && |pages[|pages| - 1]| < limit ==> all == Visible(show, events)
    ensures ok && |events| < MULTIPLIER * limit ==> |pages| == 1
    ensures ok ==> all == Visible(show, events[..WalkRows(show, events, limit)])
    ensures ok ==> (all == Visible(show, events)
      <==> |Visible(show, events[LastStart(show, events, limit)..])| <= limit)
  {
    hide Visible, Rest, Descending, PageRows, EndsShort, LastStart, NoneRaised, Flatten, WalkRows;
    all, pages := [], [];
    ghost var n: nat := 0;
    ghost var end := WalkRows(show, events, limit);
    var cursor := None;
    FromTheTop(events);
    NothingWalked(show, events);
    NoneRaisedIn(show, events[..0]);
    NoPage();
    while true
      invariant n <= |events| && Rest(events, cursor) == events[n..]
      invariant all == Visible(show, events[..n]) == Flatten(pages) && NoneRaised(show, events[..n])
      invariant LastStart(show, events, limit) == n + LastStart(show, events[n..], limit)
      invariant pages != [] ==> |events| >= MULTIPLIER * limit
      invariant pages == [] ==> n == 0
      decreases |events| - n
    {
      WalkGoesOn(show, events, n, limit);
      ghost var k := PageRows(show, events[n..], limit, MAX_ITERATIONS);
      EndOfWalk(show, events, n, limit);
      var items, next;
      ok, items, next := ListSharedActivity(events, show, cursor, limit);
      PageTaken(show, events, n, k);
      RaisedSplit(show, events, n, n + k, end);
      if !ok {
        RaisedAnywhere(show, events, end);
        return;
      }
      OnePageMore(pages, items);
      all, pages := all + items, pages + [items];
      n := n + k;
      if next.None? {
        Halves(show, events, n);
        return;
      }
      cursor := next;
    }
  }

  lemma PageTaken(show: Event -> Answer, events: seq<Event>, n: nat, k: nat)
    requires n <= |events| && k <= |events[n..]|
    ensures Visible(show, events[..n]) + Visible(show, events[n..][..k]) == Visible(show, events[..n + k])
    ensures events[n..][k..] == events[n + k..] && events[n..][..k] == events[n..n + k]
  {
    hide Visible;
    SuffixOf(events, n, k);
    assert events[..n] + events[n..n + k] == events[..n + k];
    VisibleAdds(show, events[..n], events[n..n + k]);
  }

  lemma NoPage()
    ensures Flatten([]) == []
  {
  }

  lemma OnePageMore(pages: seq<seq<Event>>, items: seq<Event>)
    ensures Flatten(pages + [items]) == Flatten(pages) + items
  {
    assert (pages + [items])[..|pages|] == pages;
  }

  // The page that starts at `n` of a walk ends within it, and at its end if it is the last.
  lemma EndOfWalk(show: Event -> Answer, events: seq<Event>, n: nat, limit: nat)
    requires n <= |events| && limit > 0
    requires LastStart(show, events, limit) == n + LastStart(show, events[n..], limit)
    ensures var k, end := PageRows(show, events[n..], limit, MAX_ITERATIONS), WalkRows(show, events, limit);
      && n + k <= end
      && (EndsShort(show, events[n..], limit, MAX_ITERATIONS) ==> n + k == end && LastStart(show, events, limit) == n)
  {
    hide PageRows, EndsShort, LastStart;
    WalkGoesOn(show, events, n, limit);
  }

  lemma FromTheTop(events: seq<Event>)
    ensures Rest(events, None) == events[0..] == events
  {
  }

  lemma Halves(show: Event -> Answer, events: seq<Event>, n: nat)
    requires n <= |events|
    ensures Visible(show, events[..n]) == Visible(show, events) <==> Visible(show, events[n..]) == []
  {
    hide Visible;
    assert events[..n] + events[n..] == events;
    VisibleAdds(show, events[..n], events[n..]);
  }

  datatype Feed = Forbidden | Failed | Page(items: seq<Event>, next: Option<Position>)

  lemma {:induction false} VisibleAreShown(show: Event -> Answer, events: seq<Event>, e: Event)
    ensures e in Visible(show, events) <==> e in events && show(e) == Allowed
    decreases |events|
  {
    if events != [] {
      var n := |events| - 1;
      VisibleAreShown(show, events[..n], e);
      assert events == events[..n] + [events[n]];
    }
  }

  // The caller may list the row the event is about.
  predicate Listed(db: Db, dir: Directory, caller: Membership, now: nat, e: Event) {
    ResourceTable(e.aggregateType).Some?
    && var t := ResourceTable(e.aggregateType).value;
       Key(t, e.aggregate) in ListVisible(db, dir, caller, t, Read, now)
  }

  lemma ShownIsListed(db: Db, dir: Directory, caller: Membership, now: nat, e: Event)
    ensures Shown(db, dir, caller, now, e) != Denied <==> Listed(db, dir, caller, now, e)
  {
    if ResourceTable(e.aggregateType).Some? {
      FormsAgree(db, dir, caller, Key(ResourceTable(e.aggregateType).value, e.aggregate), Read, now);
    }
  }

  // ------------------------------------------------------------- order, scope and bound

  // Newest first; of one moment, the greater id first.
  ghost predicate NewestFirst(events: seq<Event>) {
    forall i, j :: 0 <= i < j < |events| ==>
      events[j].pos.at <= events[i].pos.at && (events[j].pos.at == events[i].pos.at ==> events[j].pos.id < events[i].pos.id)
  }

  lemma {:induction false} VisibleDescending(show: Event -> Answer, events: seq<Event>)
    requires Descending(events)
    ensures Descending(Visible(show, events))
    decreases |events|
  {
    if events != [] {
      var n := |events| - 1;
      VisibleDescending(show, events[..n]);
      forall e | e in Visible(show, events[..n]) ensures Before(events[n].pos, e.pos) {
        VisibleAreShown(show, events[..n], e);
      }
    }
  }

  // A page is newest first, of events strictly older than the cursor.
  lemma PageOrder(show: Event -> Answer, events: seq<Event>, cursor: Option<Position>, n: nat)
    requires Descending(events) && n <= |Rest(events, cursor)|
    ensures NewestFirst(Visible(show, Rest(events, cursor)[..n]))
    ensures cursor.Some? ==> forall e :: e in Visible(show, Rest(events, cursor)[..n]) ==>
      e.pos.at < cursor.value.at || (e.pos.at == cursor.value.at && e.pos.id < cursor.value.id)
  {
    RestAll(events, cursor);
    var walked := Rest(events, cursor)[..n];
    VisibleDescending(show, walked);
    forall e | e in Visible(show, walked) ensures e in Rest(events, cursor) {
      VisibleAreShown(show, walked, e);
      var i :| 0 <= i < |walked| && walked[i] == e;
      assert Rest(events, cursor)[i] == e;
    }
  }

  // The kinds of event ever shown, and the tables their rows are in.
  lemma ShownKinds(db: Db, dir: Directory, caller: Membership, now: nat, e: Event)
    ensures Shown(db, dir, caller, now, e) != Denied
      <==> exists table ::
             && Authorize(db, dir, caller, Key(Other(table), e.aggregate), Read, now) != Denied
             && (e.aggregateType, table) in {
                  ("incident", "incidents"), ("engineering_decision", "engineering_decisions"),
                  ("engineering_work_item", "engineering_work_items"), ("repository", "repositories"),
                  ("personal_domain", "personal_domains"), ("domain_record", "domain_records"),
                  ("cross_domain_grant", "cross_domain_grants")}
  {
    hide Authorize;
    var t := ResourceTable(e.aggregateType);
    if t.Some? { assert t.value == Other(t.value.name); }
  }

  ghost function Reach(want: nat, passes: nat): nat {
    if passes == 0 then 0 else 4 * want + Reach(want, passes - 1)
  }

  lemma {:induction false} ReachOfLess(left: nat, want: nat, passes: nat)
    requires left <= want
    ensures Reach(left, passes) <= Reach(want, passes)
  {
    if passes > 0 { ReachOfLess(left, want, passes - 1); }
  }

  lemma {:induction false} ReachOfNone(passes: nat)
    ensures Reach(0, passes) == 0
  {
    if passes > 0 { ReachOfNone(passes - 1); }
  }

  ghost predicate NoneAllowed(show: Event -> Answer, events: seq<Event>) {
    forall i :: 0 <= i < |events| ==> show(events[i]) != Allowed
  }

  // One batch of a page: how far it is walked, and what is wanted after it.
  lemma OneBatch(show: Event -> Answer, rest: seq<Event>, want: nat, passes: nat) returns (n: nat, left: nat)
    requires want > 0 && passes > 0
    ensures n <= 4 * want && n <= |rest| && left <= want
    ensures PageRows(show, rest, want, passes)
      == if |rest| < 4 * want then n else n + PageRows(show, rest[n..], left, passes - 1)
    ensures NoneAllowed(show, rest) && |rest| >= 4 * want ==> n == 4 * want && left == want
  {
    hide Visible;
    n := FillPoint(show, BatchOf(rest, want), want);
    left := Less(want, Count(show, rest[..n]));
    if NoneAllowed(show, rest) && |rest| >= 4 * want {
      assert BatchOf(rest, want) == rest[..4 * want];
      NoneFill(show, rest[..4 * want], want);
      NoneVisible(show, rest[..n]);
    }
  }

  lemma NothingRead(show: Event -> Answer, rest: seq<Event>, want: nat, passes: nat)
    requires passes == 0 || want == 0
    ensures PageRows(show, rest, want, passes) == 0 == Reach(want, passes)
  {
    ReachOfNone(passes);
  }

  lemma ReachMore(want: nat, passes: nat)
    requires passes > 0
    ensures Reach(want, passes) == 4 * want + Reach(want, passes - 1)
  {
  }

  lemma {:induction false} ScanAtMost(show: Event -> Answer, rest: seq<Event>, want: nat, passes: nat)
    ensures PageRows(show, rest, want, passes) <= Reach(want, passes)
    decreases passes
  {
    hide PageRows, Reach;
    if passes == 0 || want == 0 {
      NothingRead(show, rest, want, passes);
    } else {
      var n, left := OneBatch(show, rest, want, passes);
      ReachMore(want, passes);
      ScanAtMost(show, rest[n..], left, passes - 1);
      ReachOfLess(left, want, passes - 1);
    }
  }

  lemma {:induction false} ScanAll(show: Event -> Answer, rest: seq<Event>, want: nat, passes: nat)
    requires |rest| >= Reach(want, passes) && NoneAllowed(show, rest)
    ensures PageRows(show, rest, want, passes) == Reach(want, passes)
    decreases passes
  {
    hide PageRows, Reach;
    if passes == 0 || want == 0 {
      NothingRead(show, rest, want, passes);
    } else {
      var n, left := OneBatch(show, rest, want, passes);
      ReachMore(want, passes);
      ScanAll(show, rest[n..], want, passes - 1);
    }
  }

  lemma {:induction false} NoneFill(show: Event -> Answer, batch: seq<Event>, want: nat)
    requires want > 0 && NoneAllowed(show, batch)
    ensures FillPoint(show, batch, want) == |batch|
    decreases |batch|
  {
    if batch != [] { NoneFill(show, batch[1..], want); }
  }

  lemma {:induction false} NoneVisible(show: Event -> Answer, events: seq<Event>)
    requires NoneAllowed(show, events)
    ensures Visible(show, events) == []
    decreases |events|
  {
    if events != [] { NoneVisible(show, events[..|events| - 1]); }
  }

  lemma ReachFive(want: nat)
    ensures Reach(want, MAX_ITERATIONS) == 20 * want
  {
    assert Reach(want, 0) == 0;
    assert Reach(want, 1) == 4 * want;
    assert Reach(want, 2) == 8 * want;
    assert Reach(want, 3) == 12 * want;
    assert Reach(want, 4) == 16 * want;
  }

  // One page reads at most twenty times its size, and that much when nothing is visible.
  lemma ScanBound(show: Event -> Answer, rest: seq<Event>, limit: nat)
    ensures PageRows(show, rest, limit, MAX_ITERATIONS) <= 20 * limit
    ensures |rest| >= 20 * limit && (forall i :: 0 <= i < |rest| ==> show(rest[i]) != Allowed) ==>
      PageRows(show, rest, limit, MAX_ITERATIONS) == 20 * limit
  {
    hide PageRows, Reach;
    ReachFive(limit);
    ScanAtMost(show, rest, limit, MAX_ITERATIONS);
    if |rest| >= 20 * limit && NoneAllowed(show, rest) { ScanAll(show, rest, limit, MAX_ITERATIONS); }
  }

  function ShownTo(db: Db, dir: Directory, caller: Membership, now: nat): Event -> Answer {
    (e: Event) => Shown(db, dir, caller, now, e)
  }

  // GET /shared/activity: of the events its page walks, exactly those about rows the caller
  // could list for reading now; the cursor continues after them, and is null exactly when a
  // short batch ended the page.
  method SharedActivity(db: Db, dir: Directory, caller: Membership, now: nat, events: seq<Event>,
                        cursor: Option<Position>, limit: nat) returns (feed: Feed)
    requires Descending(events) && 0 < limit <= 100
    ensures feed.Forbidden? <==> CurrentRole(dir, caller).None?
    ensures var rest, show := Rest(events, cursor), ShownTo(db, dir, caller, now);
      var n := PageRows(show, rest, limit, MAX_ITERATIONS);
      && (feed.Failed? <==> CurrentRole(dir, caller).Some? && !NoneRaised(show, rest[..n]))
      && (feed.Page? ==>
            && feed.items == Visible(show, rest[..n]) && |feed.items| <= limit
            && (forall e :: e in feed.items <==> e in rest[..n] && Listed(db, dir, caller, now, e))
            && (feed.next.None? <==> EndsShort(show, rest, limit, MAX_ITERATIONS))
            && (feed.next.Some? ==> n > 0 && feed.next == Some(rest[n - 1].pos)))
  {
    hide Shown, Rest, Visible, Listed, Descending, PageRows, EndsShort;
    if CurrentRole(dir, caller).None? { return Forbidden; }
    var show := ShownTo(db, dir, caller, now);
    var ok, items, next := ListSharedActivity(events, show, cursor, limit);
    if !ok { return Failed; }
    ghost var walked := Rest(events, cursor)[..PageRows(show, Rest(events, cursor), limit, MAX_ITERATIONS)];
    forall e ensures e in items <==> e in walked && Listed(db, dir, caller, now, e) {
      VisibleAreShown(show, walked, e);
      ShownIsListed(db, dir, caller, now, e);
      assert e in walked ==> show(e) != Raised;
    }
    feed := Page(items, next);
  }
}
