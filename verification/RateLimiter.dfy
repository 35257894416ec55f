// The mutation rate limiter: fixed windows per key, in a table bounded by least recent use.
module RateLimiter {
  import opened Records

  datatype Bucket = Bucket(start: real, count: nat)

  // `window` seconds, requests per window, buckets kept.
  datatype Limits = Limits(window: real, requests: nat, buckets: nat)

  // An ordered dictionary: keys from least to most recently used.
  datatype Table = Table(order: seq<string>, buckets: map<string, Bucket>)

  const EMPTY := Table([], map[])

  datatype Request = Request(key: string, now: real)

  function Without(q: seq<string>, key: string): (r: seq<string>)
    ensures key !in r
    ensures forall k :: k in r <==> k in q && k != key
    ensures |r| <= |q|
  {
    if q == [] then [] else (if q[0] == key then [] else [q[0]]) + Without(q[1..], key)
  }

  predicate Expired(l: Limits, b: Option<Bucket>, now: real) {
    b.None? || now - b.value.start >= l.window
  }

  // One more request in the bucket's window, or the first of a new window.
  function Tick(l: Limits, b: Option<Bucket>, now: real): Bucket {
    if Expired(l, b, now) then Bucket(now, 1) else Bucket(b.value.start, b.value.count + 1)
  }

  // None: allowed; otherwise the seconds to wait.
  function AnswerOf(l: Limits, b: Bucket, now: real): Option<real> {
    if b.count <= l.requests then None
    else Some(if l.window - (now - b.start) >= 0.0 then l.window - (now - b.start) else 0.0)
  }

  function Lookup(t: Table, key: string): Option<Bucket> {
    if key in t.buckets then Some(t.buckets[key]) else None
  }

  function After(l: Limits, t: Table, r: Request): Table {
    var b := Lookup(t, r.key);
    var order := Without(t.order, r.key) + [r.key];
    var buckets := t.buckets[r.key := Tick(l, b, r.now)];
    if Expired(l, b, r.now) && |order| > l.buckets then Table(order[1..], buckets - {order[0]})
    else Table(order, buckets)
  }

  lemma SetTwice(m: map<string, Bucket>, key: string, a: Bucket, b: Bucket, gone: string)
    ensures var x := m[key := a] - {gone};
      m[key := b] - {gone} == if key in x then x[key := b] else x
    ensures m[key := a][key := b] == m[key := b]
  {
  }

  class Limiter {
    const limits: Limits
    var order: seq<string>
    var buckets: map<string, Bucket>

    constructor (limits: Limits)
      ensures this.limits == limits && State() == EMPTY
    {
      this.limits := limits;
      order, buckets := [], map[];
    }

    function State(): Table
      reads this
    {
      Table(order, buckets)
    }

    // `OrderedDict.move_to_end`
    method MoveToEnd(key: string)
      modifies this`order
      ensures order == Without(old(order), key) + [key]
    {
      order := Without(order, key) + [key];
    }

    // Records one request; None allows it, otherwise the seconds to wait.
    method Check(key: string, now: real) returns (retryAfter: Option<real>)
      modifies this
      ensures State() == After(limits, old(State()), Request(key, now))
      ensures retryAfter == AnswerOf(limits, Tick(limits, Lookup(old(State()), key), now), now)
    {
      var found := if key in buckets then Some(buckets[key]) else None;
      var bucket;
      ghost var before := buckets;
      ghost var counted := Tick(limits, found, now);
      if found.None? || now - found.value.start >= limits.window {
        bucket := Bucket(now, 0);
        buckets := buckets[key := bucket];
        MoveToEnd(key);
        SetTwice(before, key, bucket, counted, order[0]);
        if |order| > limits.buckets {
          buckets := buckets - {order[0]};
          order := order[1..];
        }
      } else {
        bucket := found.value;
        MoveToEnd(key);
      }
      bucket := bucket.(count := bucket.count + 1);
      if key in buckets { buckets := buckets[key := bucket]; }
      retryAfter := if bucket.count > limits.requests
        then Some(if limits.window - (now - bucket.start) >= 0.0 then limits.window - (now - bucket.start) else 0.0)
        else None;
    }
  }

  // -------------------------------------------------------------- against a history

  function Run(l: Limits, h: seq<Request>): Table {
    if h == [] then EMPTY else After(l, Run(l, h[..|h| - 1]), h[|h| - 1])
  }

  // The bucket of a limiter that never forgets.
  function Ideal(l: Limits, h: seq<Request>, key: string): Option<Bucket> {
    if h == [] then None
    else
      var n := |h| - 1;
      if h[n].key == key then Some(Tick(l, Ideal(l, h[..n], key), h[n].now)) else Ideal(l, h[..n], key)
  }

  // Whether `key` was checked, and the other keys checked since it last was.
  function Since(h: seq<Request>, key: string): Option<set<string>> {
    if h == [] then None
    else
      var n := |h| - 1;
      if h[n].key == key then Some({})
      else
        var s := Since(h[..n], key);
        if s.None? then None else Some(s.value + {h[n].key})
  }

  // Between two checks of `key`, fewer than `l.buckets` other keys.
  predicate Kept(l: Limits, h: seq<Request>, key: string) {
    h != [] ==>
      var n := |h| - 1;
      && Kept(l, h[..n], key)
      && (h[n].key == key && Since(h[..n], key).Some? ==> |Since(h[..n], key).value| < l.buckets)
  }

  // From least to most recently checked.
  ghost predicate Recency(h: seq<Request>, q: seq<string>) {
    q != [] ==>
      && Recency(h, q[1..])
      && q[0] !in q[1..] && Since(h, q[0]).Some?
      && (forall k :: k in q[1..] ==> k in Since(h, q[0]).value)
  }

  // What the table holds after a history.
  ghost predicate Tracks(l: Limits, h: seq<Request>, t: Table) {
    && |t.order| <= l.buckets && Recency(h, t.order)
    && (forall k :: k in t.order <==> k in t.buckets)
    && (forall k :: k in t.buckets ==> Since(h, k).Some? && (Kept(l, h, k) ==> Ideal(l, h, k) == Some(t.buckets[k])))
    && (forall k :: Since(h, k).Some? && |Since(h, k).value| < l.buckets ==> k in t.buckets)
  }

  lemma {:induction false} WithoutIs(q: seq<string>, key: string, h: seq<Request>)
    requires Recency(h, q)
    ensures Recency(h, Without(q, key))
    ensures |Without(q, key)| == if key in q then |q| - 1 else |q|
  {
    if q != [] {
      WithoutIs(q[1..], key, h);
      assert q == [q[0]] + q[1..];
      var rest := Without(q[1..], key);
      if q[0] != key {
        assert ([q[0]] + rest)[1..] == rest;
      } else {
        assert Without(q, key) == rest;
      }
    }
  }

  lemma Grows(l: Limits, h: seq<Request>, r: Request, key: string)
    ensures var s := Since(h, key);
      Since(h + [r], key)
      == if r.key == key then Some({}) else if s.None? then None else Some(s.value + {r.key})
    ensures Ideal(l, h + [r], key) == if r.key == key then Some(Tick(l, Ideal(l, h, key), r.now)) else Ideal(l, h, key)
    ensures Kept(l, h + [r], key)
      <==> Kept(l, h, key) && (r.key == key && Since(h, key).Some? ==> |Since(h, key).value| < l.buckets)
  {
    assert (h + [r])[..|h + [r]| - 1] == h;
  }

  lemma {:induction false} UnseenIdeal(l: Limits, h: seq<Request>, key: string)
    ensures Since(h, key).None? <==> Ideal(l, h, key).None?
    decreases |h|
  {
    if h != [] { UnseenIdeal(l, h[..|h| - 1], key); }
  }

  lemma {:induction false} RecencyGrows(l: Limits, h: seq<Request>, r: Request, q: seq<string>)
    requires Recency(h, q) && r.key !in q
    ensures Recency(h + [r], q + [r.key])
    decreases |q|
  {
    if q == [] {
      Grows(l, h, r, r.key);
      assert ([r.key])[1..] == [];
    } else {
      RecencyGrows(l, h, r, q[1..]);
      Grows(l, h, r, q[0]);
      assert (q + [r.key])[1..] == q[1..] + [r.key];
    }
  }

  lemma {:induction false} SetOf(q: seq<string>, h: seq<Request>) returns (s: set<string>)
    requires Recency(h, q)
    ensures |s| == |q| && forall k :: k in s <==> k in q
    decreases |q|
  {
    if q == [] {
      s := {};
    } else {
      s := SetOf(q[1..], h);
      s := s + {q[0]};
      assert q == [q[0]] + q[1..];
    }
  }

  // The entries behind the front one were all checked since it was.
  lemma BehindFront(h: seq<Request>, q: seq<string>)
    requires q != [] && Recency(h, q)
    ensures |Since(h, q[0]).value| >= |q| - 1
  {
    var s := SetOf(q[1..], h);
    Subset(s, Since(h, q[0]).value);
  }

  lemma Subset<T>(a: set<T>, b: set<T>)
    requires a <= b
    ensures |a| <= |b|
  {
    assert b == a + (b - a);
  }

  lemma BucketAfter(l: Limits, h: seq<Request>, t: Table, r: Request, k: string)
    requires Tracks(l, h, t)
    requires k in t.buckets || k == r.key
    ensures Since(h + [r], k).Some?
    ensures Kept(l, h + [r], k) ==>
      Ideal(l, h + [r], k) == Some(t.buckets[r.key := Tick(l, Lookup(t, r.key), r.now)][k])
  {
    Grows(l, h, r, k);
    UnseenIdeal(l, h, r.key);
  }

  lemma OrderAfter(l: Limits, h: seq<Request>, t: Table, r: Request)
    requires Tracks(l, h, t)
    ensures var order := Without(t.order, r.key) + [r.key];
      && Recency(h + [r], order)
      && |order| == |t.order| + (if r.key in t.buckets then 0 else 1)
      && forall k :: k in order <==> k in t.buckets || k == r.key
  {
    WithoutIs(t.order, r.key, h);
    RecencyGrows(l, h, r, Without(t.order, r.key));
  }

  lemma KeysAfter(l: Limits, h: seq<Request>, t: Table, r: Request, k: string)
    requires Tracks(l, h, t)
    ensures var t' := After(l, t, r);
      && (k in t'.buckets ==> Since(h + [r], k).Some?)
      && (k in t'.buckets && Kept(l, h + [r], k) ==> Ideal(l, h + [r], k) == Some(t'.buckets[k]))
      && (Since(h + [r], k).Some? && |Since(h + [r], k).value| < l.buckets ==> k in t'.buckets)
  {
    hide Recency, Ideal, Kept, Since;
    var order := Without(t.order, r.key) + [r.key];
    OrderAfter(l, h, t, r);
    RecencyTail(h + [r], order);
    BehindFront(h + [r], order);
    if k in t.buckets || k == r.key { BucketAfter(l, h, t, r, k); }
    Grows(l, h, r, k);
    if Since(h, k).Some? { Subset(Since(h, k).value, Since(h, k).value + {r.key}); }
  }

  lemma TracksStep(l: Limits, h: seq<Request>, t: Table, r: Request)
    requires Tracks(l, h, t)
    ensures Tracks(l, h + [r], After(l, t, r))
  {
    hide Recency, Ideal, Kept, Since;
    ghost var order := Without(t.order, r.key) + [r.key];
    OrderAfter(l, h, t, r);
    RecencyTail(h + [r], order);
    forall k
      ensures k in After(l, t, r).buckets ==> Since(h + [r], k).Some?
      ensures k in After(l, t, r).buckets && Kept(l, h + [r], k) ==>
        Ideal(l, h + [r], k) == Some(After(l, t, r).buckets[k])
      ensures Since(h + [r], k).Some? && |Since(h + [r], k).value| < l.buckets ==> k in After(l, t, r).buckets
    {
      KeysAfter(l, h, t, r, k);
    }
  }

  lemma RecencyTail(h: seq<Request>, q: seq<string>)
    requires q != [] && Recency(h, q)
    ensures Recency(h, q[1..]) && Since(h, q[0]).Some?
    ensures forall k :: k in q[1..] <==> k in q && k != q[0]
  {
    assert q == [q[0]] + q[1..];
  }

  // The table never holds more than its share of buckets, is ordered by recency, and holds
  // what an unbounded limiter would for every key never crowded out.
  lemma {:induction false} RunTracks(l: Limits, h: seq<Request>)
    ensures Tracks(l, h, Run(l, h))
    decreases |h|
  {
    if h != [] {
      var n := |h| - 1;
      RunTracks(l, h[..n]);
      TracksStep(l, h[..n], Run(l, h[..n]), h[n]);
      assert h[..n] + [h[n]] == h;
    }
  }

  // A key that never sees `l.buckets` other keys between two of its checks is answered as
  // by an unbounded fixed-window counter.
  lemma AnswersAsUnbounded(l: Limits, h: seq<Request>, r: Request)
    requires Kept(l, h + [r], r.key)
    ensures AnswerOf(l, Tick(l, Lookup(Run(l, h), r.key), r.now), r.now)
      == AnswerOf(l, Ideal(l, h + [r], r.key).value, r.now)
  {
    RunTracks(l, h);
    Grows(l, h, r, r.key);
    UnseenIdeal(l, h, r.key);
  }

  // ------------------------------------------------------------- what a client can get

  // `time.monotonic()`.
  ghost predicate Clock(h: seq<Request>) {
    forall i, j :: 0 <= i < j < |h| ==> h[i].now <= h[j].now
  }

  // The last request of the history was let through.
  predicate Passes(l: Limits, h: seq<Request>)
    requires h != []
  {
    var n := |h| - 1;
    AnswerOf(l, Tick(l, Lookup(Run(l, h[..n]), h[n].key), h[n].now), h[n].now).None?
  }

  // Requests of `key` let through in the window-long interval from `from`.
  function AllowedIn(l: Limits, h: seq<Request>, key: string, from: real): nat {
    if h == [] then 0
    else
      var n := |h| - 1;
      AllowedIn(l, h[..n], key, from)
      + (if h[n].key == key && from <= h[n].now < from + l.window && Passes(l, h) then 1 else 0)
  }

  function Min(a: nat, b: nat): nat { if a <= b then a else b }

  // The interval against the current window of the key.
  ghost predicate Bounded(l: Limits, b: Option<Bucket>, from: real, allowed: nat) {
    if b.None? then allowed == 0
    else
      && (allowed > 0 ==> from < b.value.start + l.window)
      && (b.value.start <= from ==> allowed <= Min(b.value.count, l.requests))
      && (from < b.value.start < from + l.window ==> allowed <= l.requests + Min(b.value.count, l.requests))
      && allowed <= 2 * l.requests
  }

  lemma BoundedStep(l: Limits, b: Option<Bucket>, from: real, allowed: nat, now: real)
    requires l.window > 0.0 && Bounded(l, b, from, allowed)
    requires b.Some? ==> b.value.start <= now
    ensures var b' := Tick(l, b, now);
      var more := if from <= now < from + l.window && AnswerOf(l, b', now).None? then 1 else 0;
      Bounded(l, Some(b'), from, allowed + more) && b'.start <= now
  {
  }

  lemma {:induction false} BoundedRun(l: Limits, h: seq<Request>, key: string, from: real)
    requires l.window > 0.0 && Clock(h) && Kept(l, h, key)
    ensures Bounded(l, Ideal(l, h, key), from, AllowedIn(l, h, key, from))
    ensures Ideal(l, h, key).Some? ==> h != [] && Ideal(l, h, key).value.start <= h[|h| - 1].now
    decreases |h|
  {
    if h != [] {
      var n := |h| - 1;
      BoundedRun(l, h[..n], key, from);
      if h[n].key == key {
        assert h[..n] + [h[n]] == h;
        AnswersAsUnbounded(l, h[..n], h[n]);
        BoundedStep(l, Ideal(l, h[..n], key), from, AllowedIn(l, h[..n], key, from), h[n].now);
      }
    }
  }

  // No key gets more than twice its limit through in any interval of one window's length.
  lemma TwiceTheLimit(l: Limits, h: seq<Request>, key: string, from: real)
    requires l.window > 0.0 && Clock(h) && Kept(l, h, key)
    ensures AllowedIn(l, h, key, from) <= 2 * l.requests
  {
    BoundedRun(l, h, key, from);
  }

  // A refused client is told exactly how long: the next check of its bucket is let through
  // if and only if it comes that much later (and anything is ever let through).
  lemma RetryAfterIsExact(l: Limits, found: Option<Bucket>, now: real, later: real)
    requires l.window > 0.0 && now <= later && (found.Some? ==> found.value.start <= now)
    requires AnswerOf(l, Tick(l, found, now), now).Some?
    ensures var b := Tick(l, found, now);
      AnswerOf(l, Tick(l, Some(b), later), later).None?
      <==> (later >= now + AnswerOf(l, b, now).value && l.requests > 0)
  {
  }

  // ------------------------------------------------------------------- the middleware

  datatype Hit = Hit(host: string, session: Option<string>, now: real)

  function HostKey(host: string): string { "ip:" + host }

  // The session cookie is not validated yet; an empty one counts as none.
  function SessionKey(hit: Hit, digest: string -> string): string {
    if hit.session.Some? && hit.session.value != "" then "ip:" + hit.host + ":session:" + digest(hit.session.value)
    else "ip:" + hit.host
  }

  function HostRequests(hits: seq<Hit>): (h: seq<Request>)
    ensures |h| == |hits|
  {
    seq(|hits|, i requires 0 <= i < |hits| => Request(HostKey(hits[i].host), hits[i].now))
  }

  function SessionRequests(hits: seq<Hit>, digest: string -> string): (h: seq<Request>)
    ensures |h| == |hits|
  {
    seq(|hits|, i requires 0 <= i < |hits| => Request(SessionKey(hits[i], digest), hits[i].now))
  }

  function Larger(a: Option<real>, b: Option<real>): Option<real> {
    if a.None? then b else if b.None? then a else if a.value >= b.value then a else b
  }

  function Ceil(r: real): int { -((-r).Floor) }

  // ------------------------------------------- a fixed window over some of the hits

  // Whose hit it is: the address and the cookie, an empty cookie like a missing one.
  datatype Client = Client(host: string, cookie: string)

  function ClientOf(hit: Hit): Client {
    Client(hit.host, if hit.session.Some? then hit.session.value else "")
  }

  function HostOf(hit: Hit): string { hit.host }

  // The hits of one client.
  ghost function Of<T(!new)>(who: Hit -> T, me: T): Hit -> bool { x => who(x) == me }

  // Two hits count together when they come from one address with one cookie, or with none.
  lemma ClientMeaning(a: Hit, b: Hit)
    ensures ClientOf(a) == ClientOf(b)
      <==> && a.host == b.host
           && (a.session == b.session || (a.session in {None, Some("")} && b.session in {None, Some("")}))
  {
  }

  // The hit that opened the window `mine` is in: the first, and then each that comes a whole
  // window after the one that opened the last.
  ghost function Opener(window: real, hits: seq<Hit>, mine: Hit -> bool): (o: Option<nat>)
    ensures o.Some? ==> o.value < |hits| && mine(hits[o.value])
    ensures o.None? <==> forall i :: 0 <= i < |hits| ==> !mine(hits[i])
  {
    if hits == [] then None
    else
      var n := |hits| - 1;
      var o := Opener(window, hits[..n], mine);
      if mine(hits[n]) && (o.None? || hits[n].now >= hits[o.value].now + window) then Some(n) else o
  }

  // How many of the hits from position `first` on are `mine`.
  ghost function CountFrom(hits: seq<Hit>, mine: Hit -> bool, first: nat): (c: nat)
    ensures first >= |hits| ==> c == 0
  {
    if |hits| <= first then 0
    else CountFrom(hits[..|hits| - 1], mine, first) + (if mine(hits[|hits| - 1]) then 1 else 0)
  }

  // The last hit is within the limit of the window it is in.
  ghost predicate WithinLimit(l: Limits, hits: seq<Hit>, mine: Hit -> bool) {
    var o := Opener(l.window, hits, mine);
    o.Some? ==> CountFrom(hits, mine, o.value) <= l.requests
  }

  // What is left of that window.
  ghost function Remaining(l: Limits, hits: seq<Hit>, mine: Hit -> bool): real {
    var o := Opener(l.window, hits, mine);
    if o.None? then 0.0 else hits[o.value].now + l.window - hits[|hits| - 1].now
  }

  // Between two hits of a client, fewer than `buckets` other clients.
  ghost predicate Uncrowded<T(!new)>(buckets: nat, hits: seq<Hit>, who: Hit -> T, me: T) {
    forall i, j :: 0 <= i < j < |hits| && who(hits[i]) == me && who(hits[j]) == me
      && (forall k :: i < k < j ==> who(hits[k]) != me)
      ==> |Others(hits, who, i, j)| < buckets
  }

  ghost function Others<T(!new)>(hits: seq<Hit>, who: Hit -> T, i: int, j: int): set<T>
    requires 0 <= i <= j <= |hits|
  {
    set k | i < k < j :: who(hits[k])
  }

  // The requests a limiter sees: each hit under the key of its client.
  ghost predicate Keyed<T(!new)>(hits: seq<Hit>, h: seq<Request>, who: Hit -> T, key: T -> string) {
    |h| == |hits| && forall i :: 0 <= i < |hits| ==> h[i] == Request(key(who(hits[i])), hits[i].now)
  }

  // No other client shares the key.
  ghost predicate Separate<T(!new)>(hits: seq<Hit>, who: Hit -> T, key: T -> string, me: T) {
    forall i :: 0 <= i < |hits| && key(who(hits[i])) == key(me) ==> who(hits[i]) == me
  }

  lemma {:induction false} WindowIs<T(!new)>(l: Limits, hits: seq<Hit>, h: seq<Request>, who: Hit -> T, key: T -> string, me: T)
    requires Keyed(hits, h, who, key) && Separate(hits, who, key, me)
    ensures var mine := Of(who, me);
      var o := Opener(l.window, hits, mine);
      Ideal(l, h, key(me))
      == if o.None? then None else Some(Bucket(hits[o.value].now, CountFrom(hits, mine, o.value)))
    decreases |hits|
  {
    if hits != [] {
      var n := |hits| - 1;
      WindowIs(l, hits[..n], h[..n], who, key, me);
    }
  }

  // The last check of the client's key, and the keys checked since.
  lemma {:induction false} SinceIs<T(!new)>(hits: seq<Hit>, h: seq<Request>, who: Hit -> T, key: T -> string, me: T)
    returns (i: int)
    requires Keyed(hits, h, who, key) && Separate(hits, who, key, me)
    ensures -1 <= i < |hits|
    ensures forall k :: i < k < |hits| ==> who(hits[k]) != me
    ensures i < 0 <==> Since(h, key(me)).None?
    ensures i >= 0 ==> who(hits[i]) == me
    ensures i >= 0 ==> Since(h, key(me)).value == set c | c in Others(hits, who, i, |hits|) :: key(c)
    decreases |hits|
  {
    if hits == [] {
      i := -1;
    } else {
      var n := |hits| - 1;
      if who(hits[n]) == me {
        i := n;
      } else {
        i := SinceIs(hits[..n], h[..n], who, key, me);
        if i >= 0 {
          assert Others(hits, who, i, |hits|) == Others(hits[..n], who, i, n) + {who(hits[n])};
        }
      }
    }
  }

  lemma OthersBefore<T(!new)>(hits: seq<Hit>, who: Hit -> T, i: int, j: int, n: nat)
    requires 0 <= i <= j <= n <= |hits|
    ensures Others(hits[..n], who, i, j) == Others(hits, who, i, j)
  {
    assert forall k :: i < k < j ==> hits[..n][k] == hits[k];
  }

  lemma UncrowdedBefore<T(!new)>(buckets: nat, hits: seq<Hit>, who: Hit -> T, me: T, n: nat)
    requires Uncrowded(buckets, hits, who, me) && n <= |hits|
    ensures Uncrowded(buckets, hits[..n], who, me)
  {
    hide Others;
    forall i, j | 0 <= i < j < n && who(hits[..n][i]) == me && who(hits[..n][j]) == me
      && (forall k :: i < k < j ==> who(hits[..n][k]) != me)
      ensures |Others(hits[..n], who, i, j)| < buckets
    {
      OthersBefore(hits, who, i, j, n);
      assert forall k :: i < k < j ==> hits[..n][k] == hits[k];
    }
  }

  // A client that is never crowded out keeps its bucket.
  lemma {:induction false} KeptIfUncrowded<T(!new)>(l: Limits, hits: seq<Hit>, h: seq<Request>, who: Hit -> T,
                                                    key: T -> string, me: T)
    requires Keyed(hits, h, who, key) && Separate(hits, who, key, me) && Uncrowded(l.buckets, hits, who, me)
    ensures Kept(l, h, key(me))
    decreases |hits|
  {
    hide Others, Since;
    if hits != [] {
      var n := |hits| - 1;
      UncrowdedBefore(l.buckets, hits, who, me, n);
      KeptIfUncrowded(l, hits[..n], h[..n], who, key, me);
      if who(hits[n]) == me {
        var i := SinceIs(hits[..n], h[..n], who, key, me);
        if i >= 0 {
          OthersBefore(hits, who, i, n, n);
          ImageNoLarger(Others(hits, who, i, n), key);
          assert forall k :: i < k < n ==> hits[..n][k] == hits[k];
        }
      }
    }
  }

  lemma {:induction false} ImageNoLarger<T(!new)>(s: set<T>, f: T -> string)
    ensures |set x | x in s :: f(x)| <= |s|
    decreases |s|
  {
    var image := set x | x in s :: f(x);
    if s == {} {
      assert image == {};
    } else {
      var x :| x in s;
      var rest := set y | y in s - {x} :: f(y);
      ImageNoLarger(s - {x}, f);
      assert image == rest + {f(x)};
    }
  }

  // A limiter answers the last hit as a fixed window over the client's own hits.
  lemma CheckOnHits<T(!new)>(l: Limits, hits: seq<Hit>, h: seq<Request>, who: Hit -> T, key: T -> string)
    requires hits != [] && Keyed(hits, h, who, key)
    requires var me := who(hits[|hits| - 1]);
      Separate(hits, who, key, me) && Uncrowded(l.buckets, hits, who, me)
    ensures var last := hits[|hits| - 1];
      var mine := Of(who, who(last));
      var answer := AnswerOf(l, Tick(l, Lookup(Run(l, h[..|h| - 1]), h[|h| - 1].key), last.now), last.now);
      && (answer.None? <==> WithinLimit(l, hits, mine))
      && (answer.Some? ==> answer.value == Max(Remaining(l, hits, mine), 0.0))
  {
    var n := |hits| - 1;
    var me := who(hits[n]);
    KeptIfUncrowded(l, hits, h, who, key, me);
    WindowIs(l, hits, h, who, key, me);
    assert h[..n] + [h[n]] == h;
    AnswersAsUnbounded(l, h[..n], h[n]);
  }

  function Max(a: real, b: real): real { if a >= b then a else b }

  // What the digest must do for these hits: as many characters for every cookie, and
  // different ones for different cookies.
  ghost predicate Digests(digest: string -> string, hits: seq<Hit>) {
    forall a, b :: a in hits && b in hits && ClientOf(a).cookie != "" && ClientOf(b).cookie != "" ==>
      && |digest(ClientOf(a).cookie)| == |digest(ClientOf(b).cookie)|
      && (digest(ClientOf(a).cookie) == digest(ClientOf(b).cookie) ==> ClientOf(a).cookie == ClientOf(b).cookie)
  }

  // A hit without a cookie from an address spelled like another hit's address and session.
  ghost predicate Alias(digest: string -> string, a: Hit, b: Hit) {
    && ClientOf(a).cookie == "" && ClientOf(b).cookie != ""
    && a.host == b.host + ":session:" + digest(ClientOf(b).cookie)
  }

  ghost predicate PlainHosts(digest: string -> string, hits: seq<Hit>) {
    forall a, b :: a in hits && b in hits ==> !Alias(digest, a, b)
  }

  lemma KeysEqual(h1: string, d1: string, h2: string, d2: string)
    requires |d1| == |d2| && "ip:" + h1 + ":session:" + d1 == "ip:" + h2 + ":session:" + d2
    ensures h1 == h2 && d1 == d2
  {
    var a, b := "ip:" + h1 + ":session:" + d1, "ip:" + h2 + ":session:" + d2;
    assert a[|a| - |d1|..] == d1 && b[|b| - |d2|..] == d2;
    assert a[3..3 + |h1|] == h1 && b[3..3 + |h2|] == h2;
  }

  function ClientKey(digest: string -> string): Client -> string {
    (c: Client) => SessionKey(Hit(c.host, Some(c.cookie), 0.0), digest)
  }

  // Two hits share a session bucket exactly when they are of one client, or one is an alias.
  lemma SharedBucketIff(digest: string -> string, a: Hit, b: Hit)
    requires Digests(digest, [a, b])
    ensures SessionKey(a, digest) == SessionKey(b, digest)
      <==> ClientOf(a) == ClientOf(b) || Alias(digest, a, b) || Alias(digest, b, a)
  {
    assert a in [a, b] && b in [a, b];
    var x, y := ClientOf(a), ClientOf(b);
    KeyIs(a.host, digest(x.cookie));
    KeyIs(b.host, digest(y.cookie));
    AfterPrefix(a.host, b.host);
    AfterPrefix(a.host, b.host + ":session:" + digest(y.cookie));
    AfterPrefix(a.host + ":session:" + digest(x.cookie), b.host);
    if x.cookie != "" && y.cookie != "" && SessionKey(a, digest) == SessionKey(b, digest) {
      KeysEqual(a.host, digest(x.cookie), b.host, digest(y.cookie));
    }
  }

  lemma SessionsSeparate(digest: string -> string, hits: seq<Hit>, me: Hit)
    requires Digests(digest, hits) && PlainHosts(digest, hits) && me in hits
    ensures Separate(hits, ClientOf, ClientKey(digest), ClientOf(me))
    ensures Keyed(hits, SessionRequests(hits, digest), ClientOf, ClientKey(digest))
  {
    hide Alias;
    forall i | 0 <= i < |hits| && SessionKey(hits[i], digest) == SessionKey(me, digest)
      ensures ClientOf(hits[i]) == ClientOf(me)
    {
      assert hits[i] in hits;
      SharedBucketIff(digest, hits[i], me);
    }
  }

  lemma AfterPrefix(a: string, b: string)
    ensures "ip:" + a == "ip:" + b ==> a == b
  {
    assert ("ip:" + a)[3..] == a && ("ip:" + b)[3..] == b;
  }

  lemma KeyIs(host: string, d: string)
    ensures "ip:" + host + ":session:" + d == "ip:" + (host + ":session:" + d)
  {
  }

  lemma HostsSeparate(hits: seq<Hit>, me: Hit)
    ensures Separate(hits, HostOf, HostKey, me.host)
    ensures Keyed(hits, HostRequests(hits), HostOf, HostKey)
  {
    forall i | 0 <= i < |hits| && HostKey(hits[i].host) == HostKey(me.host) ensures hits[i].host == me.host {
      assert HostKey(hits[i].host)[3..] == hits[i].host && HostKey(me.host)[3..] == me.host;
    }
  }

  // Nothing but the client's own hits, and those of its address, decides: its bucket is its
  // own and neither bucket was crowded out.
  ghost predicate OwnBuckets(ip: Limits, session: Limits, digest: string -> string, hits: seq<Hit>)
    requires hits != []
  {
    var last := hits[|hits| - 1];
    && Digests(digest, hits) && PlainHosts(digest, hits)
    && Uncrowded(ip.buckets, hits, HostOf, last.host)
    && Uncrowded(session.buckets, hits, ClientOf, ClientOf(last))
  }

  // The wait of a refused hit: the larger of the two, rounded up to whole seconds, at least 1.
  ghost predicate WaitIs(ip: Limits, session: Limits, hits: seq<Hit>, seconds: int)
    requires hits != []
  {
    var last := hits[|hits| - 1];
    var address, own := Of(HostOf, last.host), Of(ClientOf, ClientOf(last));
    var a := if WithinLimit(ip, hits, address) then 0.0 else Remaining(ip, hits, address);
    var b := if WithinLimit(session, hits, own) then 0.0 else Remaining(session, hits, own);
    && seconds >= 1
    && seconds as real >= a && seconds as real >= b
    && (seconds > 1 ==> (seconds - 1) as real < Max(a, b))
  }

  // The hit goes on exactly when it is within the limit of its address's window and of its own.
  ghost predicate AnsweredAs(ip: Limits, session: Limits, hits: seq<Hit>, retryAfter: Option<int>)
    requires hits != []
  {
    var last := hits[|hits| - 1];
    var address, own := Of(HostOf, last.host), Of(ClientOf, ClientOf(last));
    && (retryAfter.None? <==> WithinLimit(ip, hits, address) && WithinLimit(session, hits, own))
    && (retryAfter.Some? ==> WaitIs(ip, session, hits, retryAfter.value))
  }

  function Wait(a: Option<real>, b: Option<real>): Option<int> {
    var retry := Larger(a, b);
    if retry.None? then None else Some(if Ceil(retry.value) > 1 then Ceil(retry.value) else 1)
  }

  lemma WaitOfRefused(a: Option<real>, b: Option<real>, within1: bool, within2: bool, left1: real, left2: real)
    requires a.None? <==> within1
    requires b.None? <==> within2
    requires a.Some? ==> a.value == Max(left1, 0.0)
    requires b.Some? ==> b.value == Max(left2, 0.0)
    ensures Wait(a, b).None? <==> within1 && within2
    ensures Wait(a, b).Some? ==>
      var seconds := Wait(a, b).value;
      var x, y := if within1 then 0.0 else left1, if within2 then 0.0 else left2;
      seconds >= 1 && seconds as real >= x && seconds as real >= y && (seconds > 1 ==> (seconds - 1) as real < Max(x, y))
  {
  }

  lemma HostAnswer(ip: Limits, hits: seq<Hit>, hit: Hit)
    requires Uncrowded(ip.buckets, hits + [hit], HostOf, hit.host)
    ensures var a := AnswerOf(ip, Tick(ip, Lookup(Run(ip, HostRequests(hits)), HostKey(hit.host)), hit.now), hit.now);
      var all, mine := hits + [hit], Of(HostOf, hit.host);
      (a.None? <==> WithinLimit(ip, all, mine)) && (a.Some? ==> a.value == Max(Remaining(ip, all, mine), 0.0))
  {
    hide Tick, AnswerOf, Uncrowded, WithinLimit, Remaining, Lookup, Run;
    ghost var all := hits + [hit];
    HostsSeparate(all, hit);
    CheckOnHits(ip, all, HostRequests(all), HostOf, HostKey);
    assert HostRequests(all)[..|hits|] == HostRequests(hits);
  }

  lemma SessionAnswer(session: Limits, digest: string -> string, hits: seq<Hit>, hit: Hit)
    requires Digests(digest, hits + [hit]) && PlainHosts(digest, hits + [hit])
    requires Uncrowded(session.buckets, hits + [hit], ClientOf, ClientOf(hit))
    ensures var key := SessionKey(hit, digest);
      var a := AnswerOf(session, Tick(session, Lookup(Run(session, SessionRequests(hits, digest)), key), hit.now), hit.now);
      var all, mine := hits + [hit], Of(ClientOf, ClientOf(hit));
      (a.None? <==> WithinLimit(session, all, mine)) && (a.Some? ==> a.value == Max(Remaining(session, all, mine), 0.0))
  {
    hide Tick, AnswerOf, Uncrowded, WithinLimit, Remaining, Lookup, Run, Digests, PlainHosts, SessionKey;
    ghost var all := hits + [hit];
    SessionsSeparate(digest, all, hit);
    CheckOnHits(session, all, SessionRequests(all, digest), ClientOf, ClientKey(digest));
    assert SessionRequests(all, digest)[..|hits|] == SessionRequests(hits, digest);
  }

  lemma AnsweredOnHits(ip: Limits, session: Limits, digest: string -> string, hits: seq<Hit>, hit: Hit)
    requires OwnBuckets(ip, session, digest, hits + [hit])
    ensures var a := AnswerOf(ip, Tick(ip, Lookup(Run(ip, HostRequests(hits)), HostKey(hit.host)), hit.now), hit.now);
      var key := SessionKey(hit, digest);
      var b := AnswerOf(session, Tick(session, Lookup(Run(session, SessionRequests(hits, digest)), key), hit.now), hit.now);
      AnsweredAs(ip, session, hits + [hit], Wait(a, b))
  {
    hide Tick, AnswerOf, Uncrowded, Digests, PlainHosts, WithinLimit, Remaining, Lookup, Run, SessionKey, Wait, Of;
    ghost var all := hits + [hit];
    HostAnswer(ip, hits, hit);
    SessionAnswer(session, digest, hits, hit);
    ghost var a := AnswerOf(ip, Tick(ip, Lookup(Run(ip, HostRequests(hits)), HostKey(hit.host)), hit.now), hit.now);
    ghost var key := SessionKey(hit, digest);
    ghost var b := AnswerOf(session, Tick(session, Lookup(Run(session, SessionRequests(hits, digest)), key), hit.now), hit.now);
    ghost var address, own := Of(HostOf, hit.host), Of(ClientOf, ClientOf(hit));
    WaitOfRefused(a, b, WithinLimit(ip, all, address), WithinLimit(session, all, own),
                  Remaining(ip, all, address), Remaining(session, all, own));
  }

  class Middleware {
    const ip: Limiter
    const session: Limiter
    const digest: string -> string

    constructor (ip: Limiter, session: Limiter, digest: string -> string)
      ensures this.ip == ip && this.session == session && this.digest == digest
    {
      this.ip, this.session, this.digest := ip, session, digest;
    }

    // The limiters have seen exactly these hits.
    ghost predicate Follows(hits: seq<Hit>)
      reads this, ip, session
    {
      && ip != session
      && ip.State() == Run(ip.limits, HostRequests(hits))
      && session.State() == Run(session.limits, SessionRequests(hits, digest))
    }

    // None: the request goes on; otherwise the `Retry-After` header of the refusal.
    method Handle(hit: Hit, ghost hits: seq<Hit>) returns (retryAfter: Option<int>)
      requires Follows(hits)
      modifies ip, session
      ensures Follows(hits + [hit])
      ensures retryAfter.None? <==> Forwarded(ip.limits, session.limits, digest, hits + [hit])
      ensures retryAfter.Some? ==> retryAfter.value >= 1
      ensures OwnBuckets(ip.limits, session.limits, digest, hits + [hit]) ==>
        AnsweredAs(ip.limits, session.limits, hits + [hit], retryAfter)
    {
      hide Run, After, OwnBuckets, AnsweredAs, HostRequests, SessionRequests, SessionKey;
      if OwnBuckets(ip.limits, session.limits, digest, hits + [hit]) {
        AnsweredOnHits(ip.limits, session.limits, digest, hits, hit);
      }
      AddHit(ip.limits, session.limits, digest, hits, hit);
      var ipRetry := ip.Check(HostKey(hit.host), hit.now);
      var keyRetry := session.Check(SessionKey(hit, digest), hit.now);
      retryAfter := Wait(ipRetry, keyRetry);
    }
  }

  // Both limiters let the last hit through.
  predicate Forwarded(ip: Limits, session: Limits, digest: string -> string, hits: seq<Hit>)
    requires hits != []
  {
    Passes(ip, HostRequests(hits)) && Passes(session, SessionRequests(hits, digest))
  }

  lemma AddHit(ip: Limits, session: Limits, digest: string -> string, hits: seq<Hit>, hit: Hit)
    ensures var all, r := HostRequests(hits + [hit]), Request(HostKey(hit.host), hit.now);
      all[..|hits|] == HostRequests(hits) && all[|hits|] == r && Run(ip, all) == After(ip, Run(ip, HostRequests(hits)), r)
    ensures var all, r := SessionRequests(hits + [hit], digest), Request(SessionKey(hit, digest), hit.now);
      all[..|hits|] == SessionRequests(hits, digest) && all[|hits|] == r
      && Run(session, all) == After(session, Run(session, SessionRequests(hits, digest)), r)
  {
    assert HostRequests(hits + [hit])[..|hits|] == HostRequests(hits);
    assert SessionRequests(hits + [hit], digest)[..|hits|] == SessionRequests(hits, digest);
  }

  function ForwardedIn(ip: Limits, session: Limits, digest: string -> string, hits: seq<Hit>, host: string, from: real): nat {
    if hits == [] then 0
    else
      var n := |hits| - 1;
      ForwardedIn(ip, session, digest, hits[..n], host, from)
      + (if hits[n].host == host && from <= hits[n].now < from + ip.window && Forwarded(ip, session, digest, hits)
         then 1 else 0)
  }

  lemma {:induction false} ForwardedAllowed(ip: Limits, session: Limits, digest: string -> string, hits: seq<Hit>, host: string, from: real)
    ensures ForwardedIn(ip, session, digest, hits, host, from) <= AllowedIn(ip, HostRequests(hits), HostKey(host), from)
    decreases |hits|
  {
    if hits != [] {
      var n := |hits| - 1;
      ForwardedAllowed(ip, session, digest, hits[..n], host, from);
      assert HostRequests(hits)[..n] == HostRequests(hits[..n]);
      assert HostKey(host)[3..] == host && HostKey(hits[n].host)[3..] == hits[n].host;
    }
  }

  // Whatever session cookies a client sends, the requests of its address that go on are at
  // most twice the address limit in any interval of one window's length.
  lemma TwicePerAddress(ip: Limits, session: Limits, digest: string -> string, hits: seq<Hit>, host: string, from: real)
    requires ip.window > 0.0 && Clock(HostRequests(hits)) && Kept(ip, HostRequests(hits), HostKey(host))
    ensures ForwardedIn(ip, session, digest, hits, host, from) <= 2 * ip.requests
  {
    ForwardedAllowed(ip, session, digest, hits, host, from);
    TwiceTheLimit(ip, HostRequests(hits), HostKey(host), from);
  }
}
