// The client address read from `X-Forwarded-For` behind a known number of proxies.
module ForwardedFor {
  import opened Records

  // What `str.strip` removes from a latin-1 header value.
  predicate IsSpace(c: char) {
    c in {' ', '\t', '\n', '\r'} || c in {0x0b as char, 0x0c as char, 0x85 as char, 0xa0 as char}
    || 0x1c as char <= c <= 0x1f as char
  }

  function StripLeft(s: string): string {
    if s != "" && IsSpace(s[0]) then StripLeft(s[1..]) else s
  }

  function StripRight(s: string): string {
    if s != "" && IsSpace(s[|s| - 1]) then StripRight(s[..|s| - 1]) else s
  }

  function Strip(s: string): string { StripRight(StripLeft(s)) }

  // The pieces of `s` between commas; `open` is the piece being read.
  function Split(s: string, open: string): (pieces: seq<string>)
    ensures |pieces| > 0
  {
    if s == "" then [open]
    else if s[0] == ',' then [open] + Split(s[1..], "")
    else Split(s[1..], open + [s[0]])
  }

  function NonBlank(pieces: seq<string>): seq<string> {
    if pieces == [] then []
    else (if Strip(pieces[0]) == "" then [] else [Strip(pieces[0])]) + NonBlank(pieces[1..])
  }

  function Hops(header: string): seq<string> { NonBlank(Split(header, "")) }

  function ClientIp(header: string, trusted: int): Option<string> {
    var hops := Hops(header);
    if trusted <= 0 || |hops| < trusted then None else Some(hops[|hops| - trusted])
  }

  lemma {:induction false} SplitAppends(a: string, b: string, open: string)
    ensures Split(a + "," + b, open) == Split(a, open) + Split(b, "")
    decreases |a|
  {
    if a == "" {
      assert a + "," + b == "," + b;
      assert ("," + b)[1..] == b;
    } else {
      assert (a + "," + b)[1..] == a[1..] + "," + b;
      if a[0] == ',' {
        SplitAppends(a[1..], b, "");
      } else {
        SplitAppends(a[1..], b, open + [a[0]]);
      }
    }
  }

  lemma {:induction false} NonBlankAppends(a: seq<string>, b: seq<string>)
    ensures NonBlank(a + b) == NonBlank(a) + NonBlank(b)
  {
    if a == [] {
      assert a + b == b;
    } else {
      assert (a + b)[1..] == a[1..] + b;
      NonBlankAppends(a[1..], b);
    }
  }

  // Whatever a client sends in front, the address resolved is the one the trusted proxies
  // appended, once they appended as many hops as are trusted.
  lemma ClientCannotChoose(sent: string, appended: string, trusted: int)
    requires trusted <= |Hops(appended)|
    ensures ClientIp(sent + "," + appended, trusted) == ClientIp(appended, trusted)
  {
    SplitAppends(sent, appended, "");
    NonBlankAppends(Split(sent, ""), Split(appended, ""));
  }

  // ------------------------------------------------------- which hop it is

  // White space by code: tab to carriage return, the four separators, space, next line and
  // the no-break space.
  lemma SpaceCodes(c: char)
    ensures IsSpace(c) <==> 9 <= c as int <= 13 || 28 <= c as int <= 32 || c as int == 133 || c as int == 160
  {
  }

  predicate AllSpace(s: string) { forall i :: 0 <= i < |s| ==> IsSpace(s[i]) }

  // Something, with no white space at either end.
  predicate Trimmed(s: string) { s != "" && !IsSpace(s[0]) && !IsSpace(s[|s| - 1]) }

  // A comma-separated header.
  function Join(pieces: seq<string>): string
    requires pieces != []
  {
    if |pieces| == 1 then pieces[0] else pieces[0] + "," + Join(pieces[1..])
  }

  lemma {:induction false} SplitOne(s: string, open: string)
    requires ',' !in s
    ensures Split(s, open) == [open + s]
    decreases |s|
  {
    if s == "" {
      assert open + s == open;
    } else {
      assert s[0] in s && open + [s[0]] + s[1..] == open + s;
      SplitOne(s[1..], open + [s[0]]);
    }
  }

  lemma {:induction false} SplitJoin(pieces: seq<string>)
    requires pieces != [] && forall i :: 0 <= i < |pieces| ==> ',' !in pieces[i]
    ensures Split(Join(pieces), "") == pieces
  {
    SplitOne(pieces[0], "");
    assert "" + pieces[0] == pieces[0];
    if |pieces| > 1 {
      SplitAppends(pieces[0], Join(pieces[1..]), "");
      SplitJoin(pieces[1..]);
    }
  }

  lemma {:induction false} StripLeftIs(space: string, rest: string)
    requires AllSpace(space) && (rest == "" || !IsSpace(rest[0]))
    ensures StripLeft(space + rest) == rest
    decreases |space|
  {
    if space == "" {
      assert space + rest == rest;
    } else {
      assert (space + rest)[1..] == space[1..] + rest;
      StripLeftIs(space[1..], rest);
    }
  }

  lemma {:induction false} StripRightIs(rest: string, space: string)
    requires AllSpace(space) && (rest == "" || !IsSpace(rest[|rest| - 1]))
    ensures StripRight(rest + space) == rest
    decreases |space|
  {
    if space == "" {
      assert rest + space == rest;
    } else {
      assert (rest + space)[..|rest + space| - 1] == rest + space[..|space| - 1];
      StripRightIs(rest, space[..|space| - 1]);
    }
  }

  // The hops are what stands between the commas, without the white space around it; a piece
  // of nothing else is no hop.
  ghost predicate HopsAre(pieces: seq<string>, hops: seq<string>) {
    if pieces == [] then hops == []
    else
      || (AllSpace(pieces[0]) && HopsAre(pieces[1..], hops))
      || (hops != [] && Surrounds(pieces[0], hops[0]) && HopsAre(pieces[1..], hops[1..]))
  }

  ghost predicate Surrounds(piece: string, hop: string) {
    Trimmed(hop) && exists before, after :: AllSpace(before) && AllSpace(after) && piece == before + hop + after
  }

  lemma StripIs(before: string, hop: string, after: string)
    requires AllSpace(before) && AllSpace(after) && Trimmed(hop)
    ensures Strip(before + hop + after) == hop
  {
    assert before + hop + after == before + (hop + after);
    StripLeftIs(before, hop + after);
    StripRightIs(hop, after);
  }

  lemma {:induction false} NonBlankIs(pieces: seq<string>, hops: seq<string>)
    requires HopsAre(pieces, hops)
    ensures NonBlank(pieces) == hops
    decreases |pieces|
  {
    if pieces != [] {
      if AllSpace(pieces[0]) && HopsAre(pieces[1..], hops) {
        assert pieces[0] + "" == pieces[0];
        StripLeftIs(pieces[0], "");
        NonBlankIs(pieces[1..], hops);
      } else {
        var before, after :| AllSpace(before) && AllSpace(after) && pieces[0] == before + hops[0] + after;
        StripIs(before, hops[0], after);
        NonBlankIs(pieces[1..], hops[1..]);
        assert hops == [hops[0]] + hops[1..];
      }
    }
  }

  // The address resolved is the hop `trusted` places from the right; none when there are
  // fewer hops, or none are trusted.
  lemma HopFromTheRight(pieces: seq<string>, hops: seq<string>, trusted: int)
    requires pieces != [] && (forall i :: 0 <= i < |pieces| ==> ',' !in pieces[i]) && HopsAre(pieces, hops)
    ensures ClientIp(Join(pieces), trusted).Some? <==> 1 <= trusted <= |hops|
    ensures 1 <= trusted <= |hops| ==> ClientIp(Join(pieces), trusted) == Some(hops[|hops| - trusted])
  {
    SplitJoin(pieces);
    NonBlankIs(pieces, hops);
  }
}
