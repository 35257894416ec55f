// The URL-safe base64 of RFC 4648 (section 5), written without padding (section 3.2), and
// the lenient decoder the cursors are read with.
module Base64 {
  import opened Records

  type byte = x: int | 0 <= x < 256
  type sextet = x: int | 0 <= x < 64

  function Digit(x: sextet): char {
    if x < 26 then ('A' as int + x) as char
    else if x < 52 then ('a' as int + x - 26) as char
    else if x < 62 then ('0' as int + x - 52) as char
    else if x == 62 then '-' else '_'
  }

  // `urlsafe_b64decode` maps `-_` to `+/` and leaves `+/` as they are.
  function Value(c: char): Option<sextet> {
    if 'A' <= c <= 'Z' then Some(c as int - 'A' as int)
    else if 'a' <= c <= 'z' then Some(c as int - 'a' as int + 26)
    else if '0' <= c <= '9' then Some(c as int - '0' as int + 52)
    else if c == '-' || c == '+' then Some(62)
    else if c == '_' || c == '/' then Some(63)
    else None
  }

  function Digits(b: seq<byte>): string {
    if |b| == 0 then ""
    else if |b| == 1 then [Digit(b[0] / 4), Digit(b[0] % 4 * 16)]
    else if |b| == 2 then [Digit(b[0] / 4), Digit(b[0] % 4 * 16 + b[1] / 16), Digit(b[1] % 16 * 4)]
    else
      [Digit(b[0] / 4), Digit(b[0] % 4 * 16 + b[1] / 16), Digit(b[1] % 16 * 4 + b[2] / 64), Digit(b[2] % 64)]
      + Digits(b[3..])
  }

  function Pads(n: nat): (p: string) { seq(n, _ => '=') }

  // The padding that makes a length a multiple of four: `-len % 4`.
  function Missing(len: nat): nat { (4 - len % 4) % 4 }

  function Encode(b: seq<byte>): string { Digits(b) + Pads(Missing(|Digits(b)|)) }

  // `rstrip("=")`
  function Unpadded(s: string): string {
    if s != "" && s[|s| - 1] == '=' then Unpadded(s[..|s| - 1]) else s
  }

  function Padded(s: string): string { s + Pads(Missing(|s|)) }

  // The decoder, `quad` characters into a group with `left` over: skips what is not of the
  // alphabet, stops at the padding that completes a group, fails in the middle of one.
  function DecodeFrom(s: string, quad: nat, left: nat, pads: nat): Option<seq<byte>>
    requires quad < 4 && left < (if quad == 1 then 64 else if quad == 2 then 16 else if quad == 3 then 4 else 1)
  {
    if s == "" then (if quad == 0 then Some([]) else None)
    else if s[0] == '=' then
      if quad >= 2 && quad + pads + 1 >= 4 then Some([])
      else DecodeFrom(s[1..], quad, left, if quad >= 2 then pads + 1 else pads)
    else
      match Value(s[0])
      case None => DecodeFrom(s[1..], quad, left, pads)
      case Some(v) =>
        match quad
        case 0 => DecodeFrom(s[1..], 1, v, 0)
        case 1 => Prepend(left * 4 + v / 16, DecodeFrom(s[1..], 2, v % 16, 0))
        case 2 => Prepend(left * 16 + v / 4, DecodeFrom(s[1..], 3, v % 4, 0))
        case _ => Prepend(left * 64 + v, DecodeFrom(s[1..], 0, 0, 0))
  }

  function Prepend(b: byte, rest: Option<seq<byte>>): Option<seq<byte>> {
    if rest.None? then None else Some([b] + rest.value)
  }

  function Decode(s: string): Option<seq<byte>> { DecodeFrom(s, 0, 0, 0) }

  lemma DigitValue(x: sextet)
    ensures Digit(x) != '=' && Value(Digit(x)) == Some(x)
  {
  }

  lemma {:induction false} DigitsEnd(b: seq<byte>)
    requires b != []
    ensures Digits(b) != "" && Digits(b)[|Digits(b)| - 1] != '='
    decreases |b|
  {
    if |b| == 1 {
      DigitValue(b[0] % 4 * 16);
    } else if |b| == 2 {
      DigitValue(b[1] % 16 * 4);
    } else {
      DigitValue(b[2] % 64);
      if |b| > 3 { DigitsEnd(b[3..]); }
    }
  }

  lemma {:induction false} UnpaddedPads(s: string, n: nat)
    requires s == "" || s[|s| - 1] != '='
    ensures Unpadded(s + Pads(n)) == s
    decreases n
  {
    if n == 0 {
      assert s + Pads(0) == s;
    } else {
      assert (s + Pads(n))[..|s| + n - 1] == s + Pads(n - 1);
      UnpaddedPads(s, n - 1);
    }
  }

  lemma OneStep(c: char, rest: string, quad: nat, left: nat)
    requires quad < 4 && left < (if quad == 1 then 64 else if quad == 2 then 16 else if quad == 3 then 4 else 1)
    requires c != '=' && Value(c).Some?
    ensures var v := Value(c).value;
      DecodeFrom([c] + rest, quad, left, 0)
      == match quad
         case 0 => DecodeFrom(rest, 1, v, 0)
         case 1 => Prepend(left * 4 + v / 16, DecodeFrom(rest, 2, v % 16, 0))
         case 2 => Prepend(left * 16 + v / 4, DecodeFrom(rest, 3, v % 4, 0))
         case _ => Prepend(left * 64 + v, DecodeFrom(rest, 0, 0, 0))
  {
    assert ([c] + rest)[1..] == rest;
  }

  lemma EndOfTwo(left: nat)
    requires left < 16
    ensures DecodeFrom(Pads(2), 2, left, 0) == Some([])
  {
    assert Pads(2)[1..] == Pads(1);
    assert DecodeFrom(Pads(1), 2, left, 1) == Some([]);
  }

  lemma EndOfThree(left: nat)
    requires left < 4
    ensures DecodeFrom(Pads(1), 3, left, 0) == Some([])
  {
  }

  lemma OneByte(a: byte)
    ensures Decode(Digits([a]) + Pads(2)) == Some([a])
  {
    var x, y := a / 4, a % 4 * 16;
    DigitValue(x);
    DigitValue(y);
    assert Digits([a]) + Pads(2) == [Digit(x)] + ([Digit(y)] + Pads(2));
    OneStep(Digit(x), [Digit(y)] + Pads(2), 0, 0);
    OneStep(Digit(y), Pads(2), 1, x);
    EndOfTwo(y % 16);
    assert x * 4 + y / 16 == a && [a] + [] == [a];
  }

  lemma TwoBytes(a: byte, b: byte)
    ensures Decode(Digits([a, b]) + Pads(1)) == Some([a, b])
  {
    var x, y, z := a / 4, a % 4 * 16 + b / 16, b % 16 * 4;
    DigitValue(x);
    DigitValue(y);
    DigitValue(z);
    assert Digits([a, b]) + Pads(1) == [Digit(x)] + ([Digit(y)] + ([Digit(z)] + Pads(1)));
    OneStep(Digit(x), [Digit(y)] + ([Digit(z)] + Pads(1)), 0, 0);
    OneStep(Digit(y), [Digit(z)] + Pads(1), 1, x);
    OneStep(Digit(z), Pads(1), 2, y % 16);
    EndOfThree(z % 4);
    assert x * 4 + y / 16 == a && y % 16 * 16 + z / 4 == b;
    assert [a] + ([b] + []) == [a, b];
  }

  lemma ThreeBytes(a: byte, b: byte, c: byte, rest: string)
    ensures var group := [Digit(a / 4), Digit(a % 4 * 16 + b / 16), Digit(b % 16 * 4 + c / 64), Digit(c % 64)];
      Decode(group + rest) == if Decode(rest).None? then None else Some([a, b, c] + Decode(rest).value)
  {
    var x, y, z, u := a / 4, a % 4 * 16 + b / 16, b % 16 * 4 + c / 64, c % 64;
    DigitValue(x);
    DigitValue(y);
    DigitValue(z);
    DigitValue(u);
    assert [Digit(x), Digit(y), Digit(z), Digit(u)] + rest
      == [Digit(x)] + ([Digit(y)] + ([Digit(z)] + ([Digit(u)] + rest)));
    OneStep(Digit(x), [Digit(y)] + ([Digit(z)] + ([Digit(u)] + rest)), 0, 0);
    OneStep(Digit(y), [Digit(z)] + ([Digit(u)] + rest), 1, x);
    OneStep(Digit(z), [Digit(u)] + rest, 2, y % 16);
    OneStep(Digit(u), rest, 3, z % 4);
    assert x * 4 + y / 16 == a && y % 16 * 16 + z / 4 == b && z % 4 * 64 + u == c;
    if Decode(rest).Some? {
      assert [a] + ([b] + ([c] + Decode(rest).value)) == [a, b, c] + Decode(rest).value;
    }
  }

  lemma EncodeGroup(b: seq<byte>)
    requires |b| >= 3
    ensures Encode(b)
      == [Digit(b[0] / 4), Digit(b[0] % 4 * 16 + b[1] / 16), Digit(b[1] % 16 * 4 + b[2] / 64), Digit(b[2] % 64)]
         + Encode(b[3..])
  {
  }

  // Every byte string is read back from its padded form.
  lemma {:induction false} DecodeEncode(b: seq<byte>)
    ensures Decode(Encode(b)) == Some(b)
    decreases |b|
  {
    hide Digit;
    if |b| == 0 {
      assert Encode(b) == "";
    } else if |b| == 1 {
      OneByte(b[0]);
      assert b == [b[0]];
    } else if |b| == 2 {
      TwoBytes(b[0], b[1]);
      assert b == [b[0], b[1]];
    } else {
      var group := [Digit(b[0] / 4), Digit(b[0] % 4 * 16 + b[1] / 16), Digit(b[1] % 16 * 4 + b[2] / 64), Digit(b[2] % 64)];
      EncodeGroup(b);
      DecodeEncode(b[3..]);
      ThreeBytes(b[0], b[1], b[2], Encode(b[3..]));
      assert b == [b[0], b[1], b[2]] + b[3..];
    }
  }

  // Stripping the padding loses nothing: it is put back from the length.
  lemma PaddingRestored(b: seq<byte>)
    ensures Unpadded(Encode(b)) == Digits(b) && (b != [] ==> Digits(b) != "")
    ensures Padded(Unpadded(Encode(b))) == Encode(b)
  {
    if b == [] {
      assert Digits(b) == "";
    } else {
      DigitsEnd(b);
    }
    UnpaddedPads(Digits(b), Missing(|Digits(b)|));
  }

  // Test vectors of section 10, and the two digits the URL-safe alphabet changes.
  lemma Vectors()
    ensures Encode([0x66]) == "Zg==" && Encode([0x66, 0x6f]) == "Zm8=" && Encode([0x66, 0x6f, 0x6f]) == "Zm9v"
    ensures Encode([0xfb, 0xef, 0xff]) == "--__"
  {
    assert Pads(1) == "=" && Pads(2) == "==" && Pads(0) == "";
    assert Digits([0x66]) == "Zg";
    assert Digits([0x66, 0x6f]) == "Zm8";
    WholeGroup(0x66, 0x6f, 0x6f);
    WholeGroup(0xfb, 0xef, 0xff);
  }

  lemma WholeGroup(a: byte, b: byte, c: byte)
    ensures Encode([a, b, c]) == [Digit(a / 4), Digit(a % 4 * 16 + b / 16), Digit(b % 16 * 4 + c / 64), Digit(c % 64)]
  {
    assert [a, b, c][3..] == [];
    assert Encode([]) == "";
    EncodeGroup([a, b, c]);
  }

  // ------------------------------------------------------- what the decoder accepts

  predicate InAlphabet(c: char) { c == '=' || Value(c).Some? }

  function Known(s: string): (r: string)
    ensures |r| <= |s|
  {
    if s == "" then "" else (if InAlphabet(s[0]) then [s[0]] else []) + Known(s[1..])
  }

  // Characters outside the alphabet make no difference, wherever they stand.
  lemma {:induction false} OthersSkipped(s: string, quad: nat, left: nat, pads: nat)
    requires quad < 4 && left < (if quad == 1 then 64 else if quad == 2 then 16 else if quad == 3 then 4 else 1)
    ensures DecodeFrom(s, quad, left, pads) == DecodeFrom(Known(s), quad, left, pads)
    decreases |s|
  {
    hide Value;
    if s != "" {
      var rest := s[1..];
      if InAlphabet(s[0]) { assert Known(s)[1..] == Known(rest); } else { assert Known(s) == Known(rest); }
      if s[0] == '=' || Value(s[0]).None? {
        OthersSkipped(rest, quad, left, pads);
        if quad >= 2 { OthersSkipped(rest, quad, left, pads + 1); }
      } else {
        var v := Value(s[0]).value;
        match quad {
          case 0 => OthersSkipped(rest, 1, v, 0);
          case 1 => OthersSkipped(rest, 2, v % 16, 0);
          case 2 => OthersSkipped(rest, 3, v % 4, 0);
          case _ => OthersSkipped(rest, 0, 0, 0);
        }
      }
    }
  }

  // The same digits in the standard alphabet.
  function Standard(s: string): (r: string)
    ensures |r| == |s|
  {
    seq(|s|, i requires 0 <= i < |s| => if s[i] == '-' then '+' else if s[i] == '_' then '/' else s[i])
  }

  // Either alphabet is read, and the two may be mixed.
  lemma {:induction false} EitherAlphabet(s: string, quad: nat, left: nat, pads: nat)
    requires quad < 4 && left < (if quad == 1 then 64 else if quad == 2 then 16 else if quad == 3 then 4 else 1)
    ensures DecodeFrom(Standard(s), quad, left, pads) == DecodeFrom(s, quad, left, pads)
    decreases |s|
  {
    if s != "" {
      var rest := s[1..];
      assert Standard(s)[1..] == Standard(rest);
      assert Value(Standard(s)[0]) == Value(s[0]) && (Standard(s)[0] == '=' <==> s[0] == '=');
      hide Value;
      if s[0] == '=' || Value(s[0]).None? {
        EitherAlphabet(rest, quad, left, pads);
        if quad >= 2 { EitherAlphabet(rest, quad, left, pads + 1); }
      } else {
        var v := Value(s[0]).value;
        match quad {
          case 0 => EitherAlphabet(rest, 1, v, 0);
          case 1 => EitherAlphabet(rest, 2, v % 16, 0);
          case 2 => EitherAlphabet(rest, 3, v % 4, 0);
          case _ => EitherAlphabet(rest, 0, 0, 0);
        }
      }
    }
  }

  lemma {:induction false} PadsDecode(n: nat, quad: nat, left: nat)
    requires quad < 4 && left < (if quad == 1 then 64 else if quad == 2 then 16 else if quad == 3 then 4 else 1)
    ensures DecodeFrom(Pads(n), quad, left, 0).Some? <==> quad == 0 || (quad == 2 && n >= 2) || (quad == 3 && n >= 1)
    decreases n
  {
    if n > 0 {
      assert Pads(n)[1..] == Pads(n - 1);
      if quad < 2 { PadsDecode(n - 1, quad, left); }
      if quad == 2 && n > 1 { assert Pads(n - 1)[0] == '='; }
    }
  }

  // Digits alone are decoded, once padded, exactly when they are not one over a whole group.
  lemma {:induction false} DecodedIff(s: string, n: nat, quad: nat, left: nat)
    requires quad < 4 && left < (if quad == 1 then 64 else if quad == 2 then 16 else if quad == 3 then 4 else 1)
    requires forall i :: 0 <= i < |s| ==> s[i] != '=' && Value(s[i]).Some?
    ensures var over := (quad + |s|) % 4;
      DecodeFrom(s + Pads(n), quad, left, 0).Some? <==> over == 0 || (over == 2 && n >= 2) || (over == 3 && n >= 1)
    decreases |s|
  {
    hide Value;
    if s == "" {
      assert s + Pads(n) == Pads(n);
      PadsDecode(n, quad, left);
    } else {
      var rest, v := s[1..], Value(s[0]).value;
      assert s + Pads(n) == [s[0]] + (rest + Pads(n));
      OneStep(s[0], rest + Pads(n), quad, left);
      match quad {
        case 0 => DecodedIff(rest, n, 1, v);
        case 1 => DecodedIff(rest, n, 2, v % 16);
        case 2 => DecodedIff(rest, n, 3, v % 4);
        case _ => DecodedIff(rest, n, 0, 0);
      }
    }
  }

  // Of what a client sends without padding, only the length decides.
  lemma PaddedDecodedIff(s: string)
    requires forall i :: 0 <= i < |s| ==> s[i] != '=' && Value(s[i]).Some?
    ensures Decode(Padded(s)).Some? <==> |s| % 4 != 1
  {
    DecodedIff(s, Missing(|s|), 0, 0);
  }
}
