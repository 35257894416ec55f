// Signed, opaque pagination cursors: payload, a dot, the hex signature of the payload.
module Cursor {
  import opened Records
  import opened Base64

  const DOT: byte := 46

  // A signature is lower-case hex digits.
  ghost predicate HexSigner(sign: seq<byte> -> seq<byte>) {
    forall p, b :: b in sign(p) ==> '0' as int <= b <= '9' as int || 'a' as int <= b <= 'f' as int
  }

  function EncodeCursor(sign: seq<byte> -> seq<byte>, payload: seq<byte>): string {
    Unpadded(Encode(payload + [DOT] + sign(payload)))
  }

  // The position of the last dot.
  function LastDot(raw: seq<byte>): (i: Option<nat>)
    ensures i.Some? ==> i.value < |raw| && raw[i.value] == DOT
  {
    if raw == [] then None
    else if raw[|raw| - 1] == DOT then Some(|raw| - 1)
    else LastDot(raw[..|raw| - 1])
  }

  // None: 400 MALFORMED_CURSOR.
  function DecodeCursor(sign: seq<byte> -> seq<byte>, cursor: string): Option<seq<byte>> {
    match Decode(Padded(cursor))
    case None => None
    case Some(raw) =>
      match LastDot(raw)
      case None => None
      case Some(i) => if raw[i + 1..] == sign(raw[..i]) then Some(raw[..i]) else None
  }

  lemma {:induction false} LastDotIs(raw: seq<byte>, n: nat)
    requires n < |raw| && raw[n] == DOT && forall k :: n < k < |raw| ==> raw[k] != DOT
    ensures LastDot(raw) == Some(n)
    decreases |raw|
  {
    if n < |raw| - 1 { LastDotIs(raw[..|raw| - 1], n); }
  }

  lemma AtPosition(payload: seq<byte>, signature: seq<byte>, k: nat)
    requires k < |payload| + 1 + |signature|
    ensures (payload + [DOT] + signature)[k]
      == if k < |payload| then payload[k] else if k == |payload| then DOT else signature[k - |payload| - 1]
  {
  }

  lemma SplitsAtSignature(payload: seq<byte>, signature: seq<byte>)
    requires DOT !in signature
    ensures LastDot(payload + [DOT] + signature) == Some(|payload|)
  {
    hide LastDot;
    forall k | |payload| <= k < |payload| + 1 + |signature|
      ensures (payload + [DOT] + signature)[k] == DOT <==> k == |payload|
    {
      AtPosition(payload, signature, k);
      if k > |payload| { assert signature[k - |payload| - 1] in signature; }
    }
    LastDotIs(payload + [DOT] + signature, |payload|);
  }

  // Decoding an encoded cursor gives the payload back, whatever bytes it holds, dots
  // included.
  lemma CursorRoundTrip(sign: seq<byte> -> seq<byte>, payload: seq<byte>)
    requires HexSigner(sign)
    ensures DecodeCursor(sign, EncodeCursor(sign, payload)) == Some(payload)
  {
    var raw := payload + [DOT] + sign(payload);
    PaddingRestored(raw);
    DecodeEncode(raw);
    SplitsAtSignature(payload, sign(payload));
    assert raw[..|payload|] == payload && raw[|payload| + 1..] == sign(payload);
  }

  // A cursor is accepted exactly when it decodes to a payload followed by its own signature.
  lemma AcceptedIffSigned(sign: seq<byte> -> seq<byte>, cursor: string, payload: seq<byte>)
    requires HexSigner(sign)
    ensures DecodeCursor(sign, cursor) == Some(payload)
      <==> Decode(Padded(cursor)) == Some(payload + ['.' as int] + sign(payload))
  {
    var raw := payload + [DOT] + sign(payload);
    SplitsAtSignature(payload, sign(payload));
    assert raw[..|payload|] == payload && raw[|payload| + 1..] == sign(payload);
    if Decode(Padded(cursor)).Some? {
      var found := Decode(Padded(cursor)).value;
      var i := LastDot(found);
      if i.Some? { assert found == found[..i.value] + [DOT] + found[i.value + 1..]; }
    }
  }

  // Different payloads have different cursors.
  lemma CursorsDiffer(sign: seq<byte> -> seq<byte>, a: seq<byte>, b: seq<byte>)
    requires HexSigner(sign) && EncodeCursor(sign, a) == EncodeCursor(sign, b)
    ensures a == b
  {
    CursorRoundTrip(sign, a);
    CursorRoundTrip(sign, b);
  }
}
