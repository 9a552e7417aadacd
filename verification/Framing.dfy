/**
 * Length-prefixed frames: `src/worthless/ipc/framing.py`. Packing an envelope is an abstract function
 * with an inverse.
 */
module Framing {
  import opened Common

  type Byte = x: int | 0 <= x < 256
  type Bytes = seq<Byte>

  const MAX_FRAME_SIZE := 1048576
  const HEADER_LEN := 4

  datatype FrameError = TooLarge | Truncated | Malformed

  /** `int.to_bytes(4, "big")`. */
  function ToHeader(n: nat): (h: Bytes)
    requires n < 0x1_0000_0000
    ensures |h| == HEADER_LEN
  {
    [n / 0x100_0000, n / 0x1_0000 % 256, n / 256 % 256, n % 256]
  }

  function FromHeader(h: Bytes): nat
    requires |h| == HEADER_LEN
  {
    h[0] as int * 0x100_0000 + h[1] as int * 0x1_0000 + h[2] as int * 256 + h[3] as int
  }

  lemma HeaderRoundTrip(n: nat)
    requires n < 0x1_0000_0000
    ensures FromHeader(ToHeader(n)) == n
  {
    var a, b, c := n / 256, n / 0x1_0000, n / 0x100_0000;
    assert n == a * 256 + n % 256;
    assert a == b * 256 + a % 256;
    assert b == c * 256 + b % 256;
  }

  /** `encode_frame`, once the envelope is packed. */
  function EncodeFrame(payload: Bytes): Result<Bytes, FrameError> {
    if |payload| > MAX_FRAME_SIZE then Err(TooLarge) else Ok(ToHeader(|payload|) + payload)
  }

  /** `read_frame`: the payload and what it leaves in the stream. */
  function ReadPayload(stream: Bytes): Result<(Bytes, Bytes), FrameError> {
    if |stream| < HEADER_LEN then Err(Truncated)
    else
      var length := FromHeader(stream[..HEADER_LEN]);
      if length == 0 then Err(Malformed)
      else if length > MAX_FRAME_SIZE then Err(TooLarge)
      else if |stream| < HEADER_LEN + length then Err(Truncated)
      else Ok((stream[HEADER_LEN..HEADER_LEN + length], stream[HEADER_LEN + length..]))
  }

  /** ... with the payload unpacked; only a dict is an envelope. */
  function ReadFrame<E>(stream: Bytes, unpack: Bytes -> Option<E>): Result<(E, Bytes), FrameError> {
    match ReadPayload(stream)
    case Err(e) => Err(e)
    case Ok((payload, rest)) =>
      match unpack(payload)
      case None => Err(Malformed)
      case Some(e) => Ok((e, rest))
  }

  /** Packed, the envelope is neither empty nor too large. */
  predicate InBounds(payload: Bytes) { 0 < |payload| <= MAX_FRAME_SIZE }

  function Frame(payload: Bytes): Bytes
    requires InBounds(payload)
  {
    ToHeader(|payload|) + payload
  }

  /** A frame is read back and leaves the rest of the stream untouched; a payload that is empty is not. */
  lemma FrameReadsBack(payload: Bytes, rest: Bytes)
    requires |payload| <= MAX_FRAME_SIZE
    ensures EncodeFrame(payload).Ok?
    ensures ReadPayload(EncodeFrame(payload).value + rest) == (if payload == [] then Err(Malformed) else Ok((payload, rest)))
  {
    var header := ToHeader(|payload|);
    var stream := header + payload + rest;
    HeaderRoundTrip(|payload|);
    assert stream[..HEADER_LEN] == header;
    assert stream[HEADER_LEN..HEADER_LEN + |payload|] == payload && stream[HEADER_LEN + |payload|..] == rest;
  }

  /** Every strict prefix of a frame is rejected as truncated. */
  lemma PrefixIsTruncated(payload: Bytes, k: nat)
    requires InBounds(payload) && k < |Frame(payload)|
    ensures ReadPayload(Frame(payload)[..k]) == Err(Truncated)
  {
    HeaderRoundTrip(|payload|);
    if k >= HEADER_LEN { assert Frame(payload)[..k][..HEADER_LEN] == ToHeader(|payload|); }
  }

  /** The frames of a list of envelopes, one after the other. */
  function Frames<E>(es: seq<E>, pack: E -> Bytes): Bytes
    requires forall e :: e in es ==> InBounds(pack(e))
  {
    if es == [] then [] else Frame(pack(es[0])) + Frames(es[1..], pack)
  }

  /** As many envelopes as asked for, and what is left. */
  function ReadFrames<E>(stream: Bytes, n: nat, unpack: Bytes -> Option<E>): Result<(seq<E>, Bytes), FrameError> {
    if n == 0 then Ok(([], stream))
    else
      match ReadFrame(stream, unpack)
      case Err(e) => Err(e)
      case Ok((first, rest)) =>
        match ReadFrames(rest, n - 1, unpack)
        case Err(e) => Err(e)
        case Ok((more, left)) => Ok(([first] + more, left))
  }

  lemma Regroup(a: Bytes, b: Bytes, c: Bytes)
    ensures a + b + c == a + (b + c)
  {
  }

  lemma FirstEnvelope<E(!new)>(e: E, rest: Bytes, pack: E -> Bytes, unpack: Bytes -> Option<E>)
    requires unpack(pack(e)) == Some(e) && InBounds(pack(e))
    ensures ReadFrame(Frame(pack(e)) + rest, unpack) == Ok((e, rest))
  {
    FrameReadsBack(pack(e), rest);
  }

  /** Over one stream any list of frames decodes to the same list, with the remaining bytes untouched. */
  lemma {:induction false} FramesRoundTrip<E(!new)>(es: seq<E>, rest: Bytes, pack: E -> Bytes, unpack: Bytes -> Option<E>)
    requires forall e :: unpack(pack(e)) == Some(e)
    requires forall e :: e in es ==> InBounds(pack(e))
    ensures ReadFrames(Frames(es, pack) + rest, |es|, unpack) == Ok((es, rest))
    decreases |es|
  {
    if es == [] {
      assert Frames(es, pack) + rest == rest;
    } else {
      assert es[0] in es;
      assert forall e :: e in es[1..] ==> e in es;
      var tail := Frames(es[1..], pack) + rest;
      FirstEnvelope(es[0], tail, pack, unpack);
      Regroup(Frame(pack(es[0])), Frames(es[1..], pack), rest);
      FramesRoundTrip(es[1..], rest, pack, unpack);
      assert [es[0]] + es[1..] == es;
    }
  }

  // ----- The stream -------------------------------------------------------------------------------

  /** What the peer has sent and nobody has read yet, up to its closing the connection. */
  class Stream {
    var unread: Bytes

    constructor (bytes: Bytes)
      ensures unread == bytes
    {
      unread := bytes;
    }

    /** `readexactly`: too few bytes are consumed and reported. */
    method ReadExactly(n: nat) returns (r: Option<Bytes>)
      modifies this
      ensures if |old(unread)| < n then r == None && unread == []
              else r == Some(old(unread)[..n]) && unread == old(unread)[n..]
    {
      if |unread| < n {
        unread := [];
        return None;
      }
      r := Some(unread[..n]);
      unread := unread[n..];
    }

    /** `read_frame`. */
    method ReadEnvelope<E>(unpack: Bytes -> Option<E>) returns (r: Result<E, FrameError>)
      modifies this
      ensures match ReadFrame(old(unread), unpack)
              case Ok((e, rest)) => r == Ok(e) && unread == rest
              case Err(e) => r == Err(e)
    {
      var header := ReadExactly(HEADER_LEN);
      if header.None? { return Err(Truncated); }
      var length := FromHeader(header.value);
      if length == 0 { return Err(Malformed); }
      if length > MAX_FRAME_SIZE { return Err(TooLarge); }
      ghost var after := unread;
      assert after == old(unread)[HEADER_LEN..];
      var payload := ReadExactly(length);
      if payload.None? { return Err(Truncated); }
      assert payload.value == old(unread)[HEADER_LEN..HEADER_LEN + length];
      assert unread == old(unread)[HEADER_LEN + length..];
      var envelope := unpack(payload.value);
      return if envelope.None? then Err(Malformed) else Ok(envelope.value);
    }
  }
}
