/** The streaming request decoder (protocol.py, lines 151-190), proved against what its whole input
    stream means: the stream is split on newlines, each frame of at most 2^20 bytes is decoded, and each
    longer frame, terminated or not, is answered with exactly one error. */
module NdjsonDecoder {
  import opened Options
  import opened Utf8
  import opened WireProtocol

  const MAX_REQUEST_FRAME_BYTES: nat := 0x100000

  const TOO_LARGE := Bad("Request frame is too large")

  // ----- the meaning of a stream -----

  /** The bytes after the last newline. */
  function Tail(stream: seq<Byte>): seq<Byte>
  {
    if stream == [] || stream[|stream| - 1] == NEWLINE_BYTE then []
    else Tail(stream[..|stream| - 1]) + [stream[|stream| - 1]]
  }

  /** The frames ended by a newline. */
  function Frames(stream: seq<Byte>): seq<seq<Byte>>
  {
    if stream == [] then []
    else if stream[|stream| - 1] == NEWLINE_BYTE then Frames(stream[..|stream| - 1]) + [Tail(stream[..|stream| - 1])]
    else Frames(stream[..|stream| - 1])
  }

  /** Frames, each with its newline, and what comes after them. */
  function Framed(frames: seq<seq<Byte>>, tail: seq<Byte>): seq<Byte>
  {
    if frames == [] then tail
    else Framed(frames[..|frames| - 1], frames[|frames| - 1] + [NEWLINE_BYTE] + tail)
  }

  lemma {:induction false} FramedMore(frames: seq<seq<Byte>>, tail: seq<Byte>, more: seq<Byte>)
    ensures Framed(frames, tail + more) == Framed(frames, tail) + more
  {
    if frames == [] {
    } else {
      var last := frames[|frames| - 1] + [NEWLINE_BYTE] + tail;
      assert frames[|frames| - 1] + [NEWLINE_BYTE] + (tail + more) == last + more;
      FramedMore(frames[..|frames| - 1], last, more);
    }
  }

  /** The frames and the tail are the stream cut at its newlines. */
  ghost predicate Cut(stream: seq<Byte>, frames: seq<seq<Byte>>, tail: seq<Byte>)
  {
    && Framed(frames, tail) == stream && NEWLINE_BYTE !in tail
    && forall i :: 0 <= i < |frames| ==> NEWLINE_BYTE !in frames[i]
  }

  lemma CutNext(stream: seq<Byte>, frames: seq<seq<Byte>>, tail: seq<Byte>, b: Byte)
    requires Cut(stream, frames, tail)
    ensures if b == NEWLINE_BYTE then Cut(stream + [b], frames + [tail], []) else Cut(stream + [b], frames, tail + [b])
  {
    FramedMore(frames, tail, [b]);
    FramedNext(frames, tail);
  }

  lemma {:induction false} FramesMeaning(stream: seq<Byte>)
    ensures Cut(stream, Frames(stream), Tail(stream))
  {
    if stream == [] {
    } else {
      var front, b := stream[..|stream| - 1], stream[|stream| - 1];
      FramesMeaning(front);
      CutNext(front, Frames(front), Tail(front), b);
      NextByte(front, b);
      assert front + [b] == stream;
    }
  }

  lemma FramedNext(frames: seq<seq<Byte>>, last: seq<Byte>)
    ensures Framed(frames + [last], []) == Framed(frames, last + [NEWLINE_BYTE])
  {
    assert (frames + [last])[..|frames|] == frames;
    assert last + [NEWLINE_BYTE] + [] == last + [NEWLINE_BYTE];
  }

  /** What a stream holds for its reader: a frame within the limit, or one that is too long. */
  datatype Event = Frame(bytes: seq<Byte>) | TooLong

  function EventOf(frame: seq<Byte>): Event
  {
    if |frame| > MAX_REQUEST_FRAME_BYTES then TooLong else Frame(frame)
  }

  /** An unfinished frame is reported as soon as it is too long. */
  function Events(stream: seq<Byte>): seq<Event>
  {
    seq(|Frames(stream)|, i requires 0 <= i < |Frames(stream)| => EventOf(Frames(stream)[i]))
      + if |Tail(stream)| > MAX_REQUEST_FRAME_BYTES then [TooLong] else []
  }

  /** How one frame is decoded: `DecodeFrame`, as far as the daemon is concerned. */
  type FrameDecoder = seq<Byte> -> Decoded

  function Reply(decode: FrameDecoder, event: Event): Decoded
  {
    match event
    case Frame(bytes) => decode(bytes)
    case TooLong => TOO_LARGE
  }

  function Replies(decode: FrameDecoder, events: seq<Event>): seq<Decoded>
  {
    if events == [] then [] else Replies(decode, events[..|events| - 1]) + [Reply(decode, events[|events| - 1])]
  }

  /** Everything a decoder has returned once it was fed `stream`. */
  function Outputs(decode: FrameDecoder, stream: seq<Byte>): seq<Decoded>
  {
    Replies(decode, Events(stream))
  }

  predicate NoNewline(bytes: seq<Byte>)
  {
    NEWLINE_BYTE !in bytes
  }

  lemma NextByte(stream: seq<Byte>, b: Byte)
    ensures Tail(stream + [b]) == if b == NEWLINE_BYTE then [] else Tail(stream) + [b]
    ensures Frames(stream + [b]) == if b == NEWLINE_BYTE then Frames(stream) + [Tail(stream)] else Frames(stream)
  {
    assert (stream + [b])[..|stream|] == stream;
  }

  lemma Snoc<T>(s: seq<T>, more: seq<T>)
    requires more != []
    ensures s + more[..|more| - 1] + [more[|more| - 1]] == s + more
  {
  }

  lemma {:induction false} ExtendFrame(stream: seq<Byte>, more: seq<Byte>)
    requires NoNewline(more)
    ensures Tail(stream + more) == Tail(stream) + more && Frames(stream + more) == Frames(stream)
    decreases |more|
  {
    if more == [] {
      assert stream + more == stream;
    } else {
      var front, last := more[..|more| - 1], more[|more| - 1];
      assert last in more;
      ExtendFrame(stream, front);
      NextByte(stream + front, last);
      Snoc(stream, more);
      Snoc(Tail(stream), more);
    }
  }

  lemma EndFrame(stream: seq<Byte>, more: seq<Byte>)
    requires NoNewline(more)
    ensures Tail(stream + more + [NEWLINE_BYTE]) == []
    ensures Frames(stream + more + [NEWLINE_BYTE]) == Frames(stream) + [Tail(stream) + more]
  {
    ExtendFrame(stream, more);
    NextByte(stream + more, NEWLINE_BYTE);
  }

  /** What more bytes of an unfinished frame add: one error when it becomes too long. */
  lemma EventsExtend(stream: seq<Byte>, more: seq<Byte>)
    requires NoNewline(more)
    ensures Tail(stream + more) == Tail(stream) + more
    ensures Events(stream + more) == Events(stream) +
            if |Tail(stream)| <= MAX_REQUEST_FRAME_BYTES < |Tail(stream)| + |more| then [TooLong] else []
  {
    ExtendFrame(stream, more);
  }

  /** What the end of a frame adds: the frame, unless it was reported before. */
  lemma EventsEnd(stream: seq<Byte>, more: seq<Byte>)
    requires NoNewline(more)
    ensures var next := stream + more + [NEWLINE_BYTE];
      && Tail(next) == []
      && Events(next) == Events(stream) +
           if |Tail(stream)| > MAX_REQUEST_FRAME_BYTES then [] else [EventOf(Tail(stream) + more)]
  {
    EndFrame(stream, more);
  }

  /** Of `data`, everything but `remaining` was consumed, and `added` is what that brought. */
  ghost predicate Consumed(start: seq<Byte>, data: seq<Byte>, stream: seq<Byte>, remaining: seq<Byte>,
                           added: seq<Event>)
  {
    stream + remaining == start + data && Events(stream) == Events(start) + added
  }

  lemma ConsumeAll(start: seq<Byte>, data: seq<Byte>, stream: seq<Byte>, remaining: seq<Byte>, added: seq<Event>)
    requires Consumed(start, data, stream, remaining, added) && NoNewline(remaining)
    ensures Tail(stream + remaining) == Tail(stream) + remaining
    ensures Consumed(start, data, stream + remaining, [],
                     if |Tail(stream)| <= MAX_REQUEST_FRAME_BYTES < |Tail(stream)| + |remaining| then added + [TooLong]
                     else added)
  {
    EventsExtend(stream, remaining);
  }

  lemma ConsumeFrame(start: seq<Byte>, data: seq<Byte>, stream: seq<Byte>, remaining: seq<Byte>, added: seq<Event>,
                     boundary: nat)
    requires Consumed(start, data, stream, remaining, added)
    requires boundary < |remaining| && remaining[boundary] == NEWLINE_BYTE && NoNewline(remaining[..boundary])
    ensures var next := stream + remaining[..boundary] + [NEWLINE_BYTE];
      && Tail(next) == []
      && Consumed(start, data, next, remaining[boundary + 1..],
                  if |Tail(stream)| > MAX_REQUEST_FRAME_BYTES then added
                  else added + [EventOf(Tail(stream) + remaining[..boundary])])
  {
    EventsEnd(stream, remaining[..boundary]);
    TakeFrame(stream, remaining, boundary);
  }

  lemma TakeFrame(stream: seq<Byte>, remaining: seq<Byte>, boundary: nat)
    requires boundary < |remaining| && remaining[boundary] == NEWLINE_BYTE
    ensures stream + remaining[..boundary] + [NEWLINE_BYTE] + remaining[boundary + 1..] == stream + remaining
  {
    assert remaining == remaining[..boundary] + [NEWLINE_BYTE] + remaining[boundary + 1..];
  }

  lemma ConsumedOutputs(decode: FrameDecoder, start: seq<Byte>, data: seq<Byte>, stream: seq<Byte>, added: seq<Event>)
    requires Consumed(start, data, stream, [], added)
    ensures stream == start + data && Outputs(decode, stream) == Outputs(decode, start) + Replies(decode, added)
  {
    assert stream + [] == stream;
    RepliesConcat(decode, Events(start), added);
  }

  lemma RepliesNext(decode: FrameDecoder, events: seq<Event>, event: Event)
    ensures Replies(decode, events + [event]) == Replies(decode, events) + [Reply(decode, event)]
  {
    assert (events + [event])[..|events|] == events;
  }

  lemma {:induction false} RepliesConcat(decode: FrameDecoder, a: seq<Event>, b: seq<Event>)
    ensures Replies(decode, a + b) == Replies(decode, a) + Replies(decode, b)
    decreases |b|
  {
    if b == [] {
      assert a + b == a;
    } else {
      var front, last := b[..|b| - 1], b[|b| - 1];
      RepliesConcat(decode, a, front);
      RepliesNext(decode, a + front, last);
      Snoc(a, b);
    }
  }

  // ----- the decoder -----

  /** `bytes.find(b"\n")`. */
  method Find(bytes: seq<Byte>) returns (boundary: int)
    ensures boundary == -1 ==> NoNewline(bytes)
    ensures boundary != -1 ==>
        0 <= boundary < |bytes| && bytes[boundary] == NEWLINE_BYTE && NoNewline(bytes[..boundary])
  {
    for i := 0 to |bytes|
      invariant NoNewline(bytes[..i])
    {
      if bytes[i] == NEWLINE_BYTE {
        return i;
      }
    }
    assert bytes[..|bytes|] == bytes;
    return -1;
  }

  class NDJSONDecoder {
    const decode: FrameDecoder
    var buffer: seq<Byte>
    var discardingOversizedFrame: bool
    /** Everything fed so far. */
    ghost var stream: seq<Byte>

    /** The buffer holds the unfinished frame, unless that frame is too long and is being discarded. */
    ghost predicate Valid()
      reads this
    {
      && (discardingOversizedFrame <==> |Tail(stream)| > MAX_REQUEST_FRAME_BYTES)
      && buffer == if discardingOversizedFrame then [] else Tail(stream)
    }

    constructor (decode: FrameDecoder)
      ensures Valid() && stream == [] && this.decode == decode
    {
      this.decode := decode;
      buffer, discardingOversizedFrame, stream := [], false, [];
    }

    /** Feeding returns exactly what the longer stream's outputs have more. */
    method Feed(data: seq<Byte>) returns (decoded: seq<Decoded>)
      requires Valid()
      modifies this
      ensures Valid() && stream == old(stream) + data
      ensures Outputs(decode, stream) == Outputs(decode, old(stream)) + decoded
      ensures |buffer| <= MAX_REQUEST_FRAME_BYTES && (discardingOversizedFrame ==> buffer == [])
    {
      decoded := [];
      var remaining := data;
      ghost var start, added := stream, [];
      while remaining != []
        invariant Valid() && Consumed(start, data, stream, remaining, added) && decoded == Replies(decode, added)
        decreases |remaining|
      {
        if discardingOversizedFrame {
          var boundary := Find(remaining);
          if boundary < 0 {
            ConsumeAll(start, data, stream, remaining, added);
            stream, remaining := stream + remaining, [];
            break;
          }
          ConsumeFrame(start, data, stream, remaining, added, boundary);
          stream := stream + remaining[..boundary] + [NEWLINE_BYTE];
          discardingOversizedFrame := false;
          remaining := remaining[boundary + 1..];
          continue;
        }
        var boundary := Find(remaining);
        if boundary < 0 {
          ConsumeAll(start, data, stream, remaining, added);
          stream := stream + remaining;
          var capacity := MAX_REQUEST_FRAME_BYTES - |buffer|;
          if |remaining| > capacity {
            buffer := [];
            discardingOversizedFrame := true;
            RepliesNext(decode, added, TooLong);
            decoded, added := decoded + [TOO_LARGE], added + [TooLong];
            remaining := [];
            break;
          }
          buffer := buffer + remaining;
          remaining := [];
          break;
        }
        ConsumeFrame(start, data, stream, remaining, added, boundary);
        stream := stream + remaining[..boundary] + [NEWLINE_BYTE];
        if |buffer| + boundary > MAX_REQUEST_FRAME_BYTES {
          buffer := [];
          RepliesNext(decode, added, TooLong);
          decoded, added := decoded + [TOO_LARGE], added + [TooLong];
          remaining := remaining[boundary + 1..];
          continue;
        }
        buffer := buffer + remaining[..boundary];
        var frame := buffer;
        buffer := [];
        RepliesNext(decode, added, Frame(frame));
        decoded, added := decoded + [decode(frame)], added + [Frame(frame)];
        remaining := remaining[boundary + 1..];
      }
      ConsumedOutputs(decode, start, data, stream, added);
    }
  }

  // ----- chunking -----

  function Concat(chunks: seq<seq<Byte>>): seq<Byte>
  {
    if chunks == [] then [] else Concat(chunks[..|chunks| - 1]) + chunks[|chunks| - 1]
  }

  /** A fresh decoder's outputs depend on the bytes it was fed, not on how they were cut. */
  method FeedAll(decode: FrameDecoder, chunks: seq<seq<Byte>>) returns (decoded: seq<Decoded>)
    ensures decoded == Outputs(decode, Concat(chunks))
  {
    var decoder := new NDJSONDecoder(decode);
    decoded := [];
    for i := 0 to |chunks|
      invariant decoder.Valid() && decoder.stream == Concat(chunks[..i]) && decoded == Outputs(decode, decoder.stream)
    {
      assert chunks[..i + 1][..i] == chunks[..i];
      var more := decoder.Feed(chunks[i]);
      decoded := decoded + more;
    }
    assert chunks[..|chunks|] == chunks;
  }

  // ----- the encoder's stream -----

  /** After whole frames, `encoded` makes the decoder return exactly `request`. */
  ghost predicate Arrives(decode: FrameDecoder, encoded: seq<Byte>, request: Request)
  {
    forall stream {:trigger Outputs(decode, stream + encoded)} ::
      Tail(stream) == [] ==>
        Tail(stream + encoded) == [] && Outputs(decode, stream + encoded) == Outputs(decode, stream) + [Ok(request)]
  }

  lemma FrameArrives(decode: FrameDecoder, encoded: seq<Byte>, frame: seq<Byte>, request: Request)
    requires NoNewline(frame) && encoded == frame + [NEWLINE_BYTE] && |frame| <= MAX_REQUEST_FRAME_BYTES
    requires decode(frame) == Ok(request)
    ensures Arrives(decode, encoded, request)
  {
    forall stream | Tail(stream) == []
      ensures Tail(stream + encoded) == []
          && Outputs(decode, stream + encoded) == Outputs(decode, stream) + [Ok(request)]
    {
      EventsEnd(stream, frame);
      assert Tail(stream) + frame == frame;
      assert stream + frame + [NEWLINE_BYTE] == stream + encoded;
      RepliesNext(decode, Events(stream), Frame(frame));
    }
  }

  lemma EncodingArrives(request: Request, encoded: seq<Byte>)
    requires EncodeRequest(request) == Some(encoded) && |encoded| <= MAX_REQUEST_FRAME_BYTES + 1
    ensures Arrives(DecodeFrame, encoded, request)
  {
    var frame := RequestFrame(request);
    FrameArrives(DecodeFrame, encoded, frame, request);
  }

  function Accepted(requests: seq<Request>): seq<Decoded>
  {
    seq(|requests|, i requires 0 <= i < |requests| => Ok(requests[i]))
  }

  lemma {:induction false} StreamRoundTrip(decode: FrameDecoder, requests: seq<Request>, encodings: seq<seq<Byte>>)
    requires |encodings| == |requests| && forall i :: 0 <= i < |requests| ==> Arrives(decode, encodings[i], requests[i])
    ensures Tail(Concat(encodings)) == [] && Outputs(decode, Concat(encodings)) == Accepted(requests)
    decreases |requests|
  {
    if requests == [] {
    } else {
      var n := |requests| - 1;
      StreamRoundTrip(decode, requests[..n], encodings[..n]);
      assert Arrives(decode, encodings[n], requests[n]);
      var before := Concat(encodings[..n]);
      assert Outputs(decode, before + encodings[n]) == Outputs(decode, before) + [Ok(requests[n])];
      assert Accepted(requests) == Accepted(requests[..n]) + [Ok(requests[n])];
    }
  }

  /** Requests whose encodings fit the limit arrive exactly as they were sent, however the stream of
      their encodings is cut into chunks. */
  method SendAndReceive(requests: seq<Request>, encodings: seq<seq<Byte>>, chunks: seq<seq<Byte>>)
      returns (decoded: seq<Decoded>)
    requires |encodings| == |requests|
    requires forall i :: 0 <= i < |requests| ==>
      EncodeRequest(requests[i]) == Some(encodings[i]) && |encodings[i]| <= MAX_REQUEST_FRAME_BYTES + 1
    requires Concat(chunks) == Concat(encodings)
    ensures |decoded| == |requests| && forall i :: 0 <= i < |requests| ==> decoded[i] == Ok(requests[i])
  {
    forall i | 0 <= i < |requests| ensures Arrives(DecodeFrame, encodings[i], requests[i]) {
      EncodingArrives(requests[i], encodings[i]);
    }
    StreamRoundTrip(DecodeFrame, requests, encodings);
    decoded := FeedAll(DecodeFrame, chunks);
  }
}
