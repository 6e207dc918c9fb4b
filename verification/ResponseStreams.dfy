/** What the relay makes of the frames of one response, and of many responses whose frames
    share one channel. */
module ResponseStreams {
  import opened Options
  import opened Base64
  import opened ResponseFraming

  // ---------------------------------------------------------------- reading one response

  /** What a receiver has of one response. */
  datatype Received = Received(status: nat, body: Bytes)

  /** The response that a receiver puts together: the status of the start frame with the inline body,
      or with the chunks up to the one marked `last`, which must be the final frame. */
  function Reassembled(frames: seq<Frame>): Option<Received> {
    if frames == [] || !frames[0].ResponseStart? then None
    else
      var body := if !frames[0].complete then Tail(frames[1..])
                  else if |frames| > 1 then None
                  else if frames[0].body.None? then Some([])
                  else Decode(frames[0].body.value);
      if body.None? then None else Some(Received(frames[0].status, body.value))
  }

  function Tail(frames: seq<Frame>): Option<Bytes> {
    if frames == [] || !frames[0].ResponseBody? then None
    else
      var head := Decode(frames[0].chunk);
      if head.None? then None
      else if frames[0].last then (if |frames| == 1 then head else None)
      else
        var rest := Tail(frames[1..]);
        if rest.None? then None else Some(head.value + rest.value)
  }

  predicate FitsOneFrame(frame: Frame) {
    match frame
    case ResponseStart(_, _, _, body) => body.Some? ==> |body.value| <= MAX_FRAME_BYTES
    case ResponseBody(_, chunk, _) => |chunk| <= MAX_FRAME_BYTES
  }

  /** A run of chunks without a `last` one. */
  predicate Block(id: nat, frames: seq<Frame>) {
    forall i :: 0 <= i < |frames| ==>
      frames[i].ResponseBody? && frames[i].id == id && !frames[i].last && FitsOneFrame(frames[i])
  }

  /** Chunks of which exactly the final one is `last`. */
  predicate Chunked(id: nat, frames: seq<Frame>) {
    && frames != []
    && forall i :: 0 <= i < |frames| ==>
         frames[i].ResponseBody? && frames[i].id == id && FitsOneFrame(frames[i])
         && (frames[i].last <==> i == |frames| - 1)
  }

  lemma Fits(bytes: Bytes)
    requires |bytes| <= RAW_CHUNK
    ensures |Encode(bytes)| <= MAX_FRAME_BYTES
  {
  }

  lemma PrependPiece(id: nat, bytes: Bytes, rest: seq<Frame>)
    requires |bytes| <= RAW_CHUNK
    requires Tail(rest).Some?
    ensures Tail([Piece(id, bytes, false)] + rest) == Some(bytes + Tail(rest).value)
  {
    RoundTrip(bytes);
    assert ([Piece(id, bytes, false)] + rest)[1..] == rest;
  }

  lemma PieceThenBlock(id: nat, bytes: Bytes, block: seq<Frame>)
    requires |bytes| <= RAW_CHUNK && Block(id, block)
    ensures Block(id, [Piece(id, bytes, false)] + block)
  {
    Fits(bytes);
  }

  lemma {:induction false} SlicesAreBlock(id: nat, bytes: Bytes)
    ensures Block(id, Slices(id, bytes, false))
    decreases |bytes|
  {
    if bytes == [] {
    } else if |bytes| <= RAW_CHUNK {
      PieceThenBlock(id, bytes, []);
    } else {
      SlicesAreBlock(id, bytes[RAW_CHUNK..]);
      PieceThenBlock(id, bytes[..RAW_CHUNK], Slices(id, bytes[RAW_CHUNK..], false));
    }
  }

  lemma {:induction false} FullPiecesAreBlock(id: nat, bytes: Bytes)
    ensures Block(id, FullPieces(id, bytes))
    decreases |bytes|
  {
    if |bytes| >= RAW_CHUNK {
      FullPiecesAreBlock(id, bytes[RAW_CHUNK..]);
      PieceThenBlock(id, bytes[..RAW_CHUNK], FullPieces(id, bytes[RAW_CHUNK..]));
    }
  }

  /** Reading `frames` gives `bytes` and then what reading `rest` gives. */
  ghost predicate Yields(frames: seq<Frame>, bytes: Bytes, rest: seq<Frame>) {
    Tail(rest).Some? && Tail(frames + rest) == Some(bytes + Tail(rest).value)
  }

  lemma YieldsNothing(rest: seq<Frame>)
    requires Tail(rest).Some?
    ensures Yields([], [], rest)
  {
    assert [] + rest == rest;
    assert [] + Tail(rest).value == Tail(rest).value;
  }

  lemma YieldsPiece(id: nat, head: Bytes, more: Bytes, block: seq<Frame>, rest: seq<Frame>)
    requires |head| <= RAW_CHUNK && Yields(block, more, rest)
    ensures Yields([Piece(id, head, false)] + block, head + more, rest)
  {
    PrependPiece(id, head, block + rest);
    assert ([Piece(id, head, false)] + block) + rest == [Piece(id, head, false)] + (block + rest);
    assert head + (more + Tail(rest).value) == (head + more) + Tail(rest).value;
  }

  lemma {:induction false} SlicesYield(id: nat, bytes: Bytes, rest: seq<Frame>)
    requires Tail(rest).Some?
    ensures Yields(Slices(id, bytes, false), bytes, rest)
    decreases |bytes|
  {
    YieldsNothing(rest);
    if bytes == [] {
    } else if |bytes| <= RAW_CHUNK {
      YieldsPiece(id, bytes, [], [], rest);
      assert bytes + [] == bytes && [Piece(id, bytes, false)] + [] == Slices(id, bytes, false);
    } else {
      var head, more := bytes[..RAW_CHUNK], bytes[RAW_CHUNK..];
      SlicesYield(id, more, rest);
      YieldsPiece(id, head, more, Slices(id, more, false), rest);
      assert head + more == bytes;
    }
  }

  /** What the full pieces of `bytes` carry: all but `Rest(bytes)`. */
  function Front(bytes: Bytes): Bytes {
    if |bytes| < RAW_CHUNK then [] else bytes[..RAW_CHUNK] + Front(bytes[RAW_CHUNK..])
  }

  lemma Joins(head: Bytes, front: Bytes, rest: Bytes, more: Bytes, bytes: Bytes)
    requires head + more == bytes && front + rest == more
    ensures (head + front) + rest == bytes
  {
  }

  lemma {:induction false} FrontAndRest(bytes: Bytes)
    ensures Front(bytes) + Rest(bytes) == bytes && |Rest(bytes)| < RAW_CHUNK
    decreases |bytes|
  {
    if |bytes| >= RAW_CHUNK {
      var head, more := bytes[..RAW_CHUNK], bytes[RAW_CHUNK..];
      FrontAndRest(more);
      Joins(head, Front(more), Rest(more), more, bytes);
    }
  }

  lemma {:induction false} FullPiecesYield(id: nat, bytes: Bytes, rest: seq<Frame>)
    requires Tail(rest).Some?
    ensures Yields(FullPieces(id, bytes), Front(bytes), rest)
    decreases |bytes|
  {
    YieldsNothing(rest);
    if |bytes| >= RAW_CHUNK {
      FullPiecesYield(id, bytes[RAW_CHUNK..], rest);
      YieldsPiece(id, bytes[..RAW_CHUNK], Front(bytes[RAW_CHUNK..]), FullPieces(id, bytes[RAW_CHUNK..]), rest);
    }
  }

  lemma BlockThenChunked(id: nat, block: seq<Frame>, frames: seq<Frame>)
    requires Block(id, block) && Chunked(id, frames)
    ensures Chunked(id, block + frames)
  {
  }

  lemma FinalPiece(id: nat, bytes: Bytes)
    requires |bytes| <= RAW_CHUNK
    ensures Chunked(id, [Piece(id, bytes, true)]) && Tail([Piece(id, bytes, true)]) == Some(bytes)
  {
    Fits(bytes);
    RoundTrip(bytes);
  }

  /** Full pieces that carry `front`, and then frames that carry `left` and `more`. */
  lemma ChunksJoin(id: nat, block: seq<Frame>, rest: seq<Frame>, front: Bytes, left: Bytes, more: Bytes)
    requires Block(id, block) && Chunked(id, rest)
    requires Yields(block, front, rest) && Tail(rest) == Some(left + more)
    ensures Chunked(id, block + rest) && Tail(block + rest) == Some(front + left + more)
  {
    BlockThenChunked(id, block, rest);
    assert front + (left + more) == front + left + more;
  }

  /** The full pieces of `buffer`, and then frames that carry what is left of it and `more`. */
  lemma BufferThenRest(id: nat, buffer: Bytes, rest: seq<Frame>, more: Bytes)
    requires Chunked(id, rest) && Tail(rest) == Some(Rest(buffer) + more)
    ensures Chunked(id, FullPieces(id, buffer) + rest)
    ensures Tail(FullPieces(id, buffer) + rest) == Some(buffer + more)
  {
    FrontAndRest(buffer);
    FullPiecesAreBlock(id, buffer);
    FullPiecesYield(id, buffer, rest);
    ChunksJoin(id, FullPieces(id, buffer), rest, Front(buffer), Rest(buffer), more);
  }

  /** `frames` is a complete run of chunks that carries `bytes`. */
  ghost predicate Carries(id: nat, frames: seq<Frame>, bytes: Bytes) {
    Chunked(id, frames) && Tail(frames) == Some(bytes)
  }

  lemma PieceThenCarries(id: nat, head: Bytes, rest: seq<Frame>, more: Bytes)
    requires |head| <= RAW_CHUNK && Carries(id, rest, more)
    ensures Carries(id, [Piece(id, head, false)] + rest, head + more)
  {
    PieceThenBlock(id, head, []);
    BlockThenChunked(id, [Piece(id, head, false)], rest);
    PrependPiece(id, head, rest);
  }

  lemma NothingCarries(id: nat)
    ensures Carries(id, [ResponseBody(id, "", true)], [])
  {
  }

  /** With `last` set the slices are a whole body: they read back as `bytes`, even when it is empty. */
  lemma {:induction false} LastSlicesCarry(id: nat, bytes: Bytes)
    ensures Carries(id, Slices(id, bytes, true), bytes)
    decreases |bytes|
  {
    if bytes == [] {
      NothingCarries(id);
    } else if |bytes| <= RAW_CHUNK {
      FinalPiece(id, bytes);
    } else {
      var more := bytes[RAW_CHUNK..];
      var rest := Slices(id, more, true);
      LastSlicesCarry(id, more);
      PieceThenCarries(id, bytes[..RAW_CHUNK], rest, more);
      assert bytes[..RAW_CHUNK] + more == bytes;
      assert Slices(id, bytes, true) == [Piece(id, bytes[..RAW_CHUNK], false)] + rest;
    }
  }

  lemma LastCarries(id: nat, pending: Bytes)
    requires |pending| < RAW_CHUNK
    ensures Carries(id, Streamed(id, pending, []), pending)
  {
    FinalPiece(id, pending);
  }

  lemma NextCarries(id: nat, pending: Bytes, parts: seq<Bytes>, more: Bytes)
    requires parts != []
    requires Carries(id, Streamed(id, Rest(pending + parts[0]), parts[1..]), Rest(pending + parts[0]) + more)
    ensures Carries(id, Streamed(id, pending, parts), pending + parts[0] + more)
  {
    var buffer := pending + parts[0];
    BufferThenRest(id, buffer, Streamed(id, Rest(buffer), parts[1..]), more);
  }

  lemma {:induction false} StreamedCarries(id: nat, pending: Bytes, parts: seq<Bytes>)
    requires |pending| < RAW_CHUNK
    ensures Carries(id, Streamed(id, pending, parts), pending + Concat(parts))
    decreases |parts|
  {
    if parts == [] {
      LastCarries(id, pending);
      assert pending + [] == pending;
    } else {
      var left := Rest(pending + parts[0]);
      FrontAndRest(pending + parts[0]);
      StreamedCarries(id, left, parts[1..]);
      NextCarries(id, pending, parts, Concat(parts[1..]));
      assert pending + parts[0] + Concat(parts[1..]) == pending + Concat(parts);
    }
  }

  lemma StreamedShape(id: nat, pending: Bytes, parts: seq<Bytes>)
    requires |pending| < RAW_CHUNK
    ensures Chunked(id, Streamed(id, pending, parts))
    ensures Tail(Streamed(id, pending, parts)) == Some(pending + Concat(parts))
  {
    StreamedCarries(id, pending, parts);
  }

  /** The stream of one response: a start frame with its status; then nothing more, exactly when the body is
      no event stream and fits, or chunks of which exactly the final one is `last`. Every piece
      fits one frame, and the pieces are the body. */
  ghost predicate WellFramed(id: nat, status: nat, sse: bool, frames: seq<Frame>, body: Bytes) {
    && frames != [] && frames[0].ResponseStart? && frames[0].id == id && FitsOneFrame(frames[0])
    && frames[0].status == status
    && (frames[0].complete <==> !sse && |body| <= RAW_CHUNK)
    && (if frames[0].complete then |frames| == 1 else Chunked(id, frames[1..]))
    && Reassembled(frames) == Some(Received(status, body))
  }

  lemma StreamIsWellFramed(id: nat, status: nat, sse: bool, chunks: seq<Frame>, body: Bytes)
    requires Chunked(id, chunks) && Tail(chunks) == Some(body) && (sse || |body| > RAW_CHUNK)
    ensures WellFramed(id, status, sse, [ResponseStart(id, status, false, None)] + chunks, body)
  {
    assert ([ResponseStart(id, status, false, None)] + chunks)[1..] == chunks;
  }

  lemma InlineIsWellFramed(id: nat, status: nat, buf: Bytes)
    requires |buf| <= RAW_CHUNK
    ensures WellFramed(id, status, false, [Inline(id, status, buf)], buf)
  {
    Fits(buf);
    RoundTrip(buf);
  }

  lemma OverflowShape(id: nat, buf: Bytes, data: Bytes, parts: seq<Bytes>)
    ensures
      var chunks := Slices(id, buf, false) + (Slices(id, data, false) + Streamed(id, [], parts));
      Chunked(id, chunks) && Tail(chunks) == Some(buf + (data + Concat(parts)))
  {
    var rest := Streamed(id, [], parts);
    var a, b := Slices(id, buf, false), Slices(id, data, false);
    StreamedShape(id, [], parts);
    assert [] + Concat(parts) == Concat(parts);
    SlicesAreBlock(id, buf);
    SlicesAreBlock(id, data);
    SlicesYield(id, data, rest);
    SlicesYield(id, buf, b + rest);
    BlockThenChunked(id, b, rest);
    BlockThenChunked(id, a, b + rest);
  }

  lemma OverflowIsWellFramed(id: nat, status: nat, buf: Bytes, data: Bytes, parts: seq<Bytes>)
    requires |buf| + |data| > RAW_CHUNK
    ensures WellFramed(id, status, false,
      [ResponseStart(id, status, false, None)] + Slices(id, buf, false) + Slices(id, data, false)
        + Streamed(id, [], parts),
      buf + (data + Concat(parts)))
  {
    OverflowShape(id, buf, data, parts);
    StartThenThree(id, status, Slices(id, buf, false), Slices(id, data, false), Streamed(id, [], parts),
      buf + (data + Concat(parts)));
  }

  lemma StartThenThree(id: nat, status: nat, a: seq<Frame>, b: seq<Frame>, c: seq<Frame>, body: Bytes)
    requires Chunked(id, a + (b + c)) && Tail(a + (b + c)) == Some(body) && |body| > RAW_CHUNK
    ensures WellFramed(id, status, false, [ResponseStart(id, status, false, None)] + a + b + c, body)
  {
    var start := [ResponseStart(id, status, false, None)];
    StreamIsWellFramed(id, status, false, a + (b + c), body);
    assert start + a + b + c == start + (a + (b + c));
  }

  lemma {:induction false} BufferedShape(id: nat, status: nat, buf: Bytes, parts: seq<Bytes>, body: Bytes)
    requires |buf| <= RAW_CHUNK && body == buf + Concat(parts)
    ensures WellFramed(id, status, false, Buffered(id, status, buf, parts), body)
    decreases |parts|
  {
    if parts == [] {
      InlineIsWellFramed(id, status, buf);
      assert body == buf;
    } else {
      var data, rest := parts[0], parts[1..];
      assert parts == [data] + rest && body == buf + (data + Concat(rest));
      if |buf| + |data| > RAW_CHUNK {
        BufferedOverflows(id, status, buf, data, rest, body);
      } else {
        assert body == (buf + data) + Concat(rest);
        BufferedShape(id, status, buf + data, rest, body);
        BufferStep(id, status, buf, data, rest);
      }
    }
  }

  lemma BufferedOverflows(id: nat, status: nat, buf: Bytes, data: Bytes, rest: seq<Bytes>, body: Bytes)
    requires |buf| + |data| > RAW_CHUNK && body == buf + (data + Concat(rest))
    ensures WellFramed(id, status, false, Buffered(id, status, buf, [data] + rest), body)
  {
    BufferStep(id, status, buf, data, rest);
    OverflowIsWellFramed(id, status, buf, data, rest);
  }

  /** However a body is split into data frames, the frames sent for it are well framed. */
  lemma FramesShape(id: nat, status: nat, sse: bool, parts: seq<Bytes>)
    ensures WellFramed(id, status, sse, Frames(id, status, sse, parts), Concat(parts))
  {
    if sse {
      StreamedShape(id, [], parts);
      assert Frames(id, status, sse, parts)[1..] == Streamed(id, [], parts);
      assert [] + Concat(parts) == Concat(parts);
    } else {
      assert [] + Concat(parts) == Concat(parts);
      BufferedShape(id, status, [], parts, Concat(parts));
    }
  }

  /** A cut-off stream is never mistaken for a whole one. */
  lemma {:induction false} ProperPrefixIsIncomplete(id: nat, frames: seq<Frame>, n: nat)
    requires Chunked(id, frames) && n < |frames|
    ensures Tail(frames[..n]).None?
    decreases n
  {
    if n > 0 {
      assert frames[..n][1..] == frames[1..][..n - 1];
      ProperPrefixIsIncomplete(id, frames[1..], n - 1);
    }
  }

  lemma CutOffIsIncomplete(id: nat, status: nat, sse: bool, parts: seq<Bytes>, n: nat)
    requires n < |Frames(id, status, sse, parts)|
    ensures Reassembled(Frames(id, status, sse, parts)[..n]).None?
  {
    var frames := Frames(id, status, sse, parts);
    FramesShape(id, status, sse, parts);
    if n > 0 {
      assert !frames[0].complete;
      ProperPrefixIsIncomplete(id, frames[1..], n - 1);
      assert frames[..n][1..] == frames[1..][..n - 1];
    }
  }

  // ---------------------------------------------------------------- many writers, one channel

  /** What each writer has to send, by request id; a writer's frames all carry its id. */
  ghost predicate OwnStreams(streams: map<nat, seq<Frame>>) {
    forall id :: id in streams ==> forall i :: 0 <= i < |streams[id]| ==> streams[id][i].id == id
  }

  /** How often `id` was scheduled. */
  function Turns(schedule: seq<nat>, id: nat): nat {
    if schedule == [] then 0
    else Turns(schedule[..|schedule| - 1], id) + (if schedule[|schedule| - 1] == id then 1 else 0)
  }

  /** The channel after a schedule of single sends: each turn appends the writer's next frame;
      a writer that is done, or unknown, sends nothing. */
  function Channel(streams: map<nat, seq<Frame>>, schedule: seq<nat>): seq<Frame> {
    if schedule == [] then []
    else
      var before, id := schedule[..|schedule| - 1], schedule[|schedule| - 1];
      Channel(streams, before)
      + (if id in streams && Turns(before, id) < |streams[id]| then [streams[id][Turns(before, id)]] else [])
  }

  function Project(frames: seq<Frame>, id: nat): seq<Frame> {
    if frames == [] then []
    else Project(frames[..|frames| - 1], id) + (if frames[|frames| - 1].id == id then [frames[|frames| - 1]] else [])
  }

  lemma ProjectAppend(frames: seq<Frame>, more: seq<Frame>, id: nat)
    requires |more| <= 1
    ensures Project(frames + more, id) == Project(frames, id) + (if |more| == 1 && more[0].id == id then more else [])
  {
    if |more| == 1 {
      assert (frames + more)[..|frames + more| - 1] == frames;
    } else {
      assert frames + more == frames;
    }
  }

  /** For every interleaving of the writers, the frames of one id are exactly what its own
      writer sent, in order. */
  lemma {:induction false} ProjectionIsOwnStream(streams: map<nat, seq<Frame>>, schedule: seq<nat>, id: nat)
    requires OwnStreams(streams) && id in streams
    ensures Project(Channel(streams, schedule), id)
      == streams[id][..if Turns(schedule, id) < |streams[id]| then Turns(schedule, id) else |streams[id]|]
    decreases |schedule|
  {
    if schedule != [] {
      var before, turn := schedule[..|schedule| - 1], schedule[|schedule| - 1];
      ProjectionIsOwnStream(streams, before, id);
      var more :=
        if turn in streams && Turns(before, turn) < |streams[turn]| then [streams[turn][Turns(before, turn)]] else [];
      ProjectAppend(Channel(streams, before), more, id);
      if |more| == 1 { assert more[0].id == turn; }
    }
  }

  /** A response to be sent. */
  datatype Response = Response(status: nat, sse: bool, parts: seq<Bytes>)

  ghost function Streams(responses: map<nat, Response>): map<nat, seq<Frame>> {
    map id | id in responses :: Frames(id, responses[id].status, responses[id].sse, responses[id].parts)
  }

  lemma FramesCarryTheirId(id: nat, r: Response)
    ensures forall i :: 0 <= i < |Frames(id, r.status, r.sse, r.parts)| ==>
      Frames(id, r.status, r.sse, r.parts)[i].id == id
  {
    var frames := Frames(id, r.status, r.sse, r.parts);
    FramesShape(id, r.status, r.sse, r.parts);
    forall i | 0 <= i < |frames| ensures frames[i].id == id {
      if i > 0 { assert frames[i] == frames[1..][i - 1]; }
    }
  }

  /** Demultiplexing by id gives back the status and the body of every response whose writer has sent
      its whole stream, and nothing for a writer that has not. */
  lemma DemuxRecoversBodies(responses: map<nat, Response>, schedule: seq<nat>, id: nat)
    requires id in responses
    ensures
      var r := responses[id];
      Reassembled(Project(Channel(Streams(responses), schedule), id))
        == if Turns(schedule, id) >= |Frames(id, r.status, r.sse, r.parts)|
           then Some(Received(r.status, Concat(r.parts))) else None
  {
    var r := responses[id];
    var streams: map<nat, seq<Frame>> := Streams(responses);
    var own := Frames(id, r.status, r.sse, r.parts);
    forall j: nat | j in streams ensures forall i :: 0 <= i < |streams[j]| ==> streams[j][i].id == j {
      FramesCarryTheirId(j, responses[j]);
    }
    ProjectionIsOwnStream(streams, schedule, id);
    FramesShape(id, r.status, r.sse, r.parts);
    if Turns(schedule, id) < |own| {
      CutOffIsIncomplete(id, r.status, r.sse, r.parts, Turns(schedule, id));
    } else {
      assert own[..|own|] == own;
    }
  }
}
