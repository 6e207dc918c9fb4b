/** How one response becomes frames on the shared channel (`write_response`, `stream_body`,
    `send_chunks` in `session.rs`). */
module ResponseFraming {
  import opened Options
  import opened Base64

  const MAX_FRAME_BYTES: nat := 256 * 1024
  const RAW_CHUNK: nat := MAX_FRAME_BYTES / 4 * 3

  type Bytes = seq<byte>

  datatype Frame =
    | ResponseStart(id: nat, status: nat, complete: bool, body: Option<string>)
    | ResponseBody(id: nat, chunk: string, last: bool)

  /** What one poll of the response body yields, and whether the request is cancelled by then. */
  datatype Event = Data(bytes: Bytes) | Trailers | Fault
  datatype Poll = Poll(event: Event, cancelled: bool)

  datatype Outcome = Finished | Cancelled | Failed

  /** One writer's view of the outgoing channel: what it sent, and how many more frames the
      channel takes before the session drops the other end. */
  class Outbound {
    var sent: seq<Frame>
    var room: nat

    constructor (room: nat)
      ensures sent == [] && this.room == room
    {
      sent := [];
      this.room := room;
    }

    method SendFrame(frame: Frame) returns (ok: bool)
      modifies this
      ensures ok <==> old(room) > 0
      ensures ok ==> sent == old(sent) + [frame] && room == old(room) - 1
      ensures !ok ==> sent == old(sent) && room == old(room)
    {
      ok := room > 0;
      if ok {
        sent := sent + [frame];
        room := room - 1;
      }
    }
  }

  // ---------------------------------------------------------------- the frames of a whole body

  /** The data frames among the polls. */
  function Datas(polls: seq<Poll>): seq<Bytes> {
    if polls == [] then []
    else if polls[0].event.Data? then [polls[0].event.bytes] + Datas(polls[1..])
    else Datas(polls[1..])
  }

  function Concat(parts: seq<Bytes>): Bytes {
    if parts == [] then [] else parts[0] + Concat(parts[1..])
  }

  function Piece(id: nat, bytes: Bytes, last: bool): Frame {
    ResponseBody(id, Encode(bytes), last)
  }

  /** `send_chunks`: slices of `RAW_CHUNK`, the final one possibly shorter; with `last` set the
      final one says so, and stands alone and empty when there is nothing to slice. */
  function Slices(id: nat, bytes: Bytes, last: bool): seq<Frame> {
    if bytes == [] then if last then [ResponseBody(id, "", true)] else []
    else if |bytes| <= RAW_CHUNK then [Piece(id, bytes, last)]
    else [Piece(id, bytes[..RAW_CHUNK], false)] + Slices(id, bytes[RAW_CHUNK..], last)
  }

  /** The full pieces at the front of `bytes`, and what stays buffered. */
  function FullPieces(id: nat, bytes: Bytes): seq<Frame> {
    if |bytes| < RAW_CHUNK then []
    else [Piece(id, bytes[..RAW_CHUNK], false)] + FullPieces(id, bytes[RAW_CHUNK..])
  }

  function Rest(bytes: Bytes): Bytes {
    if |bytes| < RAW_CHUNK then bytes else Rest(bytes[RAW_CHUNK..])
  }

  /** `stream_body` with `pending` buffered and `parts` still to come. */
  function Streamed(id: nat, pending: Bytes, parts: seq<Bytes>): seq<Frame>
    decreases |parts|
  {
    if parts == [] then [Piece(id, pending, true)]
    else FullPieces(id, pending + parts[0]) + Streamed(id, Rest(pending + parts[0]), parts[1..])
  }

  function Inline(id: nat, status: nat, buf: Bytes): Frame {
    ResponseStart(id, status, true, if buf == [] then None else Some(Encode(buf)))
  }

  /** `write_response` of a body that is no event stream, with `buf` buffered. */
  function Buffered(id: nat, status: nat, buf: Bytes, parts: seq<Bytes>): seq<Frame>
    decreases |parts|
  {
    if parts == [] then [Inline(id, status, buf)]
    else if |buf| + |parts[0]| > RAW_CHUNK then
      [ResponseStart(id, status, false, None)] + Slices(id, buf, false) + Slices(id, parts[0], false)
        + Streamed(id, [], parts[1..])
    else Buffered(id, status, buf + parts[0], parts[1..])
  }

  /** Every frame of a response whose body arrives in `parts`. */
  function Frames(id: nat, status: nat, sse: bool, parts: seq<Bytes>): seq<Frame> {
    if sse then [ResponseStart(id, status, false, None)] + Streamed(id, [], parts)
    else Buffered(id, status, [], parts)
  }

  // ---------------------------------------------------------------- the loops

  predicate Undisturbed(polls: seq<Poll>) {
    forall i :: 0 <= i < |polls| ==> !polls[i].cancelled && !polls[i].event.Fault?
  }

  /** `sent` is `before` and a part of `whole`, of which `todo` is still missing. */
  ghost predicate Progress(before: seq<Frame>, whole: seq<Frame>, sent: seq<Frame>, todo: seq<Frame>) {
    |before| <= |sent| && sent + todo == before + whole
  }

  lemma Advance(before: seq<Frame>, whole: seq<Frame>, sent: seq<Frame>, frame: Frame, todo: seq<Frame>)
    requires Progress(before, whole, sent, [frame] + todo)
    ensures Progress(before, whole, sent + [frame], todo)
  {
    assert sent + ([frame] + todo) == (sent + [frame]) + todo;
  }

  lemma PartIsPrefix(before: seq<Frame>, whole: seq<Frame>, sent: seq<Frame>, todo: seq<Frame>)
    requires Progress(before, whole, sent, todo)
    ensures before <= sent <= before + whole
    ensures |sent| + |todo| == |before| + |whole|
  {
    assert forall i :: 0 <= i < |before| ==> sent[i] == (sent + todo)[i] == (before + whole)[i] == before[i];
  }

  lemma SliceStep(id: nat, bytes: Bytes, last: bool, offset: nat, end: nat)
    requires offset < |bytes| && end == if offset + RAW_CHUNK < |bytes| then offset + RAW_CHUNK else |bytes|
    ensures Slices(id, bytes[offset..], last) ==
      [Piece(id, bytes[offset..end], last && end == |bytes|)] + SlicesFrom(id, bytes, last, end)
  {
    var rest := bytes[offset..];
    assert bytes[offset..end] == rest[..end - offset];
    if |rest| <= RAW_CHUNK {
      assert rest[..end - offset] == rest && bytes[end..] == [];
    } else {
      assert rest[RAW_CHUNK..] == bytes[end..];
    }
  }

  /** What is left to send when the loop stands at `offset`. */
  function SlicesFrom(id: nat, bytes: Bytes, last: bool, offset: nat): seq<Frame>
    requires offset <= |bytes|
  {
    if offset == |bytes| then [] else Slices(id, bytes[offset..], last)
  }

  method SendChunks(id: nat, bytes: Bytes, last: bool, out: Outbound) returns (ok: bool)
    modifies out
    ensures old(out.sent) <= out.sent <= old(out.sent) + Slices(id, bytes, last)
    ensures out.room + |out.sent| == old(out.room) + |old(out.sent)|
    ensures ok ==> out.sent == old(out.sent) + Slices(id, bytes, last)
    ensures !ok ==> out.room == 0 && |out.sent| < |old(out.sent)| + |Slices(id, bytes, last)|
  {
    if bytes == [] {
      if last { ok := out.SendFrame(ResponseBody(id, "", true)); } else { ok := true; }
      return;
    }
    ghost var whole := Slices(id, bytes, last);
    var offset := 0;
    assert bytes[0..] == bytes;
    while offset < |bytes|
      invariant offset <= |bytes|
      invariant Progress(old(out.sent), whole, out.sent, SlicesFrom(id, bytes, last, offset))
      invariant out.room + |out.sent| == old(out.room) + |old(out.sent)|
    {
      var end := if offset + RAW_CHUNK < |bytes| then offset + RAW_CHUNK else |bytes|;
      var piece := Piece(id, bytes[offset..end], last && end == |bytes|);
      SliceStep(id, bytes, last, offset, end);
      Advance(old(out.sent), whole, out.sent, piece, SlicesFrom(id, bytes, last, end));
      PartIsPrefix(old(out.sent), whole, out.sent, [piece] + SlicesFrom(id, bytes, last, end));
      var sent := out.SendFrame(piece);
      if !sent { return false; }
      offset := end;
    }
    PartIsPrefix(old(out.sent), whole, out.sent, []);
    assert out.sent + [] == out.sent;
    ok := true;
  }

  /** What a method that sends `whole` promises: never anything but a prefix of it, all of it
      when it finishes, and it finishes unless disturbed. */
  ghost predicate Emits(before: seq<Frame>, roomBefore: nat, whole: seq<Frame>, sent: seq<Frame>, room: nat,
                        polls: seq<Poll>, o: Outcome)
  {
    && before <= sent <= before + whole
    && room + |sent| == roomBefore + |before|
    && (o.Finished? ==> sent == before + whole)
    && (Undisturbed(polls) && |whole| <= roomBefore ==> o.Finished?)
  }

  lemma DatasStep(polls: seq<Poll>, n: nat)
    requires n < |polls|
    ensures Datas(polls[n..]) ==
      (if polls[n].event.Data? then [polls[n].event.bytes] else []) + Datas(polls[n + 1..])
  {
    assert polls[n..][0] == polls[n] && polls[n..][1..] == polls[n + 1..];
  }

  /** Sends every full piece of `buffer`; returns what is left of it. */
  method SendFull(id: nat, buffer: Bytes, out: Outbound) returns (ok: bool, pending: Bytes)
    modifies out
    ensures pending == Rest(buffer) || !ok
    ensures old(out.sent) <= out.sent <= old(out.sent) + FullPieces(id, buffer)
    ensures out.room + |out.sent| == old(out.room) + |old(out.sent)|
    ensures ok ==> out.sent == old(out.sent) + FullPieces(id, buffer)
    ensures !ok ==> out.room == 0 && |out.sent| < |old(out.sent)| + |FullPieces(id, buffer)|
  {
    pending := buffer;
    while |pending| >= RAW_CHUNK
      invariant Progress(old(out.sent), FullPieces(id, buffer), out.sent, FullPieces(id, pending))
      invariant Rest(pending) == Rest(buffer)
      invariant out.room + |out.sent| == old(out.room) + |old(out.sent)|
      decreases |pending|
    {
      var rest := pending[RAW_CHUNK..];
      var full := pending[..RAW_CHUNK];
      pending := rest;
      Advance(old(out.sent), FullPieces(id, buffer), out.sent, Piece(id, full, false), FullPieces(id, pending));
      PartIsPrefix(old(out.sent), FullPieces(id, buffer), out.sent, [Piece(id, full, false)] + FullPieces(id, pending));
      ok := out.SendFrame(Piece(id, full, false));
      if !ok { return; }
    }
    PartIsPrefix(old(out.sent), FullPieces(id, buffer), out.sent, []);
    assert out.sent + [] == out.sent;
    ok := true;
  }

  lemma AdvanceBy(before: seq<Frame>, whole: seq<Frame>, sent: seq<Frame>, block: seq<Frame>, todo: seq<Frame>)
    requires Progress(before, whole, sent, block + todo)
    ensures Progress(before, whole, sent + block, todo)
  {
    assert sent + (block + todo) == (sent + block) + todo;
  }

  /** Part of the next block sent: still a prefix of the whole. */
  lemma PartOfBlock(before: seq<Frame>, whole: seq<Frame>, sent: seq<Frame>, block: seq<Frame>, todo: seq<Frame>,
                    now: seq<Frame>)
    requires Progress(before, whole, sent, block + todo)
    requires sent <= now <= sent + block
    ensures before <= now <= before + whole
    ensures |sent| + |block| + |todo| == |before| + |whole|
  {
    AdvanceBy(before, whole, sent, block, todo);
    PartIsPrefix(before, whole, sent + block, todo);
    PartIsPrefix(before, whole, sent, block + todo);
  }

  method StreamBody(id: nat, polls: seq<Poll>, out: Outbound) returns (o: Outcome)
    modifies out
    ensures Emits(old(out.sent), old(out.room), Streamed(id, [], Datas(polls)), out.sent, out.room, polls, o)
  {
    ghost var whole := Streamed(id, [], Datas(polls));
    var pending: Bytes := [];
    var n := 0;
    assert polls[0..] == polls;
    assert out.sent + whole == old(out.sent) + whole;
    while n < |polls|
      invariant n <= |polls|
      invariant Progress(old(out.sent), whole, out.sent, Streamed(id, pending, Datas(polls[n..])))
      invariant out.room + |out.sent| == old(out.room) + |old(out.sent)|
    {
      DatasStep(polls, n);
      ghost var todo := Streamed(id, pending, Datas(polls[n..]));
      PartIsPrefix(old(out.sent), whole, out.sent, todo);
      if polls[n].cancelled { return Cancelled; }
      match polls[n].event {
        case Fault => return Failed;
        case Trailers =>
        case Data(data) =>
          var buffer := pending + data;
          ghost var before := out.sent;
          ghost var block, after := FullPieces(id, buffer), Streamed(id, Rest(buffer), Datas(polls[n + 1..]));
          StreamStep(id, pending, data, Datas(polls[n + 1..]));
          var ok, rest := SendFull(id, buffer, out);
          PartOfBlock(old(out.sent), whole, before, block, after, out.sent);
          if !ok { return Failed; }
          AdvanceBy(old(out.sent), whole, before, block, after);
          pending := rest;
      }
      n := n + 1;
    }
    assert polls[n..] == [];
    var final := Piece(id, pending, true);
    PartIsPrefix(old(out.sent), whole, out.sent, [final]);
    Advance(old(out.sent), whole, out.sent, final, []);
    var ok := out.SendFrame(final);
    if !ok { return Failed; }
    PartIsPrefix(old(out.sent), whole, out.sent, []);
    assert out.sent + [] == out.sent;
    o := Finished;
  }

  lemma StreamStep(id: nat, pending: Bytes, data: Bytes, parts: seq<Bytes>)
    ensures Streamed(id, pending, [data] + parts)
         == FullPieces(id, pending + data) + Streamed(id, Rest(pending + data), parts)
  {
    assert ([data] + parts)[1..] == parts;
  }

  lemma BufferStep(id: nat, status: nat, buf: Bytes, data: Bytes, parts: seq<Bytes>)
    ensures Buffered(id, status, buf, [data] + parts)
         == if |buf| + |data| > RAW_CHUNK
            then [ResponseStart(id, status, false, None)] + Slices(id, buf, false) + Slices(id, data, false)
                   + Streamed(id, [], parts)
            else Buffered(id, status, buf + data, parts)
  {
    assert ([data] + parts)[1..] == parts;
  }

  /** The buffered body has outgrown one frame: start the stream with what is there. */
  method Overflow(id: nat, status: nat, buf: Bytes, data: Bytes, polls: seq<Poll>, out: Outbound) returns (o: Outcome)
    modifies out
    ensures
      var whole := [ResponseStart(id, status, false, None)] + Slices(id, buf, false) + Slices(id, data, false)
                   + Streamed(id, [], Datas(polls));
      Emits(old(out.sent), old(out.room), whole, out.sent, out.room, polls, o)
  {
    var start := ResponseStart(id, status, false, None);
    ghost var a, b, c := Slices(id, buf, false), Slices(id, data, false), Streamed(id, [], Datas(polls));
    ghost var whole := [start] + a + b + c;
    ghost var s0 := out.sent;
    assert whole == [start] + (a + (b + c));
    assert out.sent + whole == s0 + whole;
    PartIsPrefix(s0, whole, out.sent, [start] + (a + (b + c)));
    Advance(s0, whole, out.sent, start, a + (b + c));
    var ok := out.SendFrame(start);
    if !ok { return Failed; }
    ghost var s1 := out.sent;
    ok := SendChunks(id, buf, false, out);
    PartOfBlock(s0, whole, s1, a, b + c, out.sent);
    if !ok { return Failed; }
    AdvanceBy(s0, whole, s1, a, b + c);
    ghost var s2 := out.sent;
    ok := SendChunks(id, data, false, out);
    PartOfBlock(s0, whole, s2, b, c, out.sent);
    if !ok { return Failed; }
    AdvanceBy(s0, whole, s2, b, c);
    ghost var s3 := out.sent;
    o := StreamBody(id, polls, out);
    assert Progress(s0, whole, s3, c + []) by { assert c + [] == c; }
    PartOfBlock(s0, whole, s3, c, [], out.sent);
    if o.Finished? {
      AdvanceBy(s0, whole, s3, c, []);
      PartIsPrefix(s0, whole, out.sent, []);
    }
  }

  method WriteResponse(id: nat, status: nat, sse: bool, polls: seq<Poll>, out: Outbound) returns (o: Outcome)
    modifies out
    ensures Emits(old(out.sent), old(out.room), Frames(id, status, sse, Datas(polls)), out.sent, out.room, polls, o)
  {
    ghost var whole := Frames(id, status, sse, Datas(polls));
    ghost var s0 := out.sent;
    if sse {
      var start := ResponseStart(id, status, false, None);
      ghost var todo := Streamed(id, [], Datas(polls));
      assert Progress(s0, whole, out.sent, [start] + todo);
      PartIsPrefix(s0, whole, out.sent, [start] + todo);
      Advance(s0, whole, out.sent, start, todo);
      var ok := out.SendFrame(start);
      if !ok { return Failed; }
      ghost var s1 := out.sent;
      o := StreamBody(id, polls, out);
      assert Progress(s0, whole, s1, todo + []) by { assert todo + [] == todo; }
      PartOfBlock(s0, whole, s1, todo, [], out.sent);
      if o.Finished? {
        AdvanceBy(s0, whole, s1, todo, []);
        PartIsPrefix(s0, whole, out.sent, []);
      }
      return;
    }
    var buf: Bytes := [];
    var n := 0;
    assert polls[0..] == polls;
    while n < |polls|
      invariant n <= |polls| && out.sent == s0 && out.room == old(out.room)
      invariant whole == Buffered(id, status, buf, Datas(polls[n..]))
    {
      DatasStep(polls, n);
      if polls[n].cancelled { return Cancelled; }
      match polls[n].event {
        case Fault => return Failed;
        case Trailers =>
        case Data(data) =>
          BufferStep(id, status, buf, data, Datas(polls[n + 1..]));
          if |buf| + |data| > RAW_CHUNK {
            o := Overflow(id, status, buf, data, polls[n + 1..], out);
            return;
          }
          buf := buf + data;
      }
      n := n + 1;
    }
    assert polls[n..] == [];
    var ok := out.SendFrame(Inline(id, status, buf));
    o := if ok then Finished else Failed;
  }
}
