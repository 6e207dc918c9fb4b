/** The receiving half of a relay session (`run`, `accept_request`, `request_body` in
    `session.rs`): request bodies of many requests, cut into frames on one connection. */
module Session {
  import opened Options
  import opened Base64

  type Bytes = seq<byte>

  /** What the session loop reacts to. Bodies are given as the base64 decoder returns them:
      `None` for a missing body or a string that is not base64. `admitted` and `buildable` are
      the verdicts of the in-flight limit and of the request builder on a start frame. */
  datatype Inbound =
    | RequestStart(id: nat, complete: bool, body: Option<Bytes>, admitted: bool, buildable: bool)
    | RequestBody(id: nat, chunk: Option<Bytes>, last: bool)
    | Cancel(id: nat)
    | Done(id: nat)
    | GoAway

  /** What the session keeps about one request id: whether a body channel is in the table, whether
      it leads to the service of the latest start, the bytes that service got so far, and the
      cancellation token. After a 400 nobody listens; a start that reuses an id with its whole
      body leaves an older channel in the table, which leads elsewhere. */
  datatype Feed = Feed(open: bool, live: bool, seen: Bytes, token: bool, fired: bool)

  const IDLE: Feed := Feed(false, false, [], false, false)

  function OrEmpty(body: Option<Bytes>): Bytes {
    if body.None? then [] else body.value
  }

  predicate Concerns(frame: Inbound, id: nat) {
    !frame.GoAway? && frame.id == id
  }

  /** The effect of a frame on the request it names. */
  function Step(f: Feed, away: bool, frame: Inbound): Feed {
    match frame
    case RequestStart(_, complete, body, admitted, buildable) =>
      if away || !admitted then f
      else Feed(f.open || !complete, !complete && buildable, if buildable then OrEmpty(body) else [], buildable, false)
    case RequestBody(_, chunk, last) =>
      if !f.open then f
      else Feed(!last, f.live && !last, if f.live then f.seen + OrEmpty(chunk) else f.seen, f.token,
                f.fired || (chunk.None? && f.token))
    case Cancel(_) => Feed(false, false, f.seen, false, f.fired || f.token)
    case Done(_) => f.(open := false, live := false, token := false)
    case GoAway => f
  }

  function Effect(f: Feed, away: bool, frame: Inbound, id: nat): Feed {
    if Concerns(frame, id) then Step(f, away, frame) else f
  }

  class Session {
    var bodies: set<nat>
    /** Whose channel in `bodies` has the service of the latest start at its other end. */
    ghost var live: set<nat>
    ghost var seen: map<nat, Bytes>
    var cancels: set<nat>
    ghost var fired: set<nat>
    var away: bool

    constructor ()
      ensures !away && forall id: nat :: FeedOf(id) == IDLE
    {
      bodies, live, seen, cancels, fired, away := {}, {}, map[], {}, {}, false;
    }

    ghost function FeedOf(id: nat): Feed
      reads this
    {
      Feed(id in bodies, id in live, if id in seen then seen[id] else [], id in cancels, id in fired)
    }

    method AcceptRequest(id: nat, complete: bool, body: Option<Bytes>, admitted: bool, buildable: bool)
      modifies this
      ensures away == old(away)
      ensures var start := RequestStart(id, complete, body, admitted, buildable);
        forall j: nat :: FeedOf(j) == Effect(old(FeedOf(j)), false, start, j)
    {
      if !admitted { return; }
      cancels := cancels + {id};
      fired := fired - {id};
      live := live - {id};
      if !complete {
        bodies := bodies + {id};
        live := live + {id};
      }
      seen := seen[id := OrEmpty(body)];
      if !buildable {
        cancels := cancels - {id};
        live := live - {id};
        seen := seen[id := []];
      }
    }

    /** One turn of the session loop. */
    method Handle(frame: Inbound)
      modifies this
      ensures away == (old(away) || frame.GoAway?)
      ensures forall j: nat :: FeedOf(j) == Effect(old(FeedOf(j)), old(away), frame, j)
    {
      match frame {
        case RequestStart(id, complete, body, admitted, buildable) =>
          if !away { AcceptRequest(id, complete, body, admitted, buildable); }
        case RequestBody(id, chunk, last) =>
          if id in bodies {
            if chunk.Some? {
              if id in live { seen := seen[id := (if id in seen then seen[id] else []) + chunk.value]; }
            } else if id in cancels {
              fired := fired + {id};
            }
            if last {
              bodies := bodies - {id};
              live := live - {id};
            }
          }
        case Cancel(id) =>
          if id in cancels {
            cancels := cancels - {id};
            fired := fired + {id};
          }
          bodies := bodies - {id};
          live := live - {id};
        case Done(id) =>
          cancels := cancels - {id};
          bodies := bodies - {id};
          live := live - {id};
        case GoAway => away := true;
      }
    }

    /** The session loop over everything that arrives. */
    method Run(frames: seq<Inbound>)
      requires !away && forall id: nat :: FeedOf(id) == IDLE
      modifies this
      ensures forall id: nat :: FeedOf(id) == After(frames, id)
    {
      var n := 0;
      while n < |frames|
        invariant n <= |frames|
        invariant away == Away(frames[..n])
        invariant forall id: nat :: FeedOf(id) == After(frames[..n], id)
      {
        Handle(frames[n]);
        n := n + 1;
        assert frames[..n][..|frames[..n]| - 1] == frames[..n - 1];
      }
      assert frames[..n] == frames;
    }
  }

  predicate Away(frames: seq<Inbound>) {
    exists i :: 0 <= i < |frames| && frames[i].GoAway?
  }

  /** What the session knows about `id` after `frames`. */
  function After(frames: seq<Inbound>, id: nat): Feed {
    if frames == [] then IDLE
    else
      var before, frame := frames[..|frames| - 1], frames[|frames| - 1];
      Effect(After(before, id), Away(before), frame, id)
  }

  // ---------------------------------------------------------------- one request among many

  /** The frames that matter to one id: its own, and the first sign of going away. */
  function Own(frames: seq<Inbound>, id: nat): seq<Inbound> {
    if frames == [] then []
    else
      Own(frames[..|frames| - 1], id)
      + (if Concerns(frames[|frames| - 1], id) || frames[|frames| - 1].GoAway? then [frames[|frames| - 1]] else [])
  }

  lemma {:induction false} OwnKeepsAway(frames: seq<Inbound>, id: nat)
    ensures Away(Own(frames, id)) == Away(frames)
    decreases |frames|
  {
    if frames != [] {
      var before, frame := frames[..|frames| - 1], frames[|frames| - 1];
      OwnKeepsAway(before, id);
      AwayAppend(before, frame);
      assert before + [frame] == frames;
      AwayAppend(Own(before, id), frame);
      assert Own(before, id) + [] == Own(before, id);
    }
  }

  lemma AwayAppend(frames: seq<Inbound>, frame: Inbound)
    ensures Away(frames + [frame]) == (Away(frames) || frame.GoAway?)
  {
    var more := frames + [frame];
    if Away(frames) {
      var i :| 0 <= i < |frames| && frames[i].GoAway?;
      assert more[i].GoAway?;
    }
    if frame.GoAway? { assert more[|frames|].GoAway?; }
  }

  /** Frames of other requests, in whatever interleaving, do not matter to a request. */
  lemma {:induction false} RequestsDoNotMix(frames: seq<Inbound>, id: nat)
    ensures After(frames, id) == After(Own(frames, id), id)
    decreases |frames|
  {
    if frames != [] {
      var before, frame := frames[..|frames| - 1], frames[|frames| - 1];
      var own := Own(before, id);
      RequestsDoNotMix(before, id);
      OwnKeepsAway(before, id);
      if Concerns(frame, id) || frame.GoAway? {
        assert (own + [frame])[..|own + [frame]| - 1] == own;
      } else {
        assert own + [] == own;
      }
    }
  }

  // ---------------------------------------------------------------- a streamed body

  /** A frame that takes the request's body channel out of the table. */
  predicate Ends(frame: Inbound, id: nat) {
    Concerns(frame, id) && (frame.Cancel? || frame.Done? || (frame.RequestBody? && frame.last))
  }

  /** The first frame that ends the body of `id` is number `e - 1`; there is none if `e` is the length. */
  predicate EndsAt(frames: seq<Inbound>, id: nat, e: nat) {
    && e <= |frames|
    && (forall i :: 0 <= i < e && Ends(frames[i], id) ==> i == e - 1)
    && (e < |frames| ==> e > 0 && Ends(frames[e - 1], id))
  }

  predicate NoEnd(frames: seq<Inbound>, id: nat) {
    forall i :: 0 <= i < |frames| ==> !Ends(frames[i], id)
  }

  /** Relay ids are unique: no second start for `id`. */
  predicate NoRestart(frames: seq<Inbound>, id: nat) {
    forall i :: 0 <= i < |frames| && Concerns(frames[i], id) ==> !frames[i].RequestStart?
  }

  /** Nothing cancels the request: no cancel frame, no chunk that is not base64. */
  predicate NoAlarm(frames: seq<Inbound>, id: nat) {
    forall i :: 0 <= i < |frames| && Concerns(frames[i], id) ==>
      !frames[i].Cancel? && (frames[i].RequestBody? ==> frames[i].chunk.Some?)
  }

  /** The bytes in the body frames of `id`, in order. */
  function Chunks(frames: seq<Inbound>, id: nat): Bytes {
    if frames == [] then []
    else
      var frame := frames[|frames| - 1];
      Chunks(frames[..|frames| - 1], id)
      + (if Concerns(frame, id) && frame.RequestBody? then OrEmpty(frame.chunk) else [])
  }

  lemma OneMore(frames: seq<Inbound>, frame: Inbound, id: nat)
    ensures After(frames + [frame], id) == Effect(After(frames, id), Away(frames), frame, id)
  {
    assert (frames + [frame])[..|frames|] == frames;
  }

  lemma ChunksOneMore(frames: seq<Inbound>, n: nat, id: nat)
    requires n < |frames|
    ensures Chunks(frames[..n + 1], id) == Chunks(frames[..n], id) +
      (if Concerns(frames[n], id) && frames[n].RequestBody? then OrEmpty(frames[n].chunk) else [])
  {
    assert frames[..n + 1][..n] == frames[..n];
  }

  function Least(a: nat, b: nat): nat { if a < b then a else b }

  /** What a live channel has carried after the first `n` frames behind the start. */
  function Fed(body: Bytes, frames: seq<Inbound>, id: nat, e: nat, n: nat): Bytes
    requires e <= |frames| && n <= |frames|
  {
    body + Chunks(frames[..Least(n, e)], id)
  }

  lemma FedOneMore(body: Bytes, frames: seq<Inbound>, id: nat, e: nat, n: nat)
    requires EndsAt(frames, id, e) && n < |frames|
    ensures Fed(body, frames, id, e, n + 1) ==
      if NoEnd(frames[..n], id) && Concerns(frames[n], id) && frames[n].RequestBody?
      then Fed(body, frames, id, e, n) + OrEmpty(frames[n].chunk) else Fed(body, frames, id, e, n)
  {
    if n < e {
      ChunksOneMore(frames, n, id);
      assert NoEnd(frames[..n], id);
      assert Fed(body, frames, id, e, n) + [] == Fed(body, frames, id, e, n);
    } else if e < |frames| {
      assert frames[..n][e - 1] == frames[e - 1];
    }
  }

  lemma NoEndOneMore(frames: seq<Inbound>, id: nat, n: nat)
    requires n < |frames|
    ensures NoEnd(frames[..n + 1], id) <==> NoEnd(frames[..n], id) && !Ends(frames[n], id)
  {
    assert frames[..n + 1] == frames[..n] + [frames[n]];
    if NoEnd(frames[..n + 1], id) {
      assert forall i :: 0 <= i < n ==> frames[..n][i] == frames[..n + 1][i];
      assert frames[..n + 1][n] == frames[n];
    }
  }

  /** `before`, a start for `id`, and `n` of the frames that follow. */
  function Upto(before: seq<Inbound>, start: Inbound, frames: seq<Inbound>, n: nat): seq<Inbound>
    requires n <= |frames|
  {
    before + [start] + frames[..n]
  }

  lemma UptoOneMore(before: seq<Inbound>, start: Inbound, frames: seq<Inbound>, n: nat, id: nat)
    requires n < |frames|
    ensures var u := Upto(before, start, frames, n);
      After(Upto(before, start, frames, n + 1), id) == Effect(After(u, id), Away(u), frames[n], id)
  {
    var u := Upto(before, start, frames, n);
    assert Upto(before, start, frames, n + 1) == u + [frames[n]];
    OneMore(u, frames[n], id);
  }

  /** An incomplete start on a session that stays: what the table and the service hold after `n`
      more frames. `live` is false on the 400 path. */
  lemma {:induction false} FrameByFrame(before: seq<Inbound>, id: nat, body: Option<Bytes>, live: bool,
                                        frames: seq<Inbound>, e: nat, n: nat)
    requires !Away(before) && NoRestart(frames, id) && EndsAt(frames, id, e) && n <= |frames|
    ensures var f := After(Upto(before, RequestStart(id, false, body, true, live), frames, n), id);
      && f.open == NoEnd(frames[..n], id) && f.live == (live && f.open)
      && f.seen == (if live then Fed(OrEmpty(body), frames, id, e, n) else [])
  {
    var start := RequestStart(id, false, body, true, live);
    if n == 0 {
      OneMore(before, start, id);
      assert Upto(before, start, frames, 0) == before + [start];
      assert OrEmpty(body) + [] == OrEmpty(body);
    } else {
      FrameByFrame(before, id, body, live, frames, e, n - 1);
      NextFrame(before, start, id, OrEmpty(body), live, frames, e, n - 1);
    }
  }

  lemma NextFrame(before: seq<Inbound>, start: Inbound, id: nat, body: Bytes, live: bool,
                  frames: seq<Inbound>, e: nat, n: nat)
    requires NoRestart(frames, id) && EndsAt(frames, id, e) && n < |frames|
    requires var f := After(Upto(before, start, frames, n), id);
      && f.open == NoEnd(frames[..n], id) && f.live == (live && f.open)
      && f.seen == (if live then Fed(body, frames, id, e, n) else [])
    ensures var f := After(Upto(before, start, frames, n + 1), id);
      && f.open == NoEnd(frames[..n + 1], id) && f.live == (live && f.open)
      && f.seen == (if live then Fed(body, frames, id, e, n + 1) else [])
  {
    var u := Upto(before, start, frames, n);
    UptoOneMore(before, start, frames, n, id);
    FedOneMore(body, frames, id, e, n);
    NoEndOneMore(frames, id, n);
    OneFrame(After(u, id), Away(u), frames[n], id, live, NoEnd(frames[..n], id),
      Fed(body, frames, id, e, n), Fed(body, frames, id, e, n + 1));
  }

  /** One frame that is no start: `open` says whether the channel was open, `fed` and `more` what a
      live one has carried before and after. */
  lemma OneFrame(f: Feed, away: bool, frame: Inbound, id: nat, live: bool, open: bool, fed: Bytes, more: Bytes)
    requires Concerns(frame, id) ==> !frame.RequestStart?
    requires f.open == open && f.live == (live && open) && f.seen == (if live then fed else [])
    requires more == if open && Concerns(frame, id) && frame.RequestBody? then fed + OrEmpty(frame.chunk) else fed
    ensures var t := Effect(f, away, frame, id);
      && t.open == (open && !Ends(frame, id)) && t.live == (live && t.open)
      && t.seen == if live then more else []
  {
  }

  /** A streamed body reaches the service as the initial bytes followed by its chunks in order, up
      to the frame that ends it, whatever else the connection carries. Only the start has to come
      before any GoAway: a draining session goes on delivering. */
  lemma StreamedBodyArrives(before: seq<Inbound>, id: nat, body: Option<Bytes>, frames: seq<Inbound>, e: nat)
    requires !Away(before) && NoRestart(frames, id) && EndsAt(frames, id, e)
    ensures var f := After(before + [RequestStart(id, false, body, true, true)] + frames, id);
      && f.seen == OrEmpty(body) + Chunks(frames[..e], id)
      && (f.open <==> NoEnd(frames, id))
  {
    FrameByFrame(before, id, body, true, frames, e, |frames|);
    assert frames[..|frames|] == frames;
  }

  /** On the 400 path the channel stays in the table with nobody at its other end: no chunk reaches
      a service, and only the relay's own last chunk or cancel takes it out. */
  lemma BadStartLeavesChannelOpen(before: seq<Inbound>, id: nat, body: Option<Bytes>, frames: seq<Inbound>, e: nat)
    requires !Away(before) && NoRestart(frames, id) && EndsAt(frames, id, e)
    ensures var f := After(before + [RequestStart(id, false, body, true, false)] + frames, id);
      f.seen == [] && !f.live && (f.open <==> NoEnd(frames, id))
  {
    FrameByFrame(before, id, body, false, frames, e, |frames|);
    assert frames[..|frames|] == frames;
  }

  /** The request's token fires only for a cancel frame or a chunk that is not base64. */
  lemma {:induction false} OnlyAlarmsCancel(before: seq<Inbound>, start: Inbound, id: nat, frames: seq<Inbound>, n: nat)
    requires !Away(before) && start.RequestStart? && start.id == id && start.admitted
    requires NoRestart(frames, id) && NoAlarm(frames, id) && n <= |frames|
    ensures !After(Upto(before, start, frames, n), id).fired
  {
    if n == 0 {
      OneMore(before, start, id);
      assert Upto(before, start, frames, 0) == before + [start];
    } else {
      OnlyAlarmsCancel(before, start, id, frames, n - 1);
      UptoOneMore(before, start, frames, n - 1, id);
    }
  }

  /** No frame takes the cancellation token of `id` out of the table. */
  predicate NoStop(frames: seq<Inbound>, id: nat) {
    forall i :: 0 <= i < |frames| && Concerns(frames[i], id) ==> !frames[i].Cancel? && !frames[i].Done?
  }

  /** Frame `i` cancels the running request: a Cancel, or a chunk that is no base64 on an open channel. */
  predicate Cancels(frames: seq<Inbound>, i: nat, id: nat)
    requires i < |frames|
  {
    && Concerns(frames[i], id) && NoStop(frames[..i], id)
    && (frames[i].Cancel? || (frames[i].RequestBody? && frames[i].chunk.None? && NoEnd(frames[..i], id)))
  }

  ghost predicate SomeCancels(frames: seq<Inbound>, n: nat, id: nat)
    requires n <= |frames|
  {
    exists i: nat :: i < n && Cancels(frames, i, id)
  }

  lemma StopOneMore(frames: seq<Inbound>, id: nat, n: nat)
    requires n < |frames|
    ensures NoStop(frames[..n + 1], id) <==>
      NoStop(frames[..n], id) && !(Concerns(frames[n], id) && (frames[n].Cancel? || frames[n].Done?))
  {
    assert frames[..n + 1] == frames[..n] + [frames[n]];
    if NoStop(frames[..n + 1], id) {
      assert forall i :: 0 <= i < n ==> frames[..n][i] == frames[..n + 1][i];
      assert frames[..n + 1][n] == frames[n];
    }
  }

  lemma CancelsOneMore(frames: seq<Inbound>, n: nat, id: nat)
    requires n < |frames|
    ensures SomeCancels(frames, n + 1, id) <==> SomeCancels(frames, n, id) || Cancels(frames, n, id)
  {
  }

  /** Token and cancellation of a request that was started, after `n` more frames. */
  lemma {:induction false} TokenByFrame(before: seq<Inbound>, id: nat, body: Option<Bytes>, frames: seq<Inbound>,
                                        e: nat, n: nat)
    requires !Away(before) && NoRestart(frames, id) && EndsAt(frames, id, e) && n <= |frames|
    ensures var f := After(Upto(before, RequestStart(id, false, body, true, true), frames, n), id);
      f.token == NoStop(frames[..n], id) && f.fired == SomeCancels(frames, n, id)
  {
    var start := RequestStart(id, false, body, true, true);
    if n == 0 {
      OneMore(before, start, id);
      assert Upto(before, start, frames, 0) == before + [start];
    } else {
      TokenByFrame(before, id, body, frames, e, n - 1);
      FrameByFrame(before, id, body, true, frames, e, n - 1);
      UptoOneMore(before, start, frames, n - 1, id);
      StopOneMore(frames, id, n - 1);
      CancelsOneMore(frames, n - 1, id);
    }
  }

  /** A started request is cancelled if and only if, while it runs, a Cancel of its id arrives, or a chunk
      that is no base64 while its body is still open. */
  lemma CancelledIff(before: seq<Inbound>, id: nat, body: Option<Bytes>, frames: seq<Inbound>, e: nat)
    requires !Away(before) && NoRestart(frames, id) && EndsAt(frames, id, e)
    ensures After(before + [RequestStart(id, false, body, true, true)] + frames, id).fired
      <==> SomeCancels(frames, |frames|, id)
  {
    TokenByFrame(before, id, body, frames, e, |frames|);
    assert frames[..|frames|] == frames;
  }

  /** A body that comes whole in the start frame reaches the service at once, and no later frame adds to
      it. */
  lemma {:induction false} WholeBodyArrives(before: seq<Inbound>, id: nat, body: Option<Bytes>, frames: seq<Inbound>,
                                            n: nat)
    requires !Away(before) && NoRestart(frames, id) && n <= |frames|
    ensures var f := After(Upto(before, RequestStart(id, true, body, true, true), frames, n), id);
      f.seen == OrEmpty(body) && !f.live
  {
    var start := RequestStart(id, true, body, true, true);
    if n == 0 {
      OneMore(before, start, id);
      assert Upto(before, start, frames, 0) == before + [start];
    } else {
      WholeBodyArrives(before, id, body, frames, n - 1);
      UptoOneMore(before, start, frames, n - 1, id);
    }
  }

  /** Once the session goes away, a start frame opens nothing. */
  lemma NothingStartsAfterGoAway(frames: seq<Inbound>, start: Inbound)
    requires Away(frames) && start.RequestStart?
    ensures forall id: nat :: After(frames + [start], id) == After(frames, id)
  {
    assert (frames + [start])[..|frames|] == frames;
  }
}
