/** What the bridge knows of a child it serves: the result of the `initialize` call that it made of this
    very child. */
module BridgeHandshake {
  import opened Json
  import opened Options
  import opened Bridge
  import opened BridgeRuns
  import opened BridgeLines

  /** The call stands on the child's stdin. */
  ghost predicate Called(child: Child, call: string, id: nat) {
    exists j :: 0 <= j < |child.stdin| && IsCall(child.stdin[j], call, id)
  }

  ghost predicate IsCall(line: Json, call: string, id: nat) {
    IsHandshake(line) && line.fields["method"] == Str(call) && line.fields["id"] == Int(id)
  }

  /** Line `at` is the child's answer to the call, and says `result`. */
  predicate Succeeds(out: Output, id: nat, result: Json) {
    && Answers(out, id) && "error" !in out.value.fields
    && "result" in out.value.fields && out.value.fields["result"] == result
  }

  /** The child answered its `initialize` call with `result`, and the answer was read. */
  ghost predicate Initialised(child: Child, result: Json) {
    exists id: nat, at: nat :: AnsweredAt(child, id, at, result)
  }

  ghost predicate AnsweredAt(child: Child, id: nat, at: nat, result: Json) {
    at < child.read && at < |child.stdout| && Called(child, "initialize", id) && Succeeds(child.stdout[at], id, result)
  }

  ghost predicate HandshakeOk(s: State) {
    match s.phase
    case Shaking(Initialize, id) => |s.children| > 0 && Called(s.children[Current(s)], "initialize", id)
    case Shaking(ToolsList(result), _) => |s.children| > 0 && Initialised(s.children[Current(s)], result)
    case Pumping => |s.children| > 0 && Initialised(s.children[Current(s)], s.cache)
    case _ => true
  }

  predicate ChildGrows(a: Child, b: Child) {
    a.stdin <= b.stdin && a.stdout <= b.stdout && a.read <= b.read
  }

  lemma CalledGrows(a: Child, b: Child, call: string, id: nat)
    requires Called(a, call, id) && a.stdin <= b.stdin
    ensures Called(b, call, id)
  {
    var j :| 0 <= j < |a.stdin| && IsCall(a.stdin[j], call, id);
    assert IsCall(b.stdin[j], call, id);
  }

  lemma InitialisedGrows(a: Child, b: Child, result: Json)
    requires Initialised(a, result) && ChildGrows(a, b)
    ensures Initialised(b, result)
  {
    var id: nat, at: nat :| AnsweredAt(a, id, at, result);
    CalledGrows(a, b, "initialize", id);
    assert AnsweredAt(b, id, at, result);
  }

  /** The same children; phase and cache are the same too, or nothing is served. */
  predicate Quiet(s: State, t: State) {
    && |t.children| == |s.children|
    && ((t.phase == s.phase && t.cache == s.cache) || t.phase.Starting? || t.phase.Stopped? || t.phase.Unused?)
  }

  /** What is known stays known. */
  lemma KnownStays(s: State, t: State)
    requires HandshakeOk(s) && Grows(s, t) && Quiet(s, t)
    ensures HandshakeOk(t)
  {
    if t.phase == s.phase && t.cache == s.cache && |s.children| > 0 {
      var a, b := s.children[Current(s)], t.children[Current(s)];
      match s.phase {
        case Shaking(Initialize, id) => CalledGrows(a, b, "initialize", id);
        case Shaking(ToolsList(result), _) => InitialisedGrows(a, b, result);
        case Pumping => InitialisedGrows(a, b, s.cache);
        case _ =>
      }
    }
  }

  lemma SpawnKnows(s: State, spawned: bool, written: bool)
    requires s.phase.Starting?
    ensures HandshakeOk(Next(s, Spawn(spawned, written)))
  {
    if spawned && written {
      var line := HandshakeLine(s.nextId, "initialize");
      HandshakeIs(s.nextId, "initialize");
      var t := Next(s, Spawn(true, true));
      assert t.children[Current(t)].stdin == [line];
      assert IsCall(t.children[Current(t)].stdin[0], "initialize", s.nextId);
    }
  }

  /** The answer to `initialize` has just been read. */
  lemma JustInitialised(s: State, out: Output)
    requires s.phase.Shaking? && s.phase.call.Initialize? && HandshakeOk(s) && Unread(s)
    requires out == s.children[Current(s)].stdout[s.children[Current(s)].read]
    requires ResponseId(out) == Some(s.phase.id) && !out.value.Has("error") && out.value.Has("result")
    ensures Initialised(Advance(s).children[Current(s)], out.value.fields["result"])
  {
    AnswersIff(out, s.phase.id);
    var a, b := s.children[Current(s)], Advance(s).children[Current(s)];
    CalledGrows(a, b, "initialize", s.phase.id);
    assert AnsweredAt(b, s.phase.id, a.read, out.value.fields["result"]);
  }

  /** The handshake goes on, or is over, with the answer to `initialize` in hand. */
  predicate GoesOn(u: State, result: Json) {
    match u.phase
    case Shaking(ToolsList(r), _) => r == result
    case Pumping => u.cache == result
    case Shaking(Initialize, _) => false
    case _ => true
  }

  lemma InitializeGoesOn(t: State, value: Json, written: bool, asked: bool)
    requires t.phase.Shaking? && t.phase.call.Initialize? && |t.children| > 0 && value.Object?
    ensures var u := ShakeResponse(t, value, written, asked);
      |u.children| == |t.children| && (u.phase.Stopped? || u.phase.Starting?
        || (!value.Has("error") && value.Has("result") && GoesOn(u, value.fields["result"])))
  {
  }

  lemma ToolsGoOn(t: State, value: Json, written: bool, asked: bool)
    requires t.phase.Shaking? && t.phase.call.ToolsList? && |t.children| > 0 && value.Object?
    ensures var u := ShakeResponse(t, value, written, asked);
      |u.children| == |t.children| && GoesOn(u, t.phase.call.result)
  {
  }

  lemma OnceInitialised(u: State, result: Json)
    requires |u.children| > 0 && Initialised(u.children[Current(u)], result) && GoesOn(u, result)
    ensures HandshakeOk(u)
  {
  }

  lemma ResponseKnows(s: State, out: Output, written: bool, asked: bool)
    requires s.phase.Shaking? && HandshakeOk(s) && Unread(s)
    requires out == s.children[Current(s)].stdout[s.children[Current(s)].read] && ResponseId(out) == Some(s.phase.id)
    ensures HandshakeOk(ShakeResponse(Advance(s), out.value, written, asked))
  {
    var t := Advance(s);
    var u := ShakeResponse(t, out.value, written, asked);
    ShakeResponseGrows(t, out.value, written, asked);
    if s.phase.call.ToolsList? {
      ToolsGoOn(t, out.value, written, asked);
      InitialisedGrows(s.children[Current(s)], u.children[Current(u)], s.phase.call.result);
      OnceInitialised(u, s.phase.call.result);
    } else {
      InitializeGoesOn(t, out.value, written, asked);
      if !u.phase.Stopped? && !u.phase.Starting? {
        var result := out.value.fields["result"];
        JustInitialised(s, out);
        InitialisedGrows(t.children[Current(t)], u.children[Current(u)], result);
        OnceInitialised(u, result);
      }
    }
  }

  lemma ShakeQuiet(s: State, written: bool, asked: bool)
    requires s.phase.Shaking? && Unread(s)
    requires ResponseId(s.children[Current(s)].stdout[s.children[Current(s)].read]) != Some(s.phase.id)
    ensures Quiet(s, ShakeStep(s, written, asked))
  {
  }

  lemma LineQuiet(s: State, written: bool)
    requires s.phase.Pumping? && Unread(s)
    ensures Quiet(s, LineStep(s, written))
  {
  }

  lemma JobQuiet(s: State, written: bool)
    requires s.phase.Pumping? && s.queue != [] && |s.children| > 0
    ensures Quiet(s, JobStep(s, written))
  {
  }

  lemma StepHandshake(s: State, a: Action)
    requires Enabled(s, a) && HandshakeOk(s)
    ensures HandshakeOk(Next(s, a))
  {
    StepGrows(s, a);
    match a {
      case Spawn(spawned, written) => SpawnKnows(s, spawned, written);
      case ShakeRead(written, asked) => ShakeKnows(s, written, asked);
      case ReadLine(written) => PumpKnows(s, written);
      case TakeJob(written) => JobKnows(s, written);
      case _ => KnownStays(s, Next(s, a));
    }
  }

  lemma ShakeKnows(s: State, written: bool, asked: bool)
    requires s.phase.Shaking? && HandshakeOk(s) && Unread(s)
    ensures HandshakeOk(ShakeStep(s, written, asked))
  {
    var out := s.children[Current(s)].stdout[s.children[Current(s)].read];
    ShakeGrows(s, written, asked);
    if !out.Eof? && Classify(out).Response? && ResponseId(out) == Some(s.phase.id) {
      ResponseKnows(s, out, written, asked);
    } else {
      ShakeQuiet(s, written, asked);
      KnownStays(s, ShakeStep(s, written, asked));
    }
  }

  lemma PumpKnows(s: State, written: bool)
    requires s.phase.Pumping? && HandshakeOk(s) && Unread(s)
    ensures HandshakeOk(LineStep(s, written))
  {
    LineGrows(s, written);
    LineQuiet(s, written);
    KnownStays(s, LineStep(s, written));
  }

  lemma JobKnows(s: State, written: bool)
    requires s.phase.Pumping? && HandshakeOk(s) && s.queue != [] && |s.children| > 0
    ensures HandshakeOk(JobStep(s, written))
  {
    JobGrows(s, written);
    JobQuiet(s, written);
    KnownStays(s, JobStep(s, written));
  }
}
