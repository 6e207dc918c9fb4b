/** Which steps of the bridge lose a child, and which end the bridge: read off the lines at hand and the
    writes that fail. */
module BridgeExits {
  import opened Json
  import opened Options
  import opened Bridge
  import opened BridgeLines

  /** Reading the line loses the child: its output is over, or the refusal cannot be written to it. */
  predicate LineLoses(out: Output, written: bool) {
    out.Eof? || (IsChildRequest(out) && !written)
  }

  /** The line is a good answer to the call `id`. */
  predicate IsGood(out: Output, id: nat) {
    Answers(out, id) && "error" !in out.value.fields
  }

  /** A write of the handshake fails: of the notification, or of the `tools/list` call. */
  predicate AnswerLoses(s: State, out: Output, written: bool, asked: bool)
    requires s.phase.Shaking?
  {
    && s.phase.call.Initialize? && IsGood(out, s.phase.id)
    && (!written || ("result" in out.value.fields && s.listTools && !asked))
  }

  /** The answer is an error, or not what the handshake asks for. */
  predicate AnswerEnds(s: State, out: Output, written: bool)
    requires s.phase.Shaking?
  {
    && Answers(out, s.phase.id)
    && ("error" in out.value.fields
        || (s.phase.call.Initialize? && written && "result" !in out.value.fields)
        || (s.phase.call.ToolsList? && !HasTools(out.value)))
  }

  predicate HasTools(v: Json) {
    v.Has("result") && v.fields["result"].Has("tools") && v.fields["result"].fields["tools"].Array?
  }

  function Front(s: State): Output
    requires Unread(s)
  {
    s.children[|s.children| - 1].stdout[s.children[|s.children| - 1].read]
  }

  /** The step loses the child: a write to it fails, or its output is over. */
  ghost predicate LosesChild(s: State, a: Action)
    requires Enabled(s, a)
  {
    match a
    case Spawn(spawned, written) => spawned && !written
    case ShakeRead(written, asked) => LineLoses(Front(s), written) || AnswerLoses(s, Front(s), written, asked)
    case TakeJob(written) => !written && !s.queue[0].Cancel?
    case ReadLine(written) => LineLoses(Front(s), written)
    case _ => false
  }

  /** The step ends the bridge: there is no child to begin with, or the handshake fails otherwise. */
  ghost predicate EndsBridge(s: State, a: Action)
    requires Enabled(s, a)
  {
    match a
    case Spawn(spawned, _) => !spawned
    case ShakeRead(written, _) => AnswerEnds(s, Front(s), written)
    case ShakeElapse => true
    case _ => false
  }

  /** What becomes of exits, pending requests and phase. */
  predicate Outcome(s: State, t: State, lost: bool, ended: bool) {
    && t.exits == (if lost then s.exits + [s.now] else s.exits)
    && (lost || ended ==> t.pending == map[])
    && (lost ==> t.phase.Starting? || t.phase == Stopped(true))
    && (ended ==> t.phase == Stopped(false))
    && (!lost && !ended ==> t.phase == s.phase || (!t.phase.Starting? && !t.phase.Stopped?))
  }

  lemma Crashed(s: State, t: State)
    requires t.exits == s.exits && t.now == s.now
    ensures Outcome(s, Crash(t), true, false) && Outcome(s, Stop(t, false), false, true)
  {
  }

  lemma SpawnOutcome(s: State, spawned: bool, written: bool)
    requires s.phase.Starting?
    ensures Outcome(s, Next(s, Spawn(spawned, written)), spawned && !written, !spawned)
  {
    Crashed(s, s);
    Crashed(s, Mint(s.(children := s.children + [Child([], [], 0)])));
  }

  lemma GoodOutcome(s: State, t: State, value: Json, written: bool, asked: bool)
    requires s.phase.Shaking? && t.phase == s.phase && t.listTools == s.listTools
    requires t.exits == s.exits && t.now == s.now
    requires |t.children| > 0 && value.Object? && s.phase.call.Initialize? && "error" !in value.fields
    ensures Outcome(s, ShakeResponse(t, value, written, asked),
                    !written || ("result" in value.fields && s.listTools && !asked),
                    written && "result" !in value.fields)
  {
    Crashed(s, t);
    Crashed(s, Write(t, INITIALIZED));
    Crashed(s, Mint(Write(t, INITIALIZED)));
  }

  lemma ToolsOutcome(s: State, t: State, value: Json, written: bool, asked: bool)
    requires s.phase.Shaking? && t.phase == s.phase && t.exits == s.exits && t.now == s.now
    requires |t.children| > 0 && value.Object? && s.phase.call.ToolsList?
    ensures Outcome(s, ShakeResponse(t, value, written, asked), false, "error" in value.fields || !HasTools(value))
  {
    Crashed(s, t);
  }

  lemma ErrorOutcome(s: State, t: State, value: Json, written: bool, asked: bool)
    requires s.phase.Shaking? && t.phase == s.phase && t.exits == s.exits && t.now == s.now
    requires |t.children| > 0 && value.Object? && "error" in value.fields
    ensures Outcome(s, ShakeResponse(t, value, written, asked), false, true)
  {
    Crashed(s, t);
  }

  lemma ResponseOutcome(s: State, out: Output, written: bool, asked: bool)
    requires s.phase.Shaking? && Unread(s) && out == Front(s) && Answers(out, s.phase.id)
    ensures Outcome(s, ShakeResponse(Advance(s), out.value, written, asked),
                    AnswerLoses(s, out, written, asked), AnswerEnds(s, out, written))
  {
    var t := Advance(s);
    if "error" in out.value.fields {
      ErrorOutcome(s, t, out.value, written, asked);
    } else if s.phase.call.Initialize? {
      GoodOutcome(s, t, out.value, written, asked);
    } else {
      ToolsOutcome(s, t, out.value, written, asked);
    }
  }

  lemma ShakeOutcome(s: State, written: bool, asked: bool)
    requires s.phase.Shaking? && Unread(s)
    ensures Outcome(s, ShakeStep(s, written, asked),
                    LineLoses(Front(s), written) || AnswerLoses(s, Front(s), written, asked),
                    AnswerEnds(s, Front(s), written))
  {
    var out := Front(s);
    Crashed(s, Advance(s));
    AnswersIff(out, s.phase.id);
    if Answers(out, s.phase.id) { ResponseOutcome(s, out, written, asked); }
  }

  lemma LineOutcome(s: State, written: bool)
    requires s.phase.Pumping? && Unread(s)
    ensures Outcome(s, LineStep(s, written), LineLoses(Front(s), written), false)
  {
    Crashed(s, Advance(s));
  }

  lemma JobOutcome(s: State, written: bool)
    requires s.phase.Pumping? && s.queue != [] && |s.children| > 0
    ensures Outcome(s, JobStep(s, written), !written && !s.queue[0].Cancel?, false)
  {
    var t := s.(queue := s.queue[1..]);
    Crashed(s, t);
    if s.queue[0].Forwarding? {
      Crashed(s, Park(t, s.queue[0].originalId, s.queue[0].childId, s.queue[0].reply));
    }
  }

  /** An exit is counted for exactly the steps that lose the child, and the bridge ends for reasons other
      than exits at exactly those that find no child or a handshake failed; either way nothing stays
      pending. */
  lemma StepOutcome(s: State, a: Action)
    requires Enabled(s, a)
    ensures Outcome(s, Next(s, a), LosesChild(s, a), EndsBridge(s, a))
  {
    match a {
      case Spawn(spawned, written) => SpawnOutcome(s, spawned, written);
      case ShakeRead(written, asked) => ShakeOutcome(s, written, asked);
      case ShakeElapse => Crashed(s, s);
      case TakeJob(written) => JobOutcome(s, written);
      case ReadLine(written) => LineOutcome(s, written);
      case _ =>
    }
  }
}
