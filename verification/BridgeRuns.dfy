/** Runs of the stdio bridge: what only ever grows, and the invariant in every reachable state. */
module BridgeRuns {
  import opened Json
  import opened Deaths
  import opened Bridge
  import opened BridgeInvariant

  ghost predicate IsRun(s: State, actions: seq<Action>)
    decreases |actions|
  {
    actions != [] ==> Enabled(s, actions[0]) && IsRun(Next(s, actions[0]), actions[1..])
  }

  ghost function End(s: State, actions: seq<Action>): State
    requires IsRun(s, actions)
    decreases |actions|
  {
    if actions == [] then s else End(Next(s, actions[0]), actions[1..])
  }

  /** Fewer than 2^64 - 3 ids were minted, so that `next_id` has not wrapped around. */
  predicate Fresh(s: State) { s.minted + 1 < U64 - 1 }

  // ---------------------------------------------------------------- what only grows

  /** Clients keep their id and body, and an answer, once returned, is the only one. */
  predicate ClientsGrow(clients: seq<Client>, clients': seq<Client>) {
    && |clients| <= |clients'|
    && forall h :: 0 <= h < |clients| ==>
         SameClient(clients[h], clients'[h]) && (clients[h].stage.Done? ==> clients'[h].stage == clients[h].stage)
  }

  predicate ChildrenGrow(children: seq<Child>, children': seq<Child>) {
    && |children| <= |children'|
    && forall k :: 0 <= k < |children| ==>
         children[k].stdin <= children'[k].stdin && children[k].stdout <= children'[k].stdout
         && children[k].read <= children'[k].read
  }

  ghost predicate Grows(s: State, t: State) {
    && s.minted <= t.minted && s.exits <= t.exits && s.deliveries <= t.deliveries
    && ClientsGrow(s.clients, t.clients)
    && ChildrenGrow(s.children, t.children)
  }

  lemma GrowsTransitive(s: State, t: State, u: State)
    requires Grows(s, t) && Grows(t, u)
    ensures Grows(s, u)
  {
  }

  lemma StopGrows(s: State, tooMany: bool)
    ensures Grows(s, Stop(s, tooMany)) && Grows(s, FailPending(s))
  {
  }

  lemma CrashGrows(s: State)
    ensures Grows(s, Crash(s))
  {
    StopGrows(s, true);
    var f := FailPending(s);
    var g := f.(deaths := AfterExit(s.deaths, s.now), exits := s.exits + [s.now]);
    assert Grows(s, g);
    StopGrows(g, true);
    GrowsTransitive(s, g, Stop(g, true));
  }

  lemma ChildOpGrows(s: State, line: Json)
    requires |s.children| > 0
    ensures Grows(s, Write(s, line)) && Grows(s, Advance(s))
  {
  }

  lemma HandlerGrows(s: State, a: Action)
    requires Enabled(s, a)
    requires a.Post? || a.Enqueue? || a.PostNotification? || a.Receive? || a.Elapse? || a.SendCancel? || a.Abandon?
    ensures Grows(s, Next(s, a))
  {
  }

  lemma ShakeResponseGrows(s: State, value: Json, written: bool, asked: bool)
    requires s.phase.Shaking? && |s.children| > 0 && value.Object?
    ensures Grows(s, ShakeResponse(s, value, written, asked))
  {
    StopGrows(s, false);
    CrashGrows(s);
    if s.phase.call.Initialize? && value.Has("result") && !value.Has("error") && written {
      var t := Write(s, INITIALIZED);
      ChildOpGrows(s, INITIALIZED);
      CrashGrows(Mint(t));
      ChildOpGrows(Mint(t), HandshakeLine(s.nextId, "tools/list"));
      assert Grows(t, Mint(t));
      GrowsTransitive(s, t, Mint(t));
      GrowsTransitive(s, Mint(t), Crash(Mint(t)));
      GrowsTransitive(s, Mint(t), Write(Mint(t), HandshakeLine(s.nextId, "tools/list")));
    } else if s.phase.call.Initialize? && !value.Has("result") && written {
      ChildOpGrows(s, INITIALIZED);
      StopGrows(Write(s, INITIALIZED), false);
      GrowsTransitive(s, Write(s, INITIALIZED), Stop(Write(s, INITIALIZED), false));
    }
  }

  lemma SupervisorGrows(s: State, a: Action)
    requires Enabled(s, a) && (a.Spawn? || a.ShakeRead? || a.ShakeElapse? || a.TakeJob? || a.ReadLine?)
    ensures Grows(s, Next(s, a))
  {
    match a {
      case Spawn(spawned, written) =>
        StopGrows(s, false);
        var t := Mint(s.(children := s.children + [Child([], [], 0)]));
        assert Grows(s, t);
        CrashGrows(t);
        GrowsTransitive(s, t, Crash(t));
        ChildOpGrows(t, HandshakeLine(s.nextId, "initialize"));
        GrowsTransitive(s, t, Write(t, HandshakeLine(s.nextId, "initialize")));
      case ShakeRead(written, asked) => ShakeGrows(s, written, asked);
      case ShakeElapse => StopGrows(s, false);
      case TakeJob(written) => JobGrows(s, written);
      case ReadLine(written) => LineGrows(s, written);
    }
  }

  lemma AfterAdvance(s: State, line: Json)
    requires Unread(s)
    ensures Grows(s, Advance(s)) && Grows(s, Crash(Advance(s))) && Grows(s, Write(Advance(s), line))
  {
    var t := Advance(s);
    ChildOpGrows(s, line);
    CrashGrows(t);
    GrowsTransitive(s, t, Crash(t));
    ChildOpGrows(t, line);
    GrowsTransitive(s, t, Write(t, line));
  }

  lemma DeliverGrows(s: State, out: Output, at: nat)
    ensures Grows(s, Deliver(s, out, at))
  {
  }

  lemma ShakeGrows(s: State, written: bool, asked: bool)
    requires s.phase.Shaking? && Unread(s)
    ensures Grows(s, ShakeStep(s, written, asked))
  {
    var out := s.children[Current(s)].stdout[s.children[Current(s)].read];
    var t := Advance(s);
    match Classify(out) {
      case Request(value) => AfterAdvance(s, Rejection(value));
      case Response(value) =>
        AfterAdvance(s, Null);
        ShakeResponseGrows(t, value, written, asked);
        GrowsTransitive(s, t, ShakeResponse(t, value, written, asked));
      case _ => AfterAdvance(s, Null);
    }
  }

  lemma LineGrows(s: State, written: bool)
    requires Unread(s)
    ensures Grows(s, LineStep(s, written))
  {
    var at := s.children[Current(s)].read;
    var out := s.children[Current(s)].stdout[at];
    var t := Advance(s);
    match Classify(out) {
      case Request(value) => AfterAdvance(s, Rejection(value));
      case Response(value) =>
        AfterAdvance(s, Null);
        DeliverGrows(t, out, at);
        GrowsTransitive(s, t, Deliver(t, out, at));
      case _ => AfterAdvance(s, Null);
    }
  }

  lemma JobGrows(s: State, written: bool)
    requires s.queue != [] && |s.children| > 0
    ensures Grows(s, JobStep(s, written))
  {
    var t := s.(queue := s.queue[1..]);
    match s.queue[0] {
      case Cancel(id) => assert Grows(t, DropPending(t, id));
      case Notifying(line) =>
        CrashGrows(t);
        ChildOpGrows(t, line);
      case Forwarding(line, originalId, id, reply) =>
        var u := Park(t, originalId, id, reply);
        CrashGrows(u);
        ChildOpGrows(u, line);
    }
  }

  lemma StepGrows(s: State, a: Action)
    requires Enabled(s, a)
    ensures Grows(s, Next(s, a))
  {
    match a {
      case Tick(_) =>
      case ChildWrites(_, _) =>
      case Quit =>
      case Spawn(_, _) => SupervisorGrows(s, a);
      case ShakeRead(_, _) => SupervisorGrows(s, a);
      case ShakeElapse => SupervisorGrows(s, a);
      case TakeJob(_) => SupervisorGrows(s, a);
      case ReadLine(_) => SupervisorGrows(s, a);
      case _ => HandlerGrows(s, a);
    }
  }

  /** At most one answer: whatever happens later, a returned answer stays the same, an id is
      never reassigned, and no delivery, exit or line is ever taken back. */
  lemma {:induction false} RunGrows(s: State, actions: seq<Action>)
    requires IsRun(s, actions)
    ensures Grows(s, End(s, actions))
    decreases |actions|
  {
    if actions != [] {
      StepGrows(s, actions[0]);
      RunGrows(Next(s, actions[0]), actions[1..]);
      GrowsTransitive(s, Next(s, actions[0]), End(s, actions));
    }
  }

  lemma InitKeeps(listTools: bool, now: int)
    ensures Core(Init(listTools, now))
  {
  }
}
