/** What the lines between the bridge and its children say, spelled out key by key, and where every
    line on a child's stdin comes from. */
module BridgeLines {
  import opened Json
  import opened Options
  import opened Bridge
  import opened BridgeInvariant
  import opened BridgeRuns

  // ---------------------------------------------------------------- what a line says

  /** The string under `method`, empty when there is none. */
  ghost predicate HasMethod(v: Json, name: string) {
    v.Object? &&
    if "method" in v.fields && v.fields["method"].Str? then v.fields["method"] == Str(name) else name == ""
  }

  /** The line asks for what `body` asks for, under the id `id`: it has the method of the body, its
      `params` or an empty object, and nothing else but `jsonrpc`. */
  ghost predicate CarriesRequest(line: Json, id: nat, body: Json) {
    && line.Object? && body.Object? && line.fields.Keys == {"jsonrpc", "id", "method", "params"}
    && line.fields["jsonrpc"] == Str("2.0") && line.fields["id"] == Int(id)
    && line.fields["method"].Str? && HasMethod(body, line.fields["method"].s)
    && line.fields["params"] == if "params" in body.fields then body.fields["params"] else Object(map[])
  }

  /** What the bridge says of itself: the protocol, no capabilities, its name and version. */
  ghost predicate Introduces(params: Json) {
    && params.Object? && params.fields.Keys == {"protocolVersion", "capabilities", "clientInfo"}
    && params.fields["protocolVersion"] == Str("2025-06-18") && params.fields["capabilities"] == Object(map[])
    && params.fields["clientInfo"] == Object(map["name" := Str("mcp-gateway"), "version" := Str("0.11.2")])
  }

  /** A call of the handshake. */
  ghost predicate IsHandshake(line: Json) {
    && line.Object? && line.fields.Keys == {"jsonrpc", "id", "method", "params"}
    && line.fields["jsonrpc"] == Str("2.0") && line.fields["id"].Int?
    && ((line.fields["method"] == Str("initialize") && Introduces(line.fields["params"]))
        || (line.fields["method"] == Str("tools/list") && line.fields["params"] == Object(map[])))
  }

  ghost predicate IsInitialized(line: Json) {
    && line.Object? && line.fields.Keys == {"jsonrpc", "method"}
    && line.fields["jsonrpc"] == Str("2.0") && line.fields["method"] == Str("notifications/initialized")
  }

  /** A body that is passed on as it is: it has no id, and the bridge does not answer it itself. */
  ghost predicate IsNotification(v: Json) {
    v.Object? && "id" !in v.fields && !HasMethod(v, "initialize") && !HasMethod(v, "notifications/initialized")
  }

  /** A body that is forwarded under a fresh id. */
  ghost predicate IsRequestBody(v: Json) {
    v.Object? && "id" in v.fields && !HasMethod(v, "initialize")
  }

  predicate NamesMethod(v: Json) {
    v.Object? && "method" in v.fields && v.fields["method"].Str?
  }

  /** A request that the child makes of its client. */
  predicate IsChildRequest(out: Output) {
    out.Text? && NamesMethod(out.value) && "id" in out.value.fields
  }

  /** The child's request is turned down under its own id. */
  ghost predicate Rejects(line: Json, out: Output) {
    && IsChildRequest(out) && line.Object? && line.fields.Keys == {"jsonrpc", "id", "error"}
    && line.fields["jsonrpc"] == Str("2.0") && line.fields["id"] == out.value.fields["id"]
    && line.fields["error"]
       == Object(map["code" := Int(-32601), "message" := Str("server requests are not bridged")])
  }

  /** The stdout line answers the request `id`. */
  predicate Answers(out: Output, id: nat) {
    && out.Text? && out.value.Object? && !NamesMethod(out.value)
    && "id" in out.value.fields && out.value.fields["id"] == Int(id) && id < U64
  }

  lemma AnswersIff(out: Output, id: nat)
    ensures ResponseId(out) == Some(id) <==> Answers(out, id)
  {
  }

  lemma MethodMeans(v: Json, name: string)
    requires v.Object?
    ensures MethodOf(v) == name <==> HasMethod(v, name)
  {
  }

  /** What becomes of a body, for every JSON value. */
  lemma RouteMeans(body: Json)
    ensures Route(body) == Refuse(400) <==> !body.Object?
    ensures Route(body) == Forward <==> IsRequestBody(body)
    ensures Route(body) == Notify <==> IsNotification(body)
    ensures Route(body) == FromCache <==> HasMethod(body, "initialize")
    ensures Route(body) == AcceptOnly <==>
      body.Object? && "id" !in body.fields && HasMethod(body, "notifications/initialized")
  {
    if body.Object? {
      MethodMeans(body, "initialize");
      MethodMeans(body, "notifications/initialized");
    }
  }

  lemma ForwardedCarries(id: nat, body: Json)
    requires body.Object?
    ensures CarriesRequest(ForwardedLine(id, body), id, body)
  {
    var m := ForwardedLine(id, body).fields;
    assert m.Keys == {"jsonrpc", "id", "method", "params"};
    MethodMeans(body, MethodOf(body));
  }

  lemma IntroductionIs()
    ensures Introduces(InitializeParams())
  {
    assert InitializeParams().fields.Keys == {"protocolVersion", "capabilities", "clientInfo"};
  }

  lemma HandshakeIs(id: nat, call: string)
    requires call == "initialize" || call == "tools/list"
    ensures IsHandshake(HandshakeLine(id, call))
  {
    var line := HandshakeLine(id, call);
    IntroductionIs();
    assert line.fields.Keys == {"jsonrpc", "id", "method", "params"};
    assert call != "initialize" ==> line.fields["params"] == Object(map[]);
  }

  lemma InitializedIs()
    ensures IsInitialized(INITIALIZED)
  {
    assert INITIALIZED.fields.Keys == {"jsonrpc", "method"};
  }

  lemma RejectionIs(out: Output, value: Json)
    requires Classify(out) == Request(value)
    ensures Rejects(Rejection(value), out)
  {
    assert Rejection(value).fields.Keys == {"jsonrpc", "id", "error"};
  }

  // ---------------------------------------------------------------- where every line comes from

  ghost predicate FromClient(clients: seq<Client>, line: Json) {
    exists h :: 0 <= h < |clients| && CarriesRequest(line, clients[h].id, clients[h].body)
  }

  ghost predicate TurnsDown(child: Child, line: Json) {
    exists at :: 0 <= at < child.read && at < |child.stdout| && Rejects(line, child.stdout[at])
  }

  /** A line on the stdin of a child: part of the handshake, a notification, the request of a client
      under its fresh id, or the refusal of a request that the child itself made. */
  ghost predicate Explained(clients: seq<Client>, child: Child, line: Json) {
    || IsHandshake(line) || IsInitialized(line) || IsNotification(line)
    || FromClient(clients, line) || TurnsDown(child, line)
  }

  ghost predicate LinesOk(s: State) {
    forall k, j :: 0 <= k < |s.children| && 0 <= j < |s.children[k].stdin|
      ==> Explained(s.clients, s.children[k], s.children[k].stdin[j])
  }

  /** How much of the stdin of child `k` was there before. */
  function Before(s: State, k: nat): nat {
    if k < |s.children| then |s.children[k].stdin| else 0
  }

  ghost predicate NewLinesOk(s: State, t: State) {
    forall k, j :: 0 <= k < |t.children| && Before(s, k) <= j < |t.children[k].stdin|
      ==> Explained(t.clients, t.children[k], t.children[k].stdin[j])
  }

  lemma ExplainedGrows(clients: seq<Client>, clients': seq<Client>, child: Child, child': Child, line: Json)
    requires Explained(clients, child, line) && ClientsGrow(clients, clients')
    requires child.stdout <= child'.stdout && child.read <= child'.read
    ensures Explained(clients', child', line)
  {
    if FromClient(clients, line) {
      var h :| 0 <= h < |clients| && CarriesRequest(line, clients[h].id, clients[h].body);
      assert CarriesRequest(line, clients'[h].id, clients'[h].body);
    } else if TurnsDown(child, line) {
      var at :| 0 <= at < child.read && at < |child.stdout| && Rejects(line, child.stdout[at]);
      assert Rejects(line, child'.stdout[at]);
    }
  }

  lemma LinesKept(s: State, t: State)
    requires LinesOk(s) && Grows(s, t) && NewLinesOk(s, t)
    ensures LinesOk(t)
  {
    forall k, j | 0 <= k < |t.children| && 0 <= j < |t.children[k].stdin|
      ensures Explained(t.clients, t.children[k], t.children[k].stdin[j])
    {
      if j < Before(s, k) {
        assert t.children[k].stdin[j] == s.children[k].stdin[j];
        ExplainedGrows(s.clients, t.clients, s.children[k], t.children[k], s.children[k].stdin[j]);
      }
    }
  }

  lemma NewLinesTransitive(s: State, t: State, u: State)
    requires NewLinesOk(s, t) && Grows(t, u) && NewLinesOk(t, u)
    ensures NewLinesOk(s, u)
  {
    forall k, j | 0 <= k < |u.children| && Before(s, k) <= j < |u.children[k].stdin|
      ensures Explained(u.clients, u.children[k], u.children[k].stdin[j])
    {
      if j < Before(t, k) {
        assert u.children[k].stdin[j] == t.children[k].stdin[j];
        ExplainedGrows(t.clients, u.clients, t.children[k], u.children[k], t.children[k].stdin[j]);
      }
    }
  }

  /** Nothing is written. */
  predicate Silent(s: State, t: State) {
    && |s.children| <= |t.children|
    && (forall k :: 0 <= k < |s.children| ==> t.children[k].stdin == s.children[k].stdin)
    && (forall k :: |s.children| <= k < |t.children| ==> t.children[k].stdin == [])
  }

  lemma SilentOk(s: State, t: State)
    requires Silent(s, t)
    ensures NewLinesOk(s, t)
  {
  }

  lemma CrashSilent(s: State)
    ensures Silent(s, Crash(s)) && Silent(s, Stop(s, true)) && Silent(s, Stop(s, false))
  {
  }

  lemma WriteOk(s: State, line: Json)
    requires |s.children| > 0 && Explained(s.clients, s.children[Current(s)], line)
    ensures NewLinesOk(s, Write(s, line))
  {
    var t := Write(s, line);
    forall k, j | 0 <= k < |t.children| && Before(s, k) <= j < |t.children[k].stdin|
      ensures Explained(t.clients, t.children[k], t.children[k].stdin[j])
    {
      ExplainedGrows(s.clients, t.clients, s.children[k], t.children[k], line);
    }
  }

  // ---------------------------------------------------------------- steps

  lemma ThenWrite(s: State, t: State, line: Json)
    requires Silent(s, t) && |t.children| > 0 && Explained(t.clients, t.children[Current(t)], line)
    ensures NewLinesOk(s, Write(t, line))
  {
    SilentOk(s, t);
    WriteOk(t, line);
    ChildOpGrows(t, line);
    NewLinesTransitive(s, t, Write(t, line));
  }

  lemma ThenSilent(s: State, t: State, u: State)
    requires NewLinesOk(s, t) && Grows(t, u) && Silent(t, u)
    ensures NewLinesOk(s, u)
  {
    SilentOk(t, u);
    NewLinesTransitive(s, t, u);
  }

  lemma ShakeResponseLines(s: State, value: Json, written: bool, asked: bool)
    requires s.phase.Shaking? && |s.children| > 0 && value.Object?
    ensures NewLinesOk(s, ShakeResponse(s, value, written, asked))
  {
    CrashSilent(s);
    SilentOk(s, Stop(s, false));
    SilentOk(s, Crash(s));
    if !value.Has("error") && s.phase.call.Initialize? && written {
      AfterInitialize(s, value, asked);
    } else {
      SilentOk(s, ShakeResponse(s, value, written, asked));
    }
  }

  lemma AfterInitialize(s: State, value: Json, asked: bool)
    requires s.phase.Shaking? && s.phase.call.Initialize? && |s.children| > 0 && value.Object? && !value.Has("error")
    ensures NewLinesOk(s, ShakeResponse(s, value, true, asked))
  {
    var t := Write(s, INITIALIZED);
    var line := HandshakeLine(s.nextId, "tools/list");
    InitializedIs();
    WriteOk(s, INITIALIZED);
    CrashSilent(t);
    CrashSilent(Mint(t));
    if !value.Has("result") {
      StopGrows(t, false);
      ThenSilent(s, t, Stop(t, false));
    } else if s.listTools && asked {
      HandshakeIs(s.nextId, "tools/list");
      WriteOk(Mint(t), line);
      ChildOpGrows(Mint(t), line);
      SilentOk(t, Mint(t));
      NewLinesTransitive(s, t, Mint(t));
      NewLinesTransitive(s, Mint(t), Write(Mint(t), line));
    } else if s.listTools {
      CrashGrows(Mint(t));
      GrowsTransitive(t, Mint(t), Crash(Mint(t)));
      ThenSilent(s, t, Crash(Mint(t)));
    }
  }

  /** A line was read: a request of the child is turned down, or the write failed. */
  lemma ReadRequestLines(s: State, written: bool)
    requires Unread(s) && Classify(s.children[Current(s)].stdout[s.children[Current(s)].read]).Request?
    ensures
      var value := Classify(s.children[Current(s)].stdout[s.children[Current(s)].read]).value;
      NewLinesOk(s, if written then Write(Advance(s), Rejection(value)) else Crash(Advance(s)))
  {
    var child := s.children[Current(s)];
    var out := child.stdout[child.read];
    var t := Advance(s);
    CrashSilent(t);
    SilentOk(s, Crash(t));
    RejectionIs(out, Classify(out).value);
    var after := t.children[Current(t)];
    assert Rejects(Rejection(Classify(out).value), after.stdout[child.read]) && child.read < after.read;
    ThenWrite(s, t, Rejection(Classify(out).value));
  }

  lemma ShakeLines(s: State, written: bool, asked: bool)
    requires s.phase.Shaking? && Unread(s)
    ensures NewLinesOk(s, ShakeStep(s, written, asked))
  {
    var out := s.children[Current(s)].stdout[s.children[Current(s)].read];
    var t := Advance(s);
    CrashSilent(t);
    SilentOk(s, t);
    if out.Eof? {
      SilentOk(s, Crash(t));
    } else if Classify(out).Request? {
      ReadRequestLines(s, written);
    } else if Classify(out).Response? && ResponseId(out) == Some(s.phase.id) {
      ShakeResponseLines(t, Classify(out).value, written, asked);
      ShakeResponseGrows(t, Classify(out).value, written, asked);
      NewLinesTransitive(s, t, ShakeResponse(t, Classify(out).value, written, asked));
    }
  }

  lemma PumpLines(s: State, written: bool)
    requires Unread(s)
    ensures NewLinesOk(s, LineStep(s, written))
  {
    var out := s.children[Current(s)].stdout[s.children[Current(s)].read];
    CrashSilent(Advance(s));
    if !out.Eof? && Classify(out).Request? {
      ReadRequestLines(s, written);
    } else {
      SilentOk(s, LineStep(s, written));
    }
  }

  ghost predicate QueueLines(queue: seq<Job>) {
    forall q :: 0 <= q < |queue| && queue[q].Notifying? ==> IsNotification(queue[q].line)
  }

  ghost predicate BodiesOk(clients: seq<Client>) {
    forall h :: 0 <= h < |clients| ==> IsRequestBody(clients[h].body)
  }

  lemma JobLines(s: State, written: bool)
    requires s.queue != [] && |s.children| > 0 && QueueOk(s.clients, s.queue) && QueueLines(s.queue)
    requires BodiesOk(s.clients)
    ensures NewLinesOk(s, JobStep(s, written))
  {
    var t := s.(queue := s.queue[1..]);
    assert JobOk(s.clients, s.queue[0]);
    match s.queue[0] {
      case Cancel(id) => SilentOk(s, DropPending(t, id));
      case Notifying(line) =>
        CrashSilent(t);
        SilentOk(s, Crash(t));
        ThenWrite(s, t, line);
      case Forwarding(line, originalId, id, reply) =>
        var u := Park(t, originalId, id, reply);
        CrashSilent(u);
        SilentOk(s, Crash(u));
        ForwardedCarries(id, s.clients[reply].body);
        assert FromClient(u.clients, line);
        ThenWrite(s, u, line);
    }
  }

  lemma SpawnLines(s: State, spawned: bool, written: bool)
    ensures NewLinesOk(s, if spawned then StartChild(s, written) else Stop(s, false))
  {
    CrashSilent(s);
    SilentOk(s, Stop(s, false));
    var t := Mint(s.(children := s.children + [Child([], [], 0)]));
    CrashSilent(t);
    SilentOk(s, Crash(t));
    HandshakeIs(s.nextId, "initialize");
    ThenWrite(s, t, HandshakeLine(s.nextId, "initialize"));
  }

  lemma StepLines(s: State, a: Action)
    requires Enabled(s, a) && QueueOk(s.clients, s.queue) && QueueLines(s.queue) && BodiesOk(s.clients)
    ensures NewLinesOk(s, Next(s, a))
  {
    match a {
      case Spawn(spawned, written) => SpawnLines(s, spawned, written);
      case ShakeRead(written, asked) => ShakeLines(s, written, asked);
      case ShakeElapse =>
        CrashSilent(s);
        SilentOk(s, Next(s, a));
      case TakeJob(written) => JobLines(s, written);
      case ReadLine(written) => PumpLines(s, written);
      case _ => SilentOk(s, Next(s, a));
    }
  }

  // ---------------------------------------------------------------- what is queued

  /** No client joins, and the queue stays or is dropped. */
  predicate Tame(s: State, t: State) {
    |t.clients| == |s.clients| && (t.queue == s.queue || t.queue == [])
  }

  lemma CrashTame(s: State)
    ensures Tame(s, Crash(s)) && Tame(s, Stop(s, true)) && Tame(s, Stop(s, false))
  {
  }

  lemma ShakeResponseTame(s: State, value: Json, written: bool, asked: bool)
    requires s.phase.Shaking? && |s.children| > 0 && value.Object?
    ensures Tame(s, ShakeResponse(s, value, written, asked))
  {
    CrashTame(s);
    CrashTame(Write(s, INITIALIZED));
    CrashTame(Mint(Write(s, INITIALIZED)));
  }

  lemma ShakeTame(s: State, written: bool, asked: bool)
    requires s.phase.Shaking? && Unread(s)
    ensures Tame(s, ShakeStep(s, written, asked))
  {
    var out := s.children[Current(s)].stdout[s.children[Current(s)].read];
    CrashTame(Advance(s));
    if Classify(out).Response? { ShakeResponseTame(Advance(s), Classify(out).value, written, asked); }
  }

  lemma PumpTame(s: State, written: bool)
    requires Unread(s)
    ensures Tame(s, LineStep(s, written))
  {
    CrashTame(Advance(s));
  }

  lemma JobTame(s: State, written: bool)
    requires s.queue != [] && |s.children| > 0
    ensures Tame(s.(queue := s.queue[1..]), JobStep(s, written))
  {
    var t := s.(queue := s.queue[1..]);
    CrashTame(t);
    if s.queue[0].Forwarding? { CrashTame(Park(t, s.queue[0].originalId, s.queue[0].childId, s.queue[0].reply)); }
  }

  lemma SpawnTame(s: State, spawned: bool, written: bool)
    requires s.phase.Starting?
    ensures Tame(s, Next(s, Spawn(spawned, written)))
  {
    CrashTame(s);
    CrashTame(Mint(s.(children := s.children + [Child([], [], 0)])));
  }

  lemma HandlerBodies(s: State, a: Action)
    requires Enabled(s, a) && QueueLines(s.queue) && BodiesOk(s.clients)
    requires a.Post? || a.Enqueue? || a.PostNotification? || a.SendCancel?
    ensures QueueLines(Next(s, a).queue) && BodiesOk(Next(s, a).clients)
  {
    match a {
      case Post(body) => RouteMeans(body);
      case PostNotification(body) => RouteMeans(body);
      case _ =>
    }
  }

  lemma SupervisorTame(s: State, a: Action)
    requires Enabled(s, a)
    requires a.Spawn? || a.ShakeRead? || a.ShakeElapse? || a.ReadLine?
    ensures Tame(s, Next(s, a))
  {
    match a {
      case Spawn(spawned, written) => SpawnTame(s, spawned, written);
      case ShakeRead(_, _) => ShakeTame(s, a.written, a.asked);
      case ShakeElapse => CrashTame(s);
      case ReadLine(_) => PumpTame(s, a.written);
    }
  }

  lemma TameBodies(s: State, t: State)
    requires Tame(s, t) && Grows(s, t) && QueueLines(s.queue) && BodiesOk(s.clients)
    ensures QueueLines(t.queue) && BodiesOk(t.clients)
  {
  }

  /** Only what is posted as such is queued as a notification or forwarded. */
  lemma StepBodies(s: State, a: Action)
    requires Enabled(s, a) && QueueLines(s.queue) && BodiesOk(s.clients)
    ensures QueueLines(Next(s, a).queue) && BodiesOk(Next(s, a).clients)
  {
    if a.Post? || a.Enqueue? || a.PostNotification? || a.SendCancel? {
      HandlerBodies(s, a);
    } else {
      StepGrows(s, a);
      if a.TakeJob? {
        JobTame(s, a.written);
        TameBodies(s.(queue := s.queue[1..]), Next(s, a));
      } else {
        if a.Spawn? || a.ShakeRead? || a.ShakeElapse? || a.ReadLine? { SupervisorTame(s, a); }
        TameBodies(s, Next(s, a));
      }
    }
  }
}
