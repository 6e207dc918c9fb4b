/** The stdio bridge (`upstream/stdio.rs`) as a state machine: any number of HTTP handlers,
    one supervisor task, and a succession of child processes that may write anything at any
    time. Every action is one step between two awaits of one task. */
module Bridge {
  import opened Json
  import opened Options
  import opened Deaths

  const U64: int := 0x1_0000_0000_0000_0000
  const UNREACHABLE: string := "upstream unreachable"

  // ---------------------------------------------------------------- messages

  function AsU64(v: Json): Option<nat> {
    if v.Int? && 0 <= v.n < U64 then Some(v.n) else None
  }

  function MethodOf(v: Json): string {
    if v.Has("method") && v.fields["method"].Str? then v.fields["method"].s else ""
  }

  /** What the handler does with the JSON body of a `POST`. */
  datatype Routing = Refuse(status: nat) | AcceptOnly | FromCache | Notify | Forward

  function Route(body: Json): Routing {
    if !body.Object? then Refuse(400)
    else if MethodOf(body) == "notifications/initialized" && !body.Has("id") then AcceptOnly
    else if MethodOf(body) == "initialize" then FromCache
    else if !body.Has("id") then Notify
    else Forward
  }

  function OriginalId(body: Json): Json {
    if body.Has("id") then body.fields["id"] else Null
  }

  /** The line written to the child: the caller's id is replaced by the fresh one. */
  function ForwardedLine(id: nat, body: Json): Json {
    Object(map["jsonrpc" := Str("2.0"), "id" := Int(id), "method" := Str(MethodOf(body)),
               "params" := if body.Has("params") then body.fields["params"] else Object(map[])])
  }

  const PROTOCOL: string := "2025-06-18"

  /** The version of the gateway itself. */
  const VERSION: string := "0.11.2"

  function InitializeParams(): Json {
    var client := Object(map["name" := Str("mcp-gateway"), "version" := Str(VERSION)]);
    Object(map["protocolVersion" := Str(PROTOCOL), "capabilities" := Object(map[]), "clientInfo" := client])
  }

  function HandshakeLine(id: nat, call: string): Json {
    Object(map["jsonrpc" := Str("2.0"), "id" := Int(id), "method" := Str(call),
               "params" := if call == "initialize" then InitializeParams() else Object(map[])])
  }

  const INITIALIZED: Json :=
    Object(map["jsonrpc" := Str("2.0"), "method" := Str("notifications/initialized")])

  /** The answer to a request that the child sent. */
  function Rejection(request: Json): Json {
    Object(map["jsonrpc" := Str("2.0"), "id" := if request.Has("id") then request.fields["id"] else Null,
               "error" := Object(map["code" := Int(-32601), "message" := Str("server requests are not bridged")])])
  }

  datatype Line = Request(value: Json) | Response(value: Json) | Notification(value: Json) | Ignored

  /** One stdout line of the child; `Eof` ends its output. */
  datatype Output = Text(value: Json) | Garbage | Eof

  function Classify(out: Output): Line {
    if !out.Text? then Ignored
    else
      var hasMethod := out.value.Has("method") && out.value.fields["method"].Str?;
      var hasId := out.value.Has("id");
      if hasMethod && hasId then Request(out.value)
      else if hasId then Response(out.value)
      else if hasMethod then Notification(out.value)
      else Ignored
  }

  /** The id under which a stdout line answers a request, if it is a response at all. */
  function ResponseId(out: Output): Option<nat> {
    var line := Classify(out);
    if line.Response? then AsU64(line.value.fields["id"]) else None
  }

  function WithId(message: Json, id: Json): Json
    requires message.Object?
  {
    Object(message.fields["id" := id])
  }

  // ---------------------------------------------------------------- state

  datatype Reply = Good(message: Json) | Bad(reason: string)

  /** The receiving end of a oneshot channel. */
  datatype Mailbox = Empty | Full(reply: Reply) | Closed

  datatype Answer = Answered(message: Json) | Failed(status: nat, reason: string)

  datatype Stage =
    | Minted                  // holds a fresh id, has not queued its job yet
    | Waiting(box: Mailbox)
    | TimedOut                // the wait elapsed, the cancel job is not queued yet
    | Done(answer: Answer)
    | Abandoned               // the handler future was dropped

  /** A forwarded request. */
  datatype Client = Client(id: nat, body: Json, stage: Stage)

  datatype Job =
    | Forwarding(line: Json, originalId: Json, childId: nat, reply: nat)
    | Notifying(line: Json)
    | Cancel(childId: nat)

  datatype Pending = Pending(originalId: Json, reply: nat)

  /** One incarnation of the child: everything written to it, everything it wrote, and how
      much of that the supervisor has read. */
  datatype Child = Child(stdin: seq<Json>, stdout: seq<Output>, read: nat)

  /** The handshake call in flight; `tools/list` follows a successful `initialize`. */
  datatype Call = Initialize | ToolsList(result: Json)

  datatype Phase =
    | Starting(delay: nat)
    | Shaking(call: Call, id: nat)
    | Pumping
    | Stopped(tooMany: bool)
    | Unused                  // every bridge handle and handler is gone

  /** Where a forwarded request went: the incarnation, and its read position at that moment. */
  datatype Sent = Sent(child: nat, from: nat)

  /** A reply handed to a client: stdout line `at` of incarnation `child`. */
  datatype Delivery = Delivery(client: nat, child: nat, at: nat)

  datatype State = State(
    minted: nat,
    nextId: nat,
    clients: seq<Client>,
    queue: seq<Job>,
    phase: Phase,
    pending: map<nat, Pending>,
    inflight: int,
    children: seq<Child>,
    deaths: seq<int>,
    now: int,
    listTools: bool,
    cache: Json,
    // history
    exits: seq<int>,
    sent: map<nat, Sent>,
    deliveries: seq<Delivery>)

  function Init(listTools: bool, now: int): State {
    State(0, 1, [], [], Starting(0), map[], 0, [], [], now, listTools, Null, [], map[], [])
  }

  // ---------------------------------------------------------------- pieces of a step

  /** `fetch_add(1)` on the shared `AtomicU64`. */
  function Mint(s: State): State {
    s.(minted := s.minted + 1, nextId := (s.nextId + 1) % U64)
  }

  function Current(s: State): int { |s.children| - 1 }

  function SetStage(clients: seq<Client>, h: nat, stage: Stage): seq<Client>
    requires h < |clients|
  {
    clients[h := clients[h].(stage := stage)]
  }

  /** `oneshot::Sender::send`: reaches the client only while it still waits. */
  function Send(clients: seq<Client>, h: nat, reply: Reply): seq<Client> {
    if h < |clients| && clients[h].stage.Waiting? then SetStage(clients, h, Waiting(Full(reply))) else clients
  }

  /** Dropping the sender unsent: a client that waits on an empty mailbox sees it closed. */
  function Drop(clients: seq<Client>, h: nat): seq<Client> {
    if h < |clients| && clients[h].stage == Waiting(Empty) then SetStage(clients, h, Waiting(Closed)) else clients
  }

  function DropPending(s: State, id: nat): State {
    if id !in s.pending then s
    else s.(pending := s.pending - {id}, inflight := s.inflight - 1,
            clients := Drop(s.clients, s.pending[id].reply))
  }

  function Deliver(s: State, out: Output, at: nat): State {
    var id := ResponseId(out);
    if id.None? || id.value !in s.pending || |s.children| == 0 then s
    else
      var p := s.pending[id.value];
      s.(pending := s.pending - {id.value}, inflight := s.inflight - 1,
         clients := Send(s.clients, p.reply, Good(WithId(out.value, p.originalId))),
         deliveries := s.deliveries + [Delivery(p.reply, |s.children| - 1, at)])
  }

  ghost predicate Awaits(pending: map<nat, Pending>, h: nat) {
    exists id :: id in pending && pending[id].reply == h
  }

  ghost function FailAll(clients: seq<Client>, pending: map<nat, Pending>): seq<Client> {
    seq(|clients|, h requires 0 <= h < |clients| =>
      if Awaits(pending, h) && clients[h].stage.Waiting?
      then clients[h].(stage := Waiting(Full(Bad(UNREACHABLE)))) else clients[h])
  }

  ghost function FailPending(s: State): State {
    s.(clients := FailAll(s.clients, s.pending), pending := map[], inflight := 0)
  }

  ghost predicate Queued(queue: seq<Job>, h: nat) {
    exists q :: 0 <= q < |queue| && queue[q].Forwarding? && queue[q].reply == h
  }

  /** The supervisor returns: the job channel closes and the jobs left in it are dropped. */
  ghost function Stop(s: State, tooMany: bool): State {
    var f := FailPending(s);
    f.(phase := Stopped(tooMany), queue := [],
       clients := seq(|f.clients|, h requires 0 <= h < |f.clients| =>
         if Queued(f.queue, h) && f.clients[h].stage == Waiting(Empty)
         then f.clients[h].(stage := Waiting(Closed)) else f.clients[h]))
  }

  /** The child is gone: fail what it was working on, then restart it or give up. */
  ghost function Crash(s: State): State {
    var f := FailPending(s);
    var deaths := AfterExit(s.deaths, s.now);
    var g := f.(deaths := deaths, exits := s.exits + [s.now]);
    if |deaths| > MAX_EXITS then Stop(g, true) else g.(phase := Starting(Backoff(|deaths|)))
  }

  /** A line on the stdin of the current child. */
  function Write(s: State, line: Json): State
    requires |s.children| > 0
  {
    var c := s.children[Current(s)];
    s.(children := s.children[Current(s) := c.(stdin := c.stdin + [line])])
  }

  function Advance(s: State): State
    requires |s.children| > 0
  {
    var c := s.children[Current(s)];
    s.(children := s.children[Current(s) := c.(read := c.read + 1)])
  }

  // ---------------------------------------------------------------- actions

  datatype Action =
    | Post(body: Json)
    | Enqueue(h: nat)
    | PostNotification(body: Json)
    | Receive(h: nat)
    | Elapse(h: nat)
    | SendCancel(h: nat)
    | Abandon(h: nat)
    | Tick(to: int)
    | ChildWrites(child: nat, out: Output)
    | Spawn(spawned: bool, written: bool)
    | ShakeRead(written: bool, asked: bool)
    | ShakeElapse
    | TakeJob(written: bool)
    | ReadLine(written: bool)
    | Quit

  predicate Listening(s: State) {
    !s.phase.Stopped? && !s.phase.Unused?
  }

  predicate Unread(s: State) {
    |s.children| > 0 && s.children[Current(s)].read < |s.children[Current(s)].stdout|
  }

  predicate AllFinished(clients: seq<Client>) {
    forall h :: 0 <= h < |clients| ==> clients[h].stage.Done? || clients[h].stage.Abandoned?
  }

  ghost predicate Enabled(s: State, a: Action) {
    match a
    case Post(body) => !s.phase.Unused? && body.Object? && Route(body) == Forward
    case Enqueue(h) => h < |s.clients| && s.clients[h].stage.Minted?
    case PostNotification(body) => !s.phase.Unused? && body.Object? && Route(body) == Notify
    case Receive(h) => h < |s.clients| && s.clients[h].stage.Waiting? && !s.clients[h].stage.box.Empty?
    case Elapse(h) => h < |s.clients| && s.clients[h].stage == Waiting(Empty)
    case SendCancel(h) => h < |s.clients| && s.clients[h].stage.TimedOut?
    case Abandon(h) => h < |s.clients| && s.clients[h].stage.Waiting?
    case Tick(to) => s.now <= to
    case ChildWrites(child, _) => child < |s.children|
    case Spawn(_, _) => s.phase.Starting?
    case ShakeRead(_, _) => s.phase.Shaking? && Unread(s)
    case ShakeElapse => s.phase.Shaking?
    case TakeJob(_) => s.phase.Pumping? && |s.children| > 0 && s.queue != []
    case ReadLine(_) => s.phase.Pumping? && Unread(s)
    case Quit => s.phase.Pumping? && s.queue == [] && AllFinished(s.clients)
  }

  function Push(s: State, job: Job): State {
    if Listening(s) then s.(queue := s.queue + [job]) else s
  }

  function AnswerFor(box: Mailbox): Answer
    requires !box.Empty?
  {
    match box
    case Full(Good(message)) => Answered(message)
    case Full(Bad(reason)) => Failed(if reason == "upstream timeout" then 504 else 502, reason)
    case Closed => Failed(502, UNREACHABLE)
  }

  /** A client's own `initialize` is answered without the child, from what the last child to be shaken
      hands with said. */
  function CachedAnswer(cache: Json, body: Json): Answer {
    if cache.Null? then Failed(502, UNREACHABLE)
    else Answered(Object(map["jsonrpc" := Str("2.0"), "id" := OriginalId(body), "result" := cache]))
  }

  ghost function StartChild(s: State, written: bool): State {
    var t := Mint(s.(children := s.children + [Child([], [], 0)]));
    if written then Write(t, HandshakeLine(s.nextId, "initialize")).(phase := Shaking(Initialize, s.nextId))
    else Crash(t)
  }

  /** The response that the handshake waits for: an error or a missing field ends the bridge,
      a failed write is a crash. `written` and `asked` are the writes of the
      `initialized` notification and of the `tools/list` call. The cache is filled when the handshake ends. */
  ghost function ShakeResponse(s: State, value: Json, written: bool, asked: bool): State
    requires s.phase.Shaking? && |s.children| > 0 && value.Object?
  {
    if value.Has("error") then Stop(s, false)
    else if s.phase.call.Initialize? then
      if !written then Crash(s)
      else if !value.Has("result") then Stop(Write(s, INITIALIZED), false)
      else
        var result := value.fields["result"];
        var t := Write(s, INITIALIZED);
        if !s.listTools then t.(phase := Pumping, cache := result)
        else if asked then
          Write(Mint(t), HandshakeLine(s.nextId, "tools/list")).(phase := Shaking(ToolsList(result), s.nextId))
        else Crash(Mint(t))
    else if value.Has("result") && value.fields["result"].Has("tools") && value.fields["result"].fields["tools"].Array?
    then s.(phase := Pumping, cache := s.phase.call.result)
    else Stop(s, false)
  }

  ghost function ShakeStep(s: State, written: bool, asked: bool): State
    requires s.phase.Shaking? && Unread(s)
  {
    var out := s.children[Current(s)].stdout[s.children[Current(s)].read];
    var t := Advance(s);
    if out.Eof? then Crash(t)
    else match Classify(out)
      case Request(value) => if written then Write(t, Rejection(value)) else Crash(t)
      case Response(value) => if ResponseId(out) == Some(s.phase.id) then ShakeResponse(t, value, written, asked) else t
      case _ => t
  }

  /** `pending.insert`, `inflight.fetch_add(1)`. */
  function Park(s: State, originalId: Json, id: nat, reply: nat): State
    requires |s.children| > 0
  {
    s.(pending := s.pending[id := Pending(originalId, reply)], inflight := s.inflight + 1,
       sent := s.sent[id := Sent(Current(s), s.children[Current(s)].read)])
  }

  ghost function JobStep(s: State, written: bool): State
    requires s.queue != [] && |s.children| > 0
  {
    var t := s.(queue := s.queue[1..]);
    match s.queue[0]
    case Cancel(id) => DropPending(t, id)
    case Notifying(line) => if written then Write(t, line) else Crash(t)
    case Forwarding(line, originalId, id, reply) =>
      var u := Park(t, originalId, id, reply);
      if written then Write(u, line) else Crash(u)
  }

  ghost function LineStep(s: State, written: bool): State
    requires Unread(s)
  {
    var at := s.children[Current(s)].read;
    var out := s.children[Current(s)].stdout[at];
    var t := Advance(s);
    if out.Eof? then Crash(t)
    else match Classify(out)
      case Request(value) => if written then Write(t, Rejection(value)) else Crash(t)
      case Response(_) => Deliver(t, out, at)
      case _ => t
  }

  ghost function Next(s: State, a: Action): State
    requires Enabled(s, a)
  {
    match a
    case Post(body) => Mint(s).(clients := s.clients + [Client(s.nextId, body, Minted)])
    case Enqueue(h) =>
      var c := s.clients[h];
      if Listening(s) then
        Push(s, Forwarding(ForwardedLine(c.id, c.body), OriginalId(c.body), c.id, h))
        .(clients := SetStage(s.clients, h, Waiting(Empty)))
      else s.(clients := SetStage(s.clients, h, Done(Failed(502, UNREACHABLE))))
    case PostNotification(body) => Push(s, Notifying(body))
    case Receive(h) => s.(clients := SetStage(s.clients, h, Done(AnswerFor(s.clients[h].stage.box))))
    case Elapse(h) => s.(clients := SetStage(s.clients, h, TimedOut))
    case SendCancel(h) =>
      Push(s, Cancel(s.clients[h].id))
      .(clients := SetStage(s.clients, h, Done(Failed(504, "upstream timeout"))))
    case Abandon(h) => s.(clients := SetStage(s.clients, h, Abandoned))
    case Tick(to) => s.(now := to)
    case ChildWrites(k, out) => s.(children := s.children[k := s.children[k].(stdout := s.children[k].stdout + [out])])
    case Spawn(spawned, written) => if spawned then StartChild(s, written) else Stop(s, false)
    case ShakeRead(written, asked) => ShakeStep(s, written, asked)
    case ShakeElapse => Stop(s, false)
    case TakeJob(written) => JobStep(s, written)
    case ReadLine(written) => LineStep(s, written)
    case Quit => s.(phase := Unused)
  }
}
