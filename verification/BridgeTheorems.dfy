/** The promises of the stdio bridge, for every state that any run reaches. */
module BridgeTheorems {
  import opened Json
  import opened Options
  import opened Deaths
  import opened Bridge
  import opened BridgeInvariant
  import opened BridgeSteps
  import opened BridgeRuns
  import opened BridgeLog
  import opened BridgeLines
  import opened BridgeVerdicts
  import opened BridgeHandshake

  // ---------------------------------------------------------------- the restart budget

  ghost predicate BudgetOk(s: State) {
    && Sorted(s.exits) && (forall i :: 0 <= i < |s.exits| ==> s.exits[i] <= s.now)
    && s.deaths == Window(s.exits)
    && (forall n :: 0 <= n < |s.exits| ==> |Window(s.exits[..n])| <= MAX_EXITS)
    && (s.phase == Stopped(true) <==> |Window(s.exits)| > MAX_EXITS)
    && (s.phase.Starting? ==> s.phase.delay == if s.exits == [] then 0 else Backoff(|s.deaths|))
  }

  predicate NoExit(s: State, t: State) {
    && t.exits == s.exits && t.deaths == s.deaths && s.now <= t.now
    && (t.phase == s.phase || (!t.phase.Starting? && t.phase != Stopped(true) && s.phase != Stopped(true)))
  }

  predicate OneExit(s: State, t: State) {
    && t.exits == s.exits + [s.now] && t.deaths == AfterExit(s.deaths, s.now) && t.now == s.now
    && s.phase != Stopped(true)
    && t.phase == if |t.deaths| > MAX_EXITS then Stopped(true) else Starting(Backoff(|t.deaths|))
  }

  lemma CrashExits(s: State, t: State)
    requires t.exits == s.exits && t.deaths == s.deaths && t.now == s.now && s.phase != Stopped(true)
    ensures OneExit(s, Crash(t)) && NoExit(s, Stop(t, false))
  {
  }

  lemma ResponseExits(s: State, value: Json, written: bool, asked: bool)
    requires s.phase.Shaking? && |s.children| > 0 && value.Object?
    ensures var t := ShakeResponse(s, value, written, asked); NoExit(s, t) || OneExit(s, t)
  {
    CrashExits(s, s);
    if s.phase.call.Initialize? {
      CrashExits(s, Write(s, INITIALIZED));
      CrashExits(s, Mint(Write(s, INITIALIZED)));
    }
  }

  lemma ShakeExits(s: State, written: bool, asked: bool)
    requires s.phase.Shaking? && Unread(s)
    ensures NoExit(s, ShakeStep(s, written, asked)) || OneExit(s, ShakeStep(s, written, asked))
  {
    var t := Advance(s);
    CrashExits(s, t);
    var out := s.children[Current(s)].stdout[s.children[Current(s)].read];
    if Classify(out).Response? { ResponseExits(t, Classify(out).value, written, asked); }
  }

  lemma LineExits(s: State, written: bool)
    requires s.phase.Pumping? && Unread(s)
    ensures NoExit(s, LineStep(s, written)) || OneExit(s, LineStep(s, written))
  {
    CrashExits(s, Advance(s));
  }

  lemma JobExits(s: State, written: bool)
    requires s.queue != [] && |s.children| > 0 && s.phase.Pumping?
    ensures NoExit(s, JobStep(s, written)) || OneExit(s, JobStep(s, written))
  {
    var t := s.(queue := s.queue[1..]);
    CrashExits(s, t);
    if s.queue[0].Forwarding? {
      CrashExits(s, Park(t, s.queue[0].originalId, s.queue[0].childId, s.queue[0].reply));
    }
  }

  lemma StepExits(s: State, a: Action)
    requires Enabled(s, a)
    ensures NoExit(s, Next(s, a)) || OneExit(s, Next(s, a))
  {
    match a {
      case Spawn(spawned, written) =>
        CrashExits(s, s);
        CrashExits(s, Mint(s.(children := s.children + [Child([], [], 0)])));
      case ShakeRead(written, asked) => ShakeExits(s, written, asked);
      case ShakeElapse => CrashExits(s, s);
      case TakeJob(written) => JobExits(s, written);
      case ReadLine(written) => LineExits(s, written);
      case _ =>
    }
  }

  lemma StepBudget(s: State, t: State)
    requires BudgetOk(s) && (NoExit(s, t) || OneExit(s, t))
    ensures BudgetOk(t)
  {
    if OneExit(s, t) {
      AfterExitIsWindow(s.exits, s.now);
      forall n | 0 <= n < |t.exits| ensures |Window(t.exits[..n])| <= MAX_EXITS {
        if n < |s.exits| {
          assert t.exits[..n] == s.exits[..n];
        } else {
          assert t.exits[..n] == s.exits;
        }
      }
    }
  }

  // ---------------------------------------------------------------- reachable states

  ghost predicate Invariant(s: State) {
    Core(s) && LogOk(s) && ChargesOk(s) && BudgetOk(s) && LinesHold(s)
  }

  ghost predicate LinesHold(s: State) {
    LinesOk(s) && QueueLines(s.queue) && BodiesOk(s.clients) && BoxesOk(s.clients) && HandshakeOk(s)
  }

  lemma StepLinesHold(s: State, a: Action)
    requires LinesHold(s) && Enabled(s, a) && QueueOk(s.clients, s.queue)
    ensures LinesHold(Next(s, a))
  {
    StepGrows(s, a);
    StepLines(s, a);
    LinesKept(s, Next(s, a));
    StepBodies(s, a);
    StepBoxes(s, a);
    StepHandshake(s, a);
  }

  lemma {:induction false} RunInvariant(s: State, actions: seq<Action>)
    requires Invariant(s) && IsRun(s, actions) && Fresh(End(s, actions))
    ensures Invariant(End(s, actions))
    decreases |actions|
  {
    if actions != [] {
      var t := Next(s, actions[0]);
      RunGrows(s, actions);
      StepKeeps(s, actions[0]);
      StepLog(s, actions[0]);
      StepCharges(s, actions[0]);
      StepLinesHold(s, actions[0]);
      StepExits(s, actions[0]);
      StepBudget(s, t);
      RunInvariant(t, actions[1..]);
    }
  }

  /** A state that some run of the bridge reaches before 2^64 - 3 ids were minted. */
  ghost predicate Reachable(s: State) {
    exists listTools: bool, now: int, actions: seq<Action> :: Reaches(listTools, now, actions, s)
  }

  ghost predicate Reaches(listTools: bool, now: int, actions: seq<Action>, s: State) {
    IsRun(Init(listTools, now), actions) && End(Init(listTools, now), actions) == s && Fresh(s)
  }

  lemma ReachableInvariant(s: State)
    requires Reachable(s)
    ensures Invariant(s)
  {
    var listTools: bool, now: int, actions: seq<Action> :| Reaches(listTools, now, actions, s);
    InitKeeps(listTools, now);
    RunInvariant(Init(listTools, now), actions);
  }

  // ---------------------------------------------------------------- answers

  /** No line from `from` up to `at` answers the request `id`. */
  ghost predicate NoAnswer(stdout: seq<Output>, from: nat, at: nat, id: nat) {
    forall j :: from <= j < at && j < |stdout| ==> !Answers(stdout[j], id)
  }

  lemma NoAnswerIff(stdout: seq<Output>, from: nat, at: nat, id: nat)
    ensures NoAnswer(stdout, from, at, id) <==> NoReply(stdout, from, at, id)
  {
    forall j | from <= j < at && j < |stdout| ensures Answers(stdout[j], id) <==> ResponseId(stdout[j]) == Some(id) {
      AnswersIff(stdout[j], id);
    }
  }

  /** Stdout line `at` of incarnation `k` is the reply to client `h`: `k` is the incarnation that
      received the client's request under its fresh id, and the line is the first one read
      from it afterwards that answers that id. */
  ghost predicate IsReplyTo(s: State, h: nat, k: nat, at: nat) {
    && h < |s.clients| && k < |s.children| && at < |s.children[k].stdout|
    && s.clients[h].id in s.sent && s.sent[s.clients[h].id].child == k && s.sent[s.clients[h].id].from <= at
    && ReceivedBy(s.children[k], s.clients[h])
    && Answers(s.children[k].stdout[at], s.clients[h].id)
    && NoAnswer(s.children[k].stdout, s.sent[s.clients[h].id].from, at, s.clients[h].id)
  }

  /** Some line on the child's stdin carries what the client asked for. */
  ghost predicate ReceivedBy(child: Child, c: Client) {
    exists j :: 0 <= j < |child.stdin| && CarriesRequest(child.stdin[j], c.id, c.body)
  }

  lemma ChargedIsReceived(s: State, h: nat)
    requires Charged(s, h) && s.clients[h].body.Object?
    ensures ReceivedBy(s.children[s.sent[s.clients[h].id].child], s.clients[h])
  {
    var child := s.children[s.sent[s.clients[h].id].child];
    var line := ForwardedLine(s.clients[h].id, s.clients[h].body);
    var j :| 0 <= j < |child.stdin| && child.stdin[j] == line;
    ForwardedCarries(s.clients[h].id, s.clients[h].body);
    assert CarriesRequest(child.stdin[j], s.clients[h].id, s.clients[h].body);
  }

  /** Every delivery is the reply to the request of the client that gets it. */
  lemma DeliveryIsReply(s: State, n: nat)
    requires Core(s) && ChargesOk(s) && n < |s.deliveries|
    ensures IsReplyTo(s, s.deliveries[n].client, s.deliveries[n].child, s.deliveries[n].at)
  {
    var d := s.deliveries[n];
    assert DeliveryOk(s.clients, s.pending, s.sent, s.children, d);
    ChargedIsReceived(s, d.client);
    AnswersIff(s.children[d.child].stdout[d.at], s.clients[d.client].id);
    NoAnswerIff(s.children[d.child].stdout, s.sent[s.clients[d.client].id].from, d.at, s.clients[d.client].id);
  }

  /** The message is the child's line with the id of the client's body in place of the fresh one. */
  ghost predicate PutBack(message: Json, line: Json, body: Json) {
    && message.Object? && line.Object? && body.Object? && "id" in body.fields && "id" in message.fields
    && message.fields["id"] == body.fields["id"] && message.fields - {"id"} == line.fields - {"id"}
  }

  lemma MessageIsPutBack(out: Output, body: Json, message: Json)
    requires out.Text? && out.value.Object? && IsRequestBody(body) && message == WithId(out.value, OriginalId(body))
    ensures PutBack(message, out.value, body)
  {
  }

  ghost predicate IsAnswerOf(s: State, h: nat, k: nat, at: nat, message: Json) {
    IsReplyTo(s, h, k, at) && PutBack(message, s.children[k].stdout[at].value, s.clients[h].body)
  }

  /** A 200 answer is the reply of the incarnation that got the request, with nothing changed
      but the id, which is the client's own again. */
  lemma AnswerIsOwnReply(s: State, h: nat)
    requires Reachable(s) && h < |s.clients|
    requires s.clients[h].stage.Done? && s.clients[h].stage.answer.Answered?
    ensures exists k: nat, at: nat :: IsAnswerOf(s, h, k, at, s.clients[h].stage.answer.message)
  {
    ReachableInvariant(s);
    var message := s.clients[h].stage.answer.message;
    assert MessageOf(s.clients[h].stage) == Some(message);
    var n :| DeliveredTo(s.children, s.deliveries, n, h, s.clients[h].body, message);
    var d := s.deliveries[n];
    DeliveryIsReply(s, n);
    MessageIsPutBack(s.children[d.child].stdout[d.at], s.clients[h].body, message);
    assert IsAnswerOf(s, h, d.child, d.at, message);
  }

  /** Whatever the bridge writes to a child is part of the handshake, a notification as it was posted,
      the request of a client under its fresh id, or the refusal of a request that this child made and
      that was read. */
  lemma EveryLineHasASource(s: State, k: nat, j: nat)
    requires Reachable(s) && k < |s.children| && j < |s.children[k].stdin|
    ensures Explained(s.clients, s.children[k], s.children[k].stdin[j])
  {
    ReachableInvariant(s);
  }

  /** A notification is queued as it was posted, behind what is queued already, … */
  lemma NotificationIsQueued(s: State, body: Json)
    requires Reachable(s) && !s.phase.Stopped? && !s.phase.Unused? && IsNotification(body)
    ensures Enabled(s, PostNotification(body))
    ensures var q := Next(s, PostNotification(body)).queue;
      && |q| == |s.queue| + 1 && q[..|s.queue|] == s.queue
      && q[|s.queue|].Notifying? && q[|s.queue|].line == body
  {
    RouteMeans(body);
  }

  /** … and written to the child as it was queued. */
  lemma NotificationIsWritten(s: State)
    requires Reachable(s) && Enabled(s, TakeJob(true)) && s.queue[0].Notifying?
    ensures var t := Next(s, TakeJob(true));
      && |t.children| == |s.children|
      && t.children[Current(s)].stdin == s.children[Current(s)].stdin + [s.queue[0].line]
  {
  }

  /** While requests are served, the cached answer to `initialize` is what the current child itself
      answered to it. */
  lemma ServedChildIsInitialised(s: State)
    requires Reachable(s) && s.phase.Pumping?
    ensures |s.children| > 0 && Initialised(s.children[Current(s)], s.cache)
  {
    ReachableInvariant(s);
  }

  /** The message is an answer to the body, under its own id, with this result. */
  ghost predicate IsInitializeAnswer(message: Json, body: Json, result: Json) {
    && message.Object? && message.fields.Keys == {"jsonrpc", "id", "result"}
    && message.fields["jsonrpc"] == Str("2.0") && message.fields["result"] == result
    && message.fields["id"] == if body.Has("id") then body.fields["id"] else Null
  }

  /** While requests are served, a client's `initialize` gets what the current child answered to the
      bridge's own, under the client's id; a result that is null counts as none. */
  lemma InitializeIsAnswered(s: State, body: Json)
    requires Reachable(s) && s.phase.Pumping? && HasMethod(body, "initialize")
    ensures Route(body) == FromCache && |s.children| > 0
    ensures
      match CachedAnswer(s.cache, body)
      case Answered(message) => exists result :: Initialised(s.children[Current(s)], result)
                                                 && result != Null && IsInitializeAnswer(message, body, result)
      case Failed(status, _) => status == 502 && Initialised(s.children[Current(s)], Null)
  {
    RouteMeans(body);
    ServedChildIsInitialised(s);
    if s.cache != Null {
      var message := CachedAnswer(s.cache, body).message;
      assert message.fields.Keys == {"jsonrpc", "id", "result"};
      assert IsInitializeAnswer(message, body, s.cache);
    }
  }

  /** A client is failed with 504 after its wait elapsed, and with 502 after its child was lost, its
      sender dropped, or the bridge gave up before it was queued; and for no other reason. */
  lemma FailureHasItsStatus(s: State, a: Action, h: nat)
    requires Reachable(s) && Enabled(s, a) && h < |s.clients| && !s.clients[h].stage.Done?
    requires h < |Next(s, a).clients| && Next(s, a).clients[h].stage.Done?
    ensures Verdict(s.clients[h].stage, Next(s, a).clients[h].stage.answer)
  {
    ReachableInvariant(s);
    StepVerdict(s, a, h);
  }

  /** A request that the child makes is turned down at once, and reading it does nothing else. */
  lemma ChildRequestIsTurnedDown(s: State, line: Json)
    requires Reachable(s) && Enabled(s, ReadLine(true))
    requires IsChildRequest(s.children[Current(s)].stdout[s.children[Current(s)].read])
    ensures
      var t, child := Next(s, ReadLine(true)), s.children[Current(s)];
      && |t.children| == |s.children| && t.clients == s.clients && t.pending == s.pending && t.queue == s.queue
      && |t.children[Current(s)].stdin| == |child.stdin| + 1
      && Rejects(t.children[Current(s)].stdin[|child.stdin|], child.stdout[child.read])
  {
    var out := s.children[Current(s)].stdout[s.children[Current(s)].read];
    RejectionIs(out, out.value);
  }

  /** A client gets one reply, and a line of a child goes to one client: what a child repeats,
      or writes under an id it was not asked for, reaches nobody. */
  lemma DeliveriesAreOneToOne(s: State, m: nat, n: nat)
    requires Reachable(s) && m < n < |s.deliveries|
    ensures s.deliveries[m].client != s.deliveries[n].client
    ensures (s.deliveries[m].child, s.deliveries[m].at) != (s.deliveries[n].child, s.deliveries[n].at)
    ensures IsReplyTo(s, s.deliveries[n].client, s.deliveries[n].child, s.deliveries[n].at)
  {
    ReachableInvariant(s);
    assert DeliveryOk(s.clients, s.pending, s.sent, s.children, s.deliveries[m]);
    assert DeliveryOk(s.clients, s.pending, s.sent, s.children, s.deliveries[n]);
    DeliveryIsReply(s, n);
  }

  /** Line `at` of the current incarnation is the first reply to `id`, which client `h` was minted
      and this incarnation was sent, and nobody got a reply to it yet. */
  ghost predicate IsFirstReply(s: State, id: nat, h: nat, at: nat) {
    && h < |s.clients| && s.clients[h].id == id && 1 <= id <= s.minted
    && id in s.sent && s.sent[id].child == Current(s) >= 0
    && NoAnswer(s.children[Current(s)].stdout, s.sent[id].from, at, id)
    && forall n :: 0 <= n < |s.deliveries| ==> s.deliveries[n].client != h
  }

  /** A pending id waits for its first reply. */
  lemma PendingAwaitsFirstReply(s: State, id: nat)
    requires Reachable(s) && id in s.pending && |s.children| > 0
    ensures IsFirstReply(s, id, s.pending[id].reply, s.children[Current(s)].read)
  {
    ReachableInvariant(s);
    assert EntryOk(s.clients, id, s.pending[id]);
    assert StillOpen(id, s.sent[id], s.children);
    NoAnswerIff(s.children[Current(s)].stdout, s.sent[id].from, s.children[Current(s)].read, id);
    forall n | 0 <= n < |s.deliveries| ensures s.deliveries[n].client != s.pending[id].reply {
      assert DeliveryOk(s.clients, s.pending, s.sent, s.children, s.deliveries[n]);
    }
  }

  /** A line that answers some id, or carries an id that no request has. */
  predicate IsResponse(out: Output) {
    out.Text? && out.value.Object? && !NamesMethod(out.value) && "id" in out.value.fields
  }

  /** What the client whose request is answered gets: the reply goes into its mailbox if it waits. */
  ghost predicate Gets(a: Client, b: Client, out: Output) {
    && SameClient(a, b) && out.Text?
    && if a.stage.Waiting? then b.stage.Waiting? && b.stage.box.Full? && b.stage.box.reply.Good?
                                && PutBack(b.stage.box.reply.message, out.value, a.body)
       else b.stage == a.stage
  }

  /** A response that is read goes to one client, the one whose first reply it is, or to no client at
      all. */
  lemma OnlyFirstRepliesAreAnswers(s: State, written: bool)
    requires Reachable(s) && Enabled(s, ReadLine(written))
    requires IsResponse(s.children[Current(s)].stdout[s.children[Current(s)].read])
    ensures
      var t := Next(s, ReadLine(written));
      var at := s.children[Current(s)].read;
      var out := s.children[Current(s)].stdout[at];
      || (t.clients == s.clients && t.deliveries == s.deliveries && t.pending == s.pending
            && forall id :: id in s.pending ==> !Answers(out, id))
      || (exists id: nat, h: nat :: Answers(out, id) && IsFirstReply(s, id, h, at)
            && t.deliveries == s.deliveries + [Delivery(h, Current(s), at)] && t.pending == s.pending - {id}
            && |t.clients| == |s.clients| && Gets(s.clients[h], t.clients[h], out)
            && forall g :: 0 <= g < |s.clients| && g != h ==> t.clients[g] == s.clients[g])
  {
    var at := s.children[Current(s)].read;
    var out := s.children[Current(s)].stdout[at];
    var id := ResponseId(out);
    assert Next(s, ReadLine(written)) == Deliver(Advance(s), out, at);
    forall i: nat ensures Answers(out, i) <==> id == Some(i) { AnswersIff(out, i); }
    if id.Some? && id.value in s.pending {
      ReachableInvariant(s);
      PendingAwaitsFirstReply(s, id.value);
      assert EntryOk(s.clients, id.value, s.pending[id.value]);
      DeliverGets(s, id.value, out, at);
    }
  }

  lemma DeliverGets(s: State, id: nat, out: Output, at: nat)
    requires |s.children| > 0 && id in s.pending && ResponseId(out) == Some(id)
    requires EntryOk(s.clients, id, s.pending[id]) && IsRequestBody(s.clients[s.pending[id].reply].body)
    ensures
      var t := Deliver(Advance(s), out, at);
      var h := s.pending[id].reply;
      && t.deliveries == s.deliveries + [Delivery(h, Current(s), at)] && t.pending == s.pending - {id}
      && |t.clients| == |s.clients| && Gets(s.clients[h], t.clients[h], out)
      && forall g :: 0 <= g < |s.clients| && g != h ==> t.clients[g] == s.clients[g]
  {
    MessageIsPutBack(out, s.clients[s.pending[id].reply].body, WithId(out.value, s.pending[id].originalId));
  }

  /** A reply to `id` is stray: the id was never minted or never sent to a child, it was sent to an
      earlier incarnation, a reply to it was read before, or its client has been given one. */
  ghost predicate IsStray(s: State, id: nat, at: nat) {
    || id == 0 || id > s.minted || id !in s.sent
    || s.sent[id].child != Current(s)
    || (Current(s) >= 0 && !NoAnswer(s.children[Current(s)].stdout, s.sent[id].from, at, id))
    || exists n :: 0 <= n < |s.deliveries| && s.deliveries[n].client < |s.clients|
                     && s.clients[s.deliveries[n].client].id == id
  }

  /** Late, duplicate and unknown replies reach nobody. */
  lemma StrayRepliesReachNobody(s: State, written: bool)
    requires Reachable(s) && Enabled(s, ReadLine(written))
    requires IsResponse(s.children[Current(s)].stdout[s.children[Current(s)].read])
    requires
      forall id: nat :: Answers(s.children[Current(s)].stdout[s.children[Current(s)].read], id)
        ==> IsStray(s, id, s.children[Current(s)].read)
    ensures
      var t := Next(s, ReadLine(written));
      t.clients == s.clients && t.deliveries == s.deliveries && t.pending == s.pending
  {
    var at := s.children[Current(s)].read;
    var out := s.children[Current(s)].stdout[at];
    OnlyFirstRepliesAreAnswers(s, written);
    forall id: nat | Answers(out, id) && id in s.pending ensures false {
      AnswersIff(out, id);
      PendingAwaitsFirstReply(s, id);
      OneClientPerId(s, id);
    }
  }

  lemma OneClientPerId(s: State, id: nat)
    requires Reachable(s)
    ensures forall g, h :: 0 <= g < |s.clients| && 0 <= h < |s.clients| && s.clients[g].id == id == s.clients[h].id ==>
      g == h
  {
    ReachableInvariant(s);
  }

  /** An answer, once returned, is final. */
  lemma AnswersAreFinal(s: State, actions: seq<Action>, h: nat)
    requires IsRun(s, actions) && h < |s.clients| && s.clients[h].stage.Done?
    ensures h < |End(s, actions).clients| && End(s, actions).clients[h] == s.clients[h]
  {
    RunGrows(s, actions);
    assert SameClient(s.clients[h], End(s, actions).clients[h]);
  }

  /** A request line: it names a method and has an id. */
  predicate IsRequestLine(line: Json, id: nat) {
    NamesMethod(line) && "id" in line.fields && line.fields["id"] == Int(id) && id < U64
  }

  /** Every line on a stdin has a place of its own in the log. */
  lemma {:induction false} LogPlace(children: seq<Child>, k: nat, j: nat) returns (n: nat)
    requires k < |children| && j < |children[k].stdin|
    ensures n < |Log(children)| && Log(children)[n] == children[k].stdin[j]
    ensures n == |Log(children[..k])| + j && |Log(children[..k + 1])| == |Log(children[..k])| + |children[k].stdin|
    decreases |children|
  {
    var last := |children| - 1;
    assert children[..last + 1] == children;
    if k == last {
      n := |Log(children[..last])| + j;
    } else {
      n := LogPlace(children[..last], k, j);
      assert children[..last][..k] == children[..k] && children[..last][..k + 1] == children[..k + 1];
    }
  }

  lemma {:induction false} LogLonger(children: seq<Child>, k: nat, l: nat)
    requires k <= l <= |children|
    ensures |Log(children[..k])| <= |Log(children[..l])|
    decreases l
  {
    if k < l {
      assert children[..l][..l - 1] == children[..l - 1];
      LogLonger(children, k, l - 1);
    }
  }

  lemma PlacesDiffer(children: seq<Child>, k: nat, i: nat, l: nat, j: nat) returns (m: nat, n: nat)
    requires k < |children| && i < |children[k].stdin|
    requires l < |children| && j < |children[l].stdin| && (k < l || (k == l && i < j))
    ensures m < n < |Log(children)|
    ensures Log(children)[m] == children[k].stdin[i] && Log(children)[n] == children[l].stdin[j]
  {
    m := LogPlace(children, k, i);
    n := LogPlace(children, l, j);
    if k < l { LogLonger(children, k + 1, l); }
  }

  lemma WrittenOnceMeans(children: seq<Child>, k: nat, i: nat, l: nat, j: nat)
    requires WrittenOnce(Log(children))
    requires k < |children| && i < |children[k].stdin|
    requires l < |children| && j < |children[l].stdin| && (k < l || (k == l && i < j))
    ensures !SameRequest(children[k].stdin[i], children[l].stdin[j])
  {
    var m, n := PlacesDiffer(children, k, i, l, j);
    assert !SameRequest(Log(children)[m], Log(children)[n]);
  }

  lemma LogIsWrittenOnce(s: State)
    requires Reachable(s)
    ensures WrittenOnce(Log(s.children))
  {
    ReachableInvariant(s);
  }

  /** No request is written to a child twice, also not to a restarted one: two lines on any stdins, at
      different places, never carry the same request id. */
  lemma RequestsAreWrittenOnce(s: State, k: nat, i: nat, l: nat, j: nat, id: nat)
    requires Reachable(s) && k < |s.children| && i < |s.children[k].stdin|
    requires l < |s.children| && j < |s.children[l].stdin| && (k < l || (k == l && i < j))
    requires IsRequestLine(s.children[k].stdin[i], id)
    ensures !IsRequestLine(s.children[l].stdin[j], id)
  {
    LogIsWrittenOnce(s);
    WrittenOnceMeans(s.children, k, i, l, j);
  }

  // ---------------------------------------------------------------- nothing is lost or leaked

  /** `inflight` is the number of pending requests; pending ids are below `next_id`; nothing is
      pending while a child is being started or shaken hands with, or after the bridge gave up. */
  lemma PendingIsCounted(s: State)
    requires Reachable(s)
    ensures s.inflight == |s.pending| && s.nextId == s.minted + 1
    ensures forall id :: id in s.pending ==> id < s.nextId
    ensures s.phase.Starting? || s.phase.Shaking? || s.phase.Stopped? ==> s.pending == map[]
  {
    ReachableInvariant(s);
    assert forall id :: id in s.pending ==> EntryOk(s.clients, id, s.pending[id]);
  }

  /** Who is behind a pending id: a client that still waits, one about to cancel, one whose
      cancel job is queued, or one whose handler was dropped. */
  lemma PendingHasAReason(s: State, id: nat)
    requires Reachable(s) && id in s.pending
    ensures
      var h := s.pending[id].reply;
      && h < |s.clients| && s.clients[h].id == id
      && (s.clients[h].stage == Waiting(Empty) || s.clients[h].stage.TimedOut? || s.clients[h].stage.Abandoned?
          || (s.clients[h].stage.Done? && Cancel(id) in s.queue))
  {
    ReachableInvariant(s);
    assert EntryOk(s.clients, id, s.pending[id]);
    if s.clients[s.pending[id].reply].stage.Done? {
      assert CancelAfter(s.queue, 0, id);
    }
  }

  /** Once the queue is drained and every handler returned, nothing is pending. */
  lemma DrainedMeansEmpty(s: State)
    requires Reachable(s) && s.queue == []
    requires forall h :: 0 <= h < |s.clients| ==> s.clients[h].stage.Done?
    ensures s.pending == map[] && s.inflight == 0
  {
    ReachableInvariant(s);
    forall id | id in s.pending ensures false {
      PendingHasAReason(s, id);
    }
    assert s.pending == map[];
  }

  /** A client that waits is never forgotten: its sender is queued or pending, so after the
      bridge gave up every waiting client has its verdict in the mailbox. */
  lemma WaitersAreNeverForgotten(s: State, h: nat)
    requires Reachable(s) && h < |s.clients| && s.clients[h].stage == Waiting(Empty)
    ensures !s.phase.Stopped?
    ensures Queued(s.queue, h) != (s.clients[h].id in s.pending)
  {
    ReachableInvariant(s);
    if Queued(s.queue, h) {
      var q :| 0 <= q < |s.queue| && s.queue[q].Forwarding? && s.queue[q].reply == h;
      assert JobOk(s.clients, s.queue[q]);
    }
  }

  // ---------------------------------------------------------------- restarts

  /** The bridge gives up over exits at exactly the first exit that is the sixth within sixty
      seconds, the deque is that window of the full history, and until then each restart waits
      200, 400, 800, 1600 or 3200 ms by the number of exits in the window. */
  lemma RestartBudget(s: State)
    requires Reachable(s)
    ensures s.deaths == Window(s.exits)
    ensures s.exits != [] ==> |s.deaths| == |LastMinute(s.exits)|
    ensures forall n :: 0 <= n < |s.exits| ==> |Window(s.exits[..n])| <= 5
    ensures s.phase == Stopped(true) <==> |Window(s.exits)| > 5
    ensures s.phase.Starting? && s.exits != [] ==>
      1 <= |Window(s.exits)| <= 5 && s.phase.delay == [200, 400, 800, 1600, 3200][|Window(s.exits)| - 1]
  {
    ReachableInvariant(s);
    WindowIsLastMinute(s.exits);
    if s.phase.Starting? && s.exits != [] {
      RecentIsSuffix(s.exits, s.exits[|s.exits| - 1]);
      BackoffDelays(|s.deaths|);
    }
  }
}
