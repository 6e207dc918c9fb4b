/** What the stdio bridge writes to its children: no request is ever written twice, and
    every pending or delivered request was written to the incarnation it is charged to. */
module BridgeLog {
  import opened Json
  import opened Options
  import opened Bridge
  import opened Deaths
  import opened BridgeInvariant
  import opened BridgeRuns

  /** Everything written, in order: only the latest child is ever written to. */
  function Log(children: seq<Child>): seq<Json> {
    if children == [] then [] else Log(children[..|children| - 1]) + children[|children| - 1].stdin
  }

  function RequestId(line: Json): Option<nat> {
    if line.Has("method") && line.Has("id") then AsU64(line.fields["id"]) else None
  }

  /** A written request id was minted, and if it is a client's, then it is in `sent`. */
  ghost predicate LineKnown(minted: nat, clients: seq<Client>, sent: map<nat, Sent>, line: Json) {
    RequestId(line).Some? ==>
      && RequestId(line).value <= minted
      && forall h :: 0 <= h < |clients| && clients[h].id == RequestId(line).value ==> RequestId(line).value in sent
  }

  predicate SameRequest(a: Json, b: Json) {
    RequestId(a).Some? && RequestId(a) == RequestId(b)
  }

  ghost predicate WrittenOnce(log: seq<Json>) {
    forall m, n :: 0 <= m < n < |log| ==> !SameRequest(log[m], log[n])
  }

  ghost predicate LogHolds(minted: nat, nextId: nat, clients: seq<Client>, sent: map<nat, Sent>, log: seq<Json>) {
    && IdsOk(minted, nextId, clients)
    && WrittenOnce(log)
    && forall n :: 0 <= n < |log| ==> LineKnown(minted, clients, sent, log[n])
  }

  ghost predicate LogOk(s: State) {
    LogHolds(s.minted, s.nextId, s.clients, s.sent, Log(s.children))
  }

  // ---------------------------------------------------------------- single operations

  lemma {:induction false} LogSame(children: seq<Child>, children': seq<Child>)
    requires |children'| == |children|
    requires forall k :: 0 <= k < |children| ==> children'[k].stdin == children[k].stdin
    ensures Log(children') == Log(children)
    decreases |children|
  {
    if children != [] {
      LogSame(children[..|children| - 1], children'[..|children| - 1]);
    }
  }

  lemma LogAdded(children: seq<Child>)
    ensures Log(children + [Child([], [], 0)]) == Log(children)
  {
    assert (children + [Child([], [], 0)])[..|children|] == children;
  }

  lemma LogWritten(s: State, line: Json)
    requires |s.children| > 0
    ensures Log(Write(s, line).children) == Log(s.children) + [line]
  {
    var children' := Write(s, line).children;
    assert children'[..|children'| - 1] == s.children[..|s.children| - 1];
  }

  /** Nothing was written, and ids, bodies and `sent` only grew. */
  lemma QuietLog(s: State, t: State)
    requires LogOk(s) && IdsOk(t.minted, t.nextId, t.clients)
    requires Log(t.children) == Log(s.children) && s.minted <= t.minted && s.sent.Keys <= t.sent.Keys
    requires |s.clients| <= |t.clients| && forall h :: 0 <= h < |s.clients| ==> t.clients[h].id == s.clients[h].id
    requires forall h :: |s.clients| <= h < |t.clients| ==> t.clients[h].id > s.minted
    ensures LogOk(t)
  {
    forall n | 0 <= n < |Log(t.children)| ensures LineKnown(t.minted, t.clients, t.sent, Log(t.children)[n]) {
      assert LineKnown(s.minted, s.clients, s.sent, Log(s.children)[n]);
    }
  }

  lemma WriteLog(s: State, line: Json)
    requires LogOk(s) && |s.children| > 0
    requires RequestId(line).Some? ==> LineKnown(s.minted, s.clients, s.sent, line)
    requires RequestId(line).Some? ==>
      forall n :: 0 <= n < |Log(s.children)| ==> RequestId(Log(s.children)[n]) != RequestId(line)
    ensures LogOk(Write(s, line))
  {
    LogWritten(s, line);
    var t := Write(s, line);
    forall n | 0 <= n < |Log(t.children)| ensures LineKnown(t.minted, t.clients, t.sent, Log(t.children)[n]) {
      if n < |Log(s.children)| { assert LineKnown(s.minted, s.clients, s.sent, Log(s.children)[n]); }
    }
  }

  lemma MintLog(s: State)
    requires LogOk(s) && Fresh(s)
    ensures LogOk(Mint(s))
  {
    QuietLog(s, Mint(s));
  }

  /** A handshake call under an id minted this very moment. */
  lemma CallLog(s: State, call: string)
    requires LogOk(s) && Fresh(s) && |s.children| > 0
    ensures LogOk(Write(Mint(s), HandshakeLine(s.nextId, call)))
  {
    MintLog(s);
    var line := HandshakeLine(s.nextId, call);
    assert RequestId(line) == Some(s.nextId);
    forall n | 0 <= n < |Log(s.children)| ensures RequestId(Log(s.children)[n]) != RequestId(line) {
      assert LineKnown(s.minted, s.clients, s.sent, Log(s.children)[n]);
    }
    WriteLog(Mint(s), line);
  }

  lemma StopIsQuiet(s: State, tooMany: bool)
    requires LogOk(s)
    ensures LogOk(Stop(s, tooMany))
  {
    QuietLog(s, Stop(s, tooMany));
  }

  lemma StopLog(s: State, tooMany: bool)
    requires LogOk(s)
    ensures LogOk(Stop(s, tooMany)) && LogOk(FailPending(s))
  {
    QuietLog(s, FailPending(s));
    StopIsQuiet(s, tooMany);
  }

  lemma CrashLog(s: State)
    requires LogOk(s)
    ensures LogOk(Crash(s))
  {
    StopLog(s, true);
    var g := FailPending(s).(deaths := AfterExit(s.deaths, s.now), exits := s.exits + [s.now]);
    StopLog(g, true);
  }

  lemma AdvanceLog(s: State)
    requires LogOk(s) && |s.children| > 0
    ensures LogOk(Advance(s))
  {
    LogSame(s.children, Advance(s).children);
    QuietLog(s, Advance(s));
  }

  // ---------------------------------------------------------------- steps

  lemma ShakeResponseLog(s: State, value: Json, written: bool, asked: bool)
    requires LogOk(s) && Fresh(s) && s.phase.Shaking? && |s.children| > 0 && value.Object?
    ensures LogOk(ShakeResponse(s, value, written, asked))
  {
    if value.Has("error") || s.phase.call.ToolsList? {
      StopLog(s, false);
    } else if !written {
      CrashLog(s);
    } else {
      var t := Write(s, INITIALIZED);
      WriteLog(s, INITIALIZED);
      if !value.Has("result") {
        StopLog(t, false);
      } else if asked {
        CallLog(t, "tools/list");
      } else {
        MintLog(t);
        CrashLog(Mint(t));
      }
    }
  }

  lemma ShakeLog(s: State, written: bool, asked: bool)
    requires LogOk(s) && Fresh(s) && s.phase.Shaking? && Unread(s)
    ensures LogOk(ShakeStep(s, written, asked))
  {
    var t := Advance(s);
    AdvanceLog(s);
    CrashLog(t);
    match Classify(s.children[Current(s)].stdout[s.children[Current(s)].read]) {
      case Request(value) => WriteLog(t, Rejection(value));
      case Response(value) => ShakeResponseLog(t, value, written, asked);
      case _ =>
    }
  }

  lemma LineLog(s: State, written: bool)
    requires LogOk(s) && Unread(s)
    ensures LogOk(LineStep(s, written))
  {
    var at := s.children[Current(s)].read;
    var out := s.children[Current(s)].stdout[at];
    var t := Advance(s);
    AdvanceLog(s);
    if out.Eof? { CrashLog(t); }
    match Classify(out) {
      case Request(value) => if written { WriteLog(t, Rejection(value)); } else { CrashLog(t); }
      case Response(value) => QuietLog(t, Deliver(t, out, at));
      case _ =>
    }
  }

  lemma JobLog(s: State, written: bool)
    requires LogOk(s) && QueueOk(s.clients, s.queue) && s.queue != [] && |s.children| > 0
    requires SentOk(s.minted, s.clients, s.queue, s.pending, s.sent, s.children)
    ensures LogOk(JobStep(s, written))
  {
    var t := s.(queue := s.queue[1..]);
    assert JobOk(s.clients, s.queue[0]);
    QuietLog(s, t);
    match s.queue[0] {
      case Cancel(id) => QuietLog(t, DropPending(t, id));
      case Notifying(line) => if written { WriteLog(t, line); } else { CrashLog(t); }
      case Forwarding(line, originalId, id, reply) =>
        var u := Park(t, originalId, id, reply);
        QuietLog(t, u);
        if written { ForwardLog(s, u); } else { CrashLog(u); }
    }
  }

  /** A forwarded id has never been written before. */
  lemma ForwardLog(s: State, u: State)
    requires LogOk(s) && LogOk(u) && QueueOk(s.clients, s.queue)
    requires SentOk(s.minted, s.clients, s.queue, s.pending, s.sent, s.children)
    requires s.queue != [] && |s.children| > 0 && s.queue[0].Forwarding?
    requires u == Park(s.(queue := s.queue[1..]), s.queue[0].originalId, s.queue[0].childId, s.queue[0].reply)
    ensures LogOk(Write(u, s.queue[0].line))
  {
    var job := s.queue[0];
    assert JobOk(s.clients, job) && job.childId !in s.sent;
    assert RequestId(job.line) == Some(job.childId) || RequestId(job.line).None?;
    forall n | 0 <= n < |Log(u.children)| && RequestId(job.line).Some?
      ensures RequestId(Log(u.children)[n]) != RequestId(job.line)
    {
      assert LineKnown(s.minted, s.clients, s.sent, Log(s.children)[n]);
    }
    WriteLog(u, job.line);
  }

  lemma SpawnLog(s: State, spawned: bool, written: bool)
    requires LogOk(s) && Fresh(s)
    ensures spawned ==> LogOk(StartChild(s, written))
    ensures !spawned ==> LogOk(Stop(s, false))
  {
    if spawned {
      LogAdded(s.children);
      var t := s.(children := s.children + [Child([], [], 0)]);
      if written {
        CallLog(t, "initialize");
      } else {
        MintLog(t);
        CrashLog(Mint(t));
      }
    } else {
      StopLog(s, false);
    }
  }

  lemma HandlerLog(s: State, a: Action)
    requires LogOk(s) && Enabled(s, a) && Fresh(s)
    requires a.Post? || a.Enqueue? || a.PostNotification? || a.Receive? || a.Elapse? || a.SendCancel? || a.Abandon?
    ensures LogOk(Next(s, a))
  {
    if a.Post? {
      PostLog(s, Client(s.nextId, a.body, Minted));
    } else if !a.PostNotification? {
      StageLog(s, a.h, Next(s, a).clients[a.h].stage);
    }
  }

  lemma PostLog(s: State, c: Client)
    requires LogOk(s) && Fresh(s) && c.id == s.nextId && c.body.Object?
    ensures LogOk(Mint(s).(clients := s.clients + [c]))
  {
    QuietLog(s, Mint(s).(clients := s.clients + [c]));
  }

  lemma StageLog(s: State, h: nat, stage: Stage)
    requires LogOk(s) && h < |s.clients|
    ensures LogOk(s.(clients := SetStage(s.clients, h, stage)))
  {
    QuietLog(s, s.(clients := SetStage(s.clients, h, stage)));
  }

  lemma StepLog(s: State, a: Action)
    requires LogOk(s) && Core(s) && Enabled(s, a) && Fresh(s)
    ensures LogOk(Next(s, a))
  {
    match a {
      case Tick(_) =>
      case Quit =>
      case ChildWrites(k, out) =>
        LogSame(s.children, Next(s, a).children);
      case Spawn(spawned, written) => SpawnLog(s, spawned, written);
      case ShakeRead(written, asked) => ShakeLog(s, written, asked);
      case ShakeElapse => StopLog(s, false);
      case TakeJob(written) => JobLog(s, written);
      case ReadLine(written) => LineLog(s, written);
      case _ => HandlerLog(s, a);
    }
  }

  // ---------------------------------------------------------------- charged requests

  ghost predicate WrittenTo(children: seq<Child>, k: nat, line: Json) {
    k < |children| && line in children[k].stdin
  }

  /** The request of client `h` stands on the stdin of the incarnation it was charged to. */
  ghost predicate Charged(s: State, h: nat) {
    && h < |s.clients| && s.clients[h].id in s.sent
    && WrittenTo(s.children, s.sent[s.clients[h].id].child, ForwardedLine(s.clients[h].id, s.clients[h].body))
  }

  ghost predicate ChargesOk(s: State) {
    && (forall id :: id in s.pending ==> Charged(s, s.pending[id].reply))
    && (forall n :: 0 <= n < |s.deliveries| ==> Charged(s, s.deliveries[n].client))
  }

  lemma ChargedGrows(s: State, t: State, h: nat)
    requires Charged(s, h) && Grows(s, t)
    requires s.clients[h].id in t.sent && t.sent[s.clients[h].id] == s.sent[s.clients[h].id]
    ensures Charged(t, h)
  {
    var k := s.sent[s.clients[h].id].child;
    var line := ForwardedLine(s.clients[h].id, s.clients[h].body);
    assert s.children[k].stdin <= t.children[k].stdin;
    var j :| 0 <= j < |s.children[k].stdin| && s.children[k].stdin[j] == line;
    assert t.children[k].stdin[j] == line;
  }

  /** A step that parks nothing: what was charged stays so. */
  lemma ChargesKept(s: State, t: State)
    requires ChargesOk(s) && Grows(s, t)
    requires forall id :: id in s.sent ==> id in t.sent && t.sent[id] == s.sent[id]
    requires forall id :: id in t.pending ==> id in s.pending && t.pending[id] == s.pending[id]
    requires forall n :: |s.deliveries| <= n < |t.deliveries| ==> Awaits(s.pending, t.deliveries[n].client)
    ensures ChargesOk(t)
  {
    forall id | id in t.pending ensures Charged(t, t.pending[id].reply) {
      ChargedGrows(s, t, s.pending[id].reply);
    }
    forall n | 0 <= n < |t.deliveries| ensures Charged(t, t.deliveries[n].client) {
      if n < |s.deliveries| {
        assert t.deliveries[n] == s.deliveries[n];
        ChargedGrows(s, t, s.deliveries[n].client);
      } else {
        assert Awaits(s.pending, t.deliveries[n].client);
        var id :| id in s.pending && s.pending[id].reply == t.deliveries[n].client;
        ChargedGrows(s, t, s.pending[id].reply);
      }
    }
  }

  /** What every step but a forwarded job does to `sent`, `pending` and `deliveries`. */
  ghost predicate ParksNothing(s: State, t: State) {
    && t.sent == s.sent
    && (forall id :: id in t.pending ==> id in s.pending && t.pending[id] == s.pending[id])
    && |s.deliveries| <= |t.deliveries|
    && (forall n :: |s.deliveries| <= n < |t.deliveries| ==> Awaits(s.pending, t.deliveries[n].client))
  }

  lemma EndsPending(s: State, t: State)
    requires t.sent == s.sent && t.deliveries == s.deliveries
    ensures ParksNothing(s, Crash(t)) && ParksNothing(s, Stop(t, false))
  {
  }

  lemma ResponseParksNothing(s: State, value: Json, written: bool, asked: bool)
    requires s.phase.Shaking? && |s.children| > 0 && value.Object?
    ensures ParksNothing(s, ShakeResponse(s, value, written, asked))
  {
    EndsPending(s, s);
    if s.phase.call.Initialize? {
      var t := Write(s, INITIALIZED);
      EndsPending(s, t);
      EndsPending(s, Mint(t));
    }
  }

  lemma ShakeParksNothing(s: State, written: bool, asked: bool)
    requires s.phase.Shaking? && Unread(s)
    ensures ParksNothing(s, ShakeStep(s, written, asked))
  {
    var t := Advance(s);
    EndsPending(s, t);
    match Classify(s.children[Current(s)].stdout[s.children[Current(s)].read]) {
      case Response(value) => ResponseParksNothing(t, value, written, asked);
      case _ =>
    }
  }

  lemma LineParksNothing(s: State, written: bool)
    requires Unread(s)
    ensures ParksNothing(s, LineStep(s, written))
  {
    EndsPending(s, Advance(s));
  }

  lemma JobParksNothing(s: State, written: bool)
    requires s.queue != [] && |s.children| > 0 && !s.queue[0].Forwarding?
    ensures ParksNothing(s, JobStep(s, written))
  {
    EndsPending(s, s.(queue := s.queue[1..]));
  }

  lemma SpawnParksNothing(s: State, spawned: bool, written: bool)
    requires Enabled(s, Spawn(spawned, written))
    ensures ParksNothing(s, Next(s, Spawn(spawned, written)))
  {
    EndsPending(s, s);
    EndsPending(s, Mint(s.(children := s.children + [Child([], [], 0)])));
  }

  lemma StepParksNothing(s: State, a: Action)
    requires Enabled(s, a) && (a.TakeJob? ==> !s.queue[0].Forwarding?)
    ensures ParksNothing(s, Next(s, a))
  {
    match a {
      case Spawn(spawned, written) => SpawnParksNothing(s, spawned, written);
      case ShakeRead(written, asked) => ShakeParksNothing(s, written, asked);
      case ShakeElapse => EndsPending(s, s);
      case TakeJob(written) => JobParksNothing(s, written);
      case ReadLine(written) => LineParksNothing(s, written);
      case _ =>
    }
  }

  /** What a forwarded job leaves of the state that charges speak of. */
  lemma ForwardWritten(s: State)
    requires s.queue != [] && s.queue[0].Forwarding? && |s.children| > 0
    ensures var t, job := JobStep(s, true), s.queue[0];
      && t.deliveries == s.deliveries
      && t.sent == s.sent[job.childId := Sent(Current(s), s.children[Current(s)].read)]
      && t.pending == s.pending[job.childId := Pending(job.originalId, job.reply)]
      && |t.children| == |s.children| && job.line in t.children[Current(s)].stdin
  {
    var c := s.children[Current(s)];
    var line := s.queue[0].line;
    assert (c.stdin + [line])[|c.stdin|] == line;
  }

  lemma ForwardFailed(s: State)
    requires s.queue != [] && s.queue[0].Forwarding? && |s.children| > 0
    ensures var t, job := JobStep(s, false), s.queue[0];
      && t.deliveries == s.deliveries
      && t.sent == s.sent[job.childId := Sent(Current(s), s.children[Current(s)].read)]
      && t.pending == map[]
  {
  }

  lemma ForwardCharges(s: State, written: bool)
    requires ChargesOk(s) && Core(s) && s.phase.Pumping? && |s.children| > 0
    requires s.queue != [] && s.queue[0].Forwarding?
    ensures ChargesOk(JobStep(s, written))
  {
    JobGrows(s, written);
    assert JobOk(s.clients, s.queue[0]) && s.queue[0].childId !in s.sent;
    if written { ForwardWritten(s); } else { ForwardFailed(s); }
    ParkedCharges(s, JobStep(s, written));
  }

  lemma ParkedCharges(s: State, t: State)
    requires ChargesOk(s) && Grows(s, t) && t.deliveries == s.deliveries
    requires |s.children| > 0 && s.queue != [] && s.queue[0].Forwarding?
    requires JobOk(s.clients, s.queue[0]) && s.queue[0].childId !in s.sent
    requires t.sent == s.sent[s.queue[0].childId := Sent(Current(s), s.children[Current(s)].read)]
    requires t.pending == map[] ||
      (t.pending == s.pending[s.queue[0].childId := Pending(s.queue[0].originalId, s.queue[0].reply)]
       && s.queue[0].line in t.children[Current(s)].stdin)
    ensures ChargesOk(t)
  {
    forall n | 0 <= n < |t.deliveries| ensures Charged(t, t.deliveries[n].client) {
      ChargedGrows(s, t, s.deliveries[n].client);
    }
    forall id | id in t.pending ensures Charged(t, t.pending[id].reply) {
      if id != s.queue[0].childId { ChargedGrows(s, t, s.pending[id].reply); }
    }
  }

  lemma StepCharges(s: State, a: Action)
    requires ChargesOk(s) && Core(s) && Enabled(s, a)
    ensures ChargesOk(Next(s, a))
  {
    if a.TakeJob? && s.queue[0].Forwarding? {
      ForwardCharges(s, a.written);
    } else {
      StepGrows(s, a);
      StepParksNothing(s, a);
      ChargesKept(s, Next(s, a));
    }
  }
}
