/** How the bridge fails a request: what the supervisor puts into the mailboxes of its clients, and
    which status a handler makes of it. */
module BridgeVerdicts {
  import opened Json
  import opened Options
  import opened Bridge
  import opened BridgeInvariant
  import opened Deaths

  /** A bad reply in a mailbox always says the same. */
  predicate BoxOk(stage: Stage) {
    stage.Waiting? && stage.box.Full? && stage.box.reply.Bad? ==> stage.box.reply.reason == "upstream unreachable"
  }

  predicate BoxesOk(clients: seq<Client>) {
    forall h :: 0 <= h < |clients| ==> BoxOk(clients[h].stage)
  }

  /** All that happens to a client is that its mailbox changes. */
  predicate Mailed(a: Stage, b: Stage) {
    b == a || (a.Waiting? && b.Waiting? && BoxOk(b))
  }

  predicate OnlyMail(clients: seq<Client>, clients': seq<Client>) {
    |clients'| == |clients| && forall h :: 0 <= h < |clients| ==> Mailed(clients[h].stage, clients'[h].stage)
  }

  lemma FailMails(s: State)
    ensures OnlyMail(s.clients, FailPending(s).clients)
  {
  }

  lemma StopMails(s: State)
    ensures OnlyMail(s.clients, Stop(s, true).clients) && OnlyMail(s.clients, Stop(s, false).clients)
  {
    FailMails(s);
  }

  lemma CrashMails(s: State)
    ensures OnlyMail(s.clients, Crash(s).clients)
  {
    FailMails(s);
    StopMails(FailPending(s).(deaths := AfterExit(s.deaths, s.now), exits := s.exits + [s.now]));
  }

  lemma ShakeResponseMails(s: State, value: Json, written: bool, asked: bool)
    requires s.phase.Shaking? && |s.children| > 0 && value.Object?
    ensures OnlyMail(s.clients, ShakeResponse(s, value, written, asked).clients)
  {
    var t := Write(s, INITIALIZED);
    CrashMails(s);
    StopMails(s);
    StopMails(t);
    CrashMails(Mint(t));
  }

  lemma ShakeMails(s: State, written: bool, asked: bool)
    requires s.phase.Shaking? && Unread(s)
    ensures OnlyMail(s.clients, ShakeStep(s, written, asked).clients)
  {
    var out := s.children[Current(s)].stdout[s.children[Current(s)].read];
    CrashMails(Advance(s));
    if Classify(out).Response? { ShakeResponseMails(Advance(s), Classify(out).value, written, asked); }
  }

  lemma PumpMails(s: State, written: bool)
    requires Unread(s)
    ensures OnlyMail(s.clients, LineStep(s, written).clients)
  {
    CrashMails(Advance(s));
  }

  lemma JobMails(s: State, written: bool)
    requires s.queue != [] && |s.children| > 0
    ensures OnlyMail(s.clients, JobStep(s, written).clients)
  {
    var t := s.(queue := s.queue[1..]);
    CrashMails(t);
    if s.queue[0].Forwarding? { CrashMails(Park(t, s.queue[0].originalId, s.queue[0].childId, s.queue[0].reply)); }
  }

  lemma SpawnMails(s: State, spawned: bool, written: bool)
    requires s.phase.Starting?
    ensures OnlyMail(s.clients, Next(s, Spawn(spawned, written)).clients)
  {
    StopMails(s);
    CrashMails(Mint(s.(children := s.children + [Child([], [], 0)])));
  }

  predicate ByHandler(a: Action) {
    a.Post? || a.Enqueue? || a.PostNotification? || a.Receive? || a.Elapse? || a.SendCancel? || a.Abandon?
  }

  /** The supervisor, the clock and the children only ever fill mailboxes. */
  lemma SupervisorMails(s: State, a: Action)
    requires Enabled(s, a) && !ByHandler(a)
    ensures OnlyMail(s.clients, Next(s, a).clients)
  {
    match a {
      case Spawn(spawned, written) => SpawnMails(s, spawned, written);
      case ShakeRead(written, asked) => ShakeMails(s, written, asked);
      case ShakeElapse => StopMails(s);
      case TakeJob(written) => JobMails(s, written);
      case ReadLine(written) => PumpMails(s, written);
      case _ =>
    }
  }

  lemma StepBoxes(s: State, a: Action)
    requires Enabled(s, a) && BoxesOk(s.clients)
    ensures BoxesOk(Next(s, a).clients)
  {
    if !ByHandler(a) { SupervisorMails(s, a); }
  }

  /** What a handler has gone through when it fails its request, and what it answers. */
  predicate Verdict(before: Stage, answer: Answer) {
    answer.Failed? ==>
      match before
      case TimedOut => answer.status == 504 && answer.reason == "upstream timeout"
      case Waiting(Full(Bad(_))) => answer.status == 502 && answer.reason == "upstream unreachable"
      case Waiting(Closed) => answer.status == 502 && answer.reason == "upstream unreachable"
      case Minted => answer.status == 502 && answer.reason == "upstream unreachable"
      case _ => false
  }

  lemma StepVerdict(s: State, a: Action, h: nat)
    requires Enabled(s, a) && BoxesOk(s.clients) && h < |s.clients| && !s.clients[h].stage.Done?
    requires h < |Next(s, a).clients| && Next(s, a).clients[h].stage.Done?
    ensures Verdict(s.clients[h].stage, Next(s, a).clients[h].stage.answer)
  {
    if !ByHandler(a) { SupervisorMails(s, a); }
  }

  /** The child is lost: every request that was with it, and that a handler still waits for, gets the
      same bad reply. */
  lemma CrashFailsPending(s: State, id: nat)
    requires id in s.pending && s.pending[id].reply < |s.clients|
    requires s.clients[s.pending[id].reply].stage == Waiting(Empty)
    ensures |Crash(s).clients| == |s.clients|
    ensures Crash(s).clients[s.pending[id].reply].stage == Waiting(Full(Bad("upstream unreachable")))
  {
    assert Awaits(s.pending, s.pending[id].reply);
  }
}
