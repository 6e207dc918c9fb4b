/** What every step of the stdio bridge keeps. */
module BridgeInvariant {
  import opened Json
  import opened Options
  import opened Bridge

  predicate Unanswered(stage: Stage) {
    stage == Waiting(Empty) || stage.TimedOut? || stage.Abandoned? || (stage.Done? && stage.answer.Failed?)
  }

  ghost predicate IdsOk(minted: nat, nextId: nat, clients: seq<Client>) {
    && nextId == minted + 1
    && (forall h :: 0 <= h < |clients| ==> 1 <= clients[h].id <= minted && clients[h].body.Object?)
    && (forall g, h :: 0 <= g < h < |clients| ==> clients[g].id < clients[h].id)
  }

  ghost predicate JobOk(clients: seq<Client>, job: Job) {
    match job
    case Forwarding(line, originalId, childId, reply) =>
      && reply < |clients| && clients[reply].id == childId && !clients[reply].stage.Minted?
      && line == ForwardedLine(childId, clients[reply].body)
      && originalId == OriginalId(clients[reply].body)
      && Unanswered(clients[reply].stage)
    case Notifying(line) => !line.Has("id")
    case Cancel(id) => exists h :: 0 <= h < |clients| && clients[h].id == id && clients[h].stage.Done?
  }

  /** Every queued job belongs to one client, and a client has at most one queued request. */
  ghost predicate QueueOk(clients: seq<Client>, queue: seq<Job>) {
    && (forall q :: 0 <= q < |queue| ==> JobOk(clients, queue[q]))
    && (forall p, q :: 0 <= p < q < |queue| && queue[p].Forwarding? && queue[q].Forwarding?
          ==> queue[p].reply != queue[q].reply)
  }

  /** Every pending entry holds the reply sender of the client that the id was minted for. */
  ghost predicate PendingOk(clients: seq<Client>, pending: map<nat, Pending>) {
    forall id :: id in pending ==> EntryOk(clients, id, pending[id])
  }

  predicate EntryOk(clients: seq<Client>, id: nat, p: Pending) {
    && p.reply < |clients| && clients[p.reply].id == id && !clients[p.reply].stage.Minted?
    && p.originalId == OriginalId(clients[p.reply].body)
    && Unanswered(clients[p.reply].stage)
  }

  /** A client that waits on an empty mailbox has its sender in the queue or in `pending`. */
  ghost predicate WaitersHeld(clients: seq<Client>, queue: seq<Job>, pending: map<nat, Pending>) {
    forall h :: 0 <= h < |clients| && clients[h].stage == Waiting(Empty)
      ==> Queued(queue, h) || clients[h].id in pending
  }

  ghost predicate CancelAfter(queue: seq<Job>, from: int, id: nat) {
    exists q :: from <= q < |queue| && 0 <= q && queue[q] == Cancel(id)
  }

  predicate GivenUp(clients: seq<Client>, job: Job) {
    job.Forwarding? && job.reply < |clients| && clients[job.reply].stage.Done?
  }

  /** A client that gave up left a cancel job behind its request. */
  ghost predicate CancelsFollow(clients: seq<Client>, queue: seq<Job>, pending: map<nat, Pending>) {
    && (forall id :: id in pending && pending[id].reply < |clients| && clients[pending[id].reply].stage.Done?
          ==> CancelAfter(queue, 0, id))
    && GiveUpsFollowed(clients, queue)
  }

  ghost predicate GiveUpsFollowed(clients: seq<Client>, queue: seq<Job>) {
    forall q :: 0 <= q < |queue| && GivenUp(clients, queue[q]) ==> CancelAfter(queue, q + 1, queue[q].childId)
  }

  ghost predicate NoReply(stdout: seq<Output>, from: nat, to: nat, id: nat) {
    forall j :: from <= j < to && j < |stdout| ==> ResponseId(stdout[j]) != Some(id)
  }

  predicate SentSomewhere(to: Sent, children: seq<Child>) {
    to.child < |children| && to.from <= children[to.child].read
  }

  ghost predicate StillOpen(id: nat, to: Sent, children: seq<Child>) {
    && |children| > 0 && to.child == |children| - 1
    && NoReply(children[to.child].stdout, to.from, children[to.child].read, id)
  }

  /** Ids are forwarded once, and no reply to a pending id has been read yet. */
  ghost predicate SentOk(minted: nat, clients: seq<Client>, queue: seq<Job>, pending: map<nat, Pending>,
                         sent: map<nat, Sent>, children: seq<Child>)
  {
    && (forall id :: id in sent ==> id <= minted && SentSomewhere(sent[id], children))
    && (forall id :: id in pending ==> id in sent && StillOpen(id, sent[id], children))
    && (forall q :: 0 <= q < |queue| && queue[q].Forwarding? ==> queue[q].childId !in sent)
    && (forall h :: 0 <= h < |clients| && clients[h].stage.Minted? ==> clients[h].id !in sent)
  }

  /** A delivery is the first reply that the incarnation the request went to wrote for its id. */
  ghost predicate DeliveryOk(clients: seq<Client>, pending: map<nat, Pending>, sent: map<nat, Sent>,
                             children: seq<Child>, d: Delivery)
  {
    && d.client < |clients| && clients[d.client].id in sent && clients[d.client].id !in pending
    && d.child == sent[clients[d.client].id].child < |children|
    && sent[clients[d.client].id].from <= d.at < children[d.child].read
    && d.at < |children[d.child].stdout|
    && ResponseId(children[d.child].stdout[d.at]) == Some(clients[d.client].id)
    && NoReply(children[d.child].stdout, sent[clients[d.client].id].from, d.at, clients[d.client].id)
  }

  ghost predicate DeliveriesOk(clients: seq<Client>, pending: map<nat, Pending>, sent: map<nat, Sent>,
                               children: seq<Child>, deliveries: seq<Delivery>)
  {
    && (forall n :: 0 <= n < |deliveries| ==> DeliveryOk(clients, pending, sent, children, deliveries[n]))
    && (forall m, n :: 0 <= m < n < |deliveries| ==> deliveries[m].client != deliveries[n].client)
  }

  /** The reply a client holds or has returned, if it is a child's message. */
  function MessageOf(stage: Stage): Option<Json> {
    if stage.Waiting? && stage.box.Full? && stage.box.reply.Good? then Some(stage.box.reply.message)
    else if stage.Done? && stage.answer.Answered? then Some(stage.answer.message)
    else None
  }

  ghost predicate DeliveredTo(children: seq<Child>, deliveries: seq<Delivery>, n: int, h: nat, body: Json,
                              message: Json) {
    && 0 <= n < |deliveries| && deliveries[n].client == h
    && deliveries[n].child < |children| && deliveries[n].at < |children[deliveries[n].child].stdout|
    && var out := children[deliveries[n].child].stdout[deliveries[n].at];
       out.Text? && out.value.Object? && message == WithId(out.value, OriginalId(body))
  }

  /** Every message in a client's hands is a delivered line with the client's own id put back. */
  ghost predicate AnswersOk(clients: seq<Client>, children: seq<Child>, deliveries: seq<Delivery>) {
    forall h :: 0 <= h < |clients| && MessageOf(clients[h].stage).Some? ==>
      exists n :: DeliveredTo(children, deliveries, n, h, clients[h].body, MessageOf(clients[h].stage).value)
  }

  ghost predicate PhaseOk(s: State) {
    && s.inflight == |s.pending|
    && (!s.phase.Pumping? && !s.phase.Unused? ==> s.pending == map[])
    && (s.phase.Shaking? || s.phase.Pumping? ==> |s.children| > 0)
    && (!Listening(s) ==> s.queue == [])
    && (s.phase.Unused? ==> AllFinished(s.clients))
    && (forall k :: 0 <= k < |s.children| ==> s.children[k].read <= |s.children[k].stdout|)
  }

  ghost predicate Core(s: State) {
    && IdsOk(s.minted, s.nextId, s.clients)
    && QueueOk(s.clients, s.queue)
    && PendingOk(s.clients, s.pending)
    && WaitersHeld(s.clients, s.queue, s.pending)
    && CancelsFollow(s.clients, s.queue, s.pending)
    && SentOk(s.minted, s.clients, s.queue, s.pending, s.sent, s.children)
    && DeliveriesOk(s.clients, s.pending, s.sent, s.children, s.deliveries)
    && AnswersOk(s.clients, s.children, s.deliveries)
    && PhaseOk(s)
  }

  // ---------------------------------------------------------------- steps that change stages only

  predicate SameClient(c: Client, c': Client) {
    c.id == c'.id && c.body == c'.body
  }

  /** A change of one client's stage that concerns nobody else. `held` says that its reply
      sender is still in the queue or in `pending`. */
  predicate QuietChange(a: Stage, b: Stage, held: bool) {
    && a.Minted? == b.Minted?
    && (b == Waiting(Empty) ==> a == Waiting(Empty))
    && (a.Done? ==> b.Done?)
    && (MessageOf(b).Some? ==> MessageOf(b) == MessageOf(a))
    && (held ==> Unanswered(b) && (b.Done? ==> a.Done?))
  }

  ghost predicate Held(s: State, h: nat) {
    Queued(s.queue, h) || (h < |s.clients| && s.clients[h].id in s.pending)
  }

  ghost predicate Quiet(s: State, clients': seq<Client>) {
    && |clients'| == |s.clients|
    && forall h :: 0 <= h < |s.clients| ==>
         SameClient(s.clients[h], clients'[h]) && QuietChange(s.clients[h].stage, clients'[h].stage, Held(s, h))
  }

  lemma QuietQueue(s: State, clients': seq<Client>)
    requires QueueOk(s.clients, s.queue) && Quiet(s, clients')
    ensures QueueOk(clients', s.queue)
  {
    forall q | 0 <= q < |s.queue| ensures JobOk(clients', s.queue[q]) {
      assert JobOk(s.clients, s.queue[q]);
      if s.queue[q].Forwarding? {
        assert Queued(s.queue, s.queue[q].reply);
      } else if s.queue[q].Cancel? {
        var h :| 0 <= h < |s.clients| && s.clients[h].id == s.queue[q].childId && s.clients[h].stage.Done?;
        assert clients'[h].id == s.queue[q].childId && clients'[h].stage.Done?;
      }
    }
  }

  lemma QuietPending(s: State, clients': seq<Client>)
    requires PendingOk(s.clients, s.pending) && Quiet(s, clients')
    ensures PendingOk(clients', s.pending)
  {
    forall id | id in s.pending
      ensures EntryOk(clients', id, s.pending[id])
    {
    }
  }

  lemma QuietCancels(s: State, clients': seq<Client>)
    requires QueueOk(s.clients, s.queue) && PendingOk(s.clients, s.pending)
    requires CancelsFollow(s.clients, s.queue, s.pending) && Quiet(s, clients')
    ensures CancelsFollow(clients', s.queue, s.pending)
  {
    forall q | 0 <= q < |s.queue| && GivenUp(clients', s.queue[q])
      ensures CancelAfter(s.queue, q + 1, s.queue[q].childId)
    {
      assert Queued(s.queue, s.queue[q].reply);
      assert GivenUp(s.clients, s.queue[q]);
    }
  }

  lemma QuietDeliveries(s: State, clients': seq<Client>)
    requires DeliveriesOk(s.clients, s.pending, s.sent, s.children, s.deliveries) && Quiet(s, clients')
    ensures DeliveriesOk(clients', s.pending, s.sent, s.children, s.deliveries)
  {
    forall n | 0 <= n < |s.deliveries| ensures DeliveryOk(clients', s.pending, s.sent, s.children, s.deliveries[n]) {
      assert DeliveryOk(s.clients, s.pending, s.sent, s.children, s.deliveries[n]);
    }
  }

  lemma QuietAnswers(s: State, clients': seq<Client>)
    requires AnswersOk(s.clients, s.children, s.deliveries) && Quiet(s, clients')
    ensures AnswersOk(clients', s.children, s.deliveries)
  {
    forall h | 0 <= h < |clients'| && MessageOf(clients'[h].stage).Some?
      ensures exists n :: DeliveredTo(s.children, s.deliveries, n, h, clients'[h].body,
        MessageOf(clients'[h].stage).value)
    {
      var n :| DeliveredTo(s.children, s.deliveries, n, h, s.clients[h].body, MessageOf(s.clients[h].stage).value);
      assert DeliveredTo(s.children, s.deliveries, n, h, clients'[h].body, MessageOf(clients'[h].stage).value);
    }
  }

  lemma QuietKeeps(s: State, clients': seq<Client>)
    requires Core(s) && !s.phase.Unused? && Quiet(s, clients')
    ensures Core(s.(clients := clients'))
  {
    QuietQueue(s, clients');
    QuietPending(s, clients');
    QuietCancels(s, clients');
    QuietDeliveries(s, clients');
    QuietAnswers(s, clients');
    assert IdsOk(s.minted, s.nextId, clients');
    assert WaitersHeld(clients', s.queue, s.pending);
    assert SentOk(s.minted, clients', s.queue, s.pending, s.sent, s.children);
    assert PhaseOk(s.(clients := clients'));
  }

  // ---------------------------------------------------------------- steps of the handlers

  /** A job at the end of the queue leaves the cancels in it where they are. */
  lemma AppendKeepsCancels(clients: seq<Client>, queue: seq<Job>, job: Job)
    requires GiveUpsFollowed(clients, queue) && !GivenUp(clients, job)
    ensures GiveUpsFollowed(clients, queue + [job])
    ensures forall id :: CancelAfter(queue, 0, id) ==> CancelAfter(queue + [job], 0, id)
  {
    var queue' := queue + [job];
    forall q | 0 <= q < |queue'| && GivenUp(clients, queue'[q]) ensures CancelAfter(queue', q + 1, queue'[q].childId) {
      assert GivenUp(clients, queue[q]);
      var p :| q + 1 <= p < |queue| && queue[p] == Cancel(queue[q].childId);
      assert queue'[p] == Cancel(queue[q].childId);
    }
    forall id | CancelAfter(queue, 0, id) ensures CancelAfter(queue', 0, id) {
      var p :| 0 <= p < |queue| && queue[p] == Cancel(id);
      assert queue'[p] == Cancel(id);
    }
  }

  lemma AppendKeepsQueued(queue: seq<Job>, job: Job, h: nat)
    ensures Queued(queue + [job], h) <==> Queued(queue, h) || (job.Forwarding? && job.reply == h)
  {
    var queue' := queue + [job];
    if Queued(queue, h) {
      var q :| 0 <= q < |queue| && queue[q].Forwarding? && queue[q].reply == h;
      assert queue'[q] == queue[q];
    }
    assert queue'[|queue|] == job;
  }

  /** Clients are only added, keep their id and body, and finish for good. */
  predicate Carried(clients: seq<Client>, clients': seq<Client>) {
    && |clients| <= |clients'|
    && (forall h :: 0 <= h < |clients| ==>
         && SameClient(clients[h], clients'[h])
         && (clients[h].stage.Done? ==> clients'[h].stage.Done?)
         && (MessageOf(clients'[h].stage).Some? ==> MessageOf(clients'[h].stage) == MessageOf(clients[h].stage)))
    && (forall h :: |clients| <= h < |clients'| ==> MessageOf(clients'[h].stage).None?)
  }

  lemma CarriedDeliveries(s: State, clients': seq<Client>)
    requires DeliveriesOk(s.clients, s.pending, s.sent, s.children, s.deliveries) && Carried(s.clients, clients')
    ensures DeliveriesOk(clients', s.pending, s.sent, s.children, s.deliveries)
  {
    forall n | 0 <= n < |s.deliveries| ensures DeliveryOk(clients', s.pending, s.sent, s.children, s.deliveries[n]) {
      assert DeliveryOk(s.clients, s.pending, s.sent, s.children, s.deliveries[n]);
    }
  }

  lemma CarriedAnswers(s: State, clients': seq<Client>)
    requires AnswersOk(s.clients, s.children, s.deliveries) && Carried(s.clients, clients')
    ensures AnswersOk(clients', s.children, s.deliveries)
  {
    forall h | 0 <= h < |clients'| && MessageOf(clients'[h].stage).Some?
      ensures exists n :: DeliveredTo(s.children, s.deliveries, n, h, clients'[h].body,
        MessageOf(clients'[h].stage).value)
    {
      var n :| DeliveredTo(s.children, s.deliveries, n, h, s.clients[h].body, MessageOf(s.clients[h].stage).value);
      assert DeliveredTo(s.children, s.deliveries, n, h, clients'[h].body, MessageOf(clients'[h].stage).value);
    }
  }

  /** A job survives a change of stages that leaves its own client unanswered. */
  lemma CarriedJob(clients: seq<Client>, clients': seq<Client>, job: Job)
    requires JobOk(clients, job) && Carried(clients, clients')
    requires job.Forwarding? ==> !clients'[job.reply].stage.Minted? && Unanswered(clients'[job.reply].stage)
    ensures JobOk(clients', job)
  {
    if job.Cancel? {
      var h :| 0 <= h < |clients| && clients[h].id == job.childId && clients[h].stage.Done?;
      assert clients'[h].id == job.childId && clients'[h].stage.Done?;
    }
  }

  predicate Pendable(stage: Stage) {
    !stage.Minted? && Unanswered(stage)
  }

  lemma CarriedEntries(clients: seq<Client>, clients': seq<Client>, pending: map<nat, Pending>)
    requires PendingOk(clients, pending) && Carried(clients, clients')
    requires forall h :: 0 <= h < |clients| && Pendable(clients[h].stage) ==> Pendable(clients'[h].stage)
    ensures PendingOk(clients', pending)
  {
    forall id | id in pending ensures EntryOk(clients', id, pending[id]) {
      assert EntryOk(clients, id, pending[id]);
    }
  }

  // .......................................................... a new request

  lemma PostQueue(clients: seq<Client>, queue: seq<Job>, c: Client)
    requires QueueOk(clients, queue) && c.stage.Minted?
    ensures QueueOk(clients + [c], queue)
  {
    forall q | 0 <= q < |queue| ensures JobOk(clients + [c], queue[q]) {
      assert JobOk(clients, queue[q]);
      CarriedJob(clients, clients + [c], queue[q]);
    }
  }

  lemma PostCancels(clients: seq<Client>, queue: seq<Job>, pending: map<nat, Pending>, c: Client)
    requires QueueOk(clients, queue) && PendingOk(clients, pending)
    requires CancelsFollow(clients, queue, pending) && c.stage.Minted?
    ensures CancelsFollow(clients + [c], queue, pending)
  {
    forall q | 0 <= q < |queue| && GivenUp(clients + [c], queue[q])
      ensures CancelAfter(queue, q + 1, queue[q].childId)
    {
      assert JobOk(clients, queue[q]) && GivenUp(clients, queue[q]);
    }
    forall id | id in pending && pending[id].reply < |clients + [c]| && (clients + [c])[pending[id].reply].stage.Done?
      ensures CancelAfter(queue, 0, id)
    {
      assert EntryOk(clients, id, pending[id]);
    }
  }

  lemma PostKeeps(s: State, body: Json)
    requires Core(s) && !s.phase.Unused? && body.Object? && s.minted + 1 < U64 - 1
    ensures Core(Mint(s).(clients := s.clients + [Client(s.nextId, body, Minted)]))
  {
    var c := Client(s.nextId, body, Minted);
    var clients' := s.clients + [c];
    var t := Mint(s).(clients := clients');
    PostQueue(s.clients, s.queue, c);
    PostCancels(s.clients, s.queue, s.pending, c);
    CarriedEntries(s.clients, clients', s.pending);
    CarriedDeliveries(s, clients');
    CarriedAnswers(s, clients');
    PostIds(s, c);
    PostSent(s, c);
    assert PhaseOk(t);
  }

  lemma PostIds(s: State, c: Client)
    requires IdsOk(s.minted, s.nextId, s.clients) && WaitersHeld(s.clients, s.queue, s.pending)
    requires c.id == s.nextId && c.stage.Minted? && c.body.Object? && s.minted + 1 < U64 - 1
    ensures IdsOk(Mint(s).minted, Mint(s).nextId, s.clients + [c])
    ensures WaitersHeld(s.clients + [c], s.queue, s.pending)
  {
  }

  lemma PostSent(s: State, c: Client)
    requires SentOk(s.minted, s.clients, s.queue, s.pending, s.sent, s.children)
    requires s.nextId == s.minted + 1 && c.id == s.nextId
    ensures SentOk(s.minted + 1, s.clients + [c], s.queue, s.pending, s.sent, s.children)
  {
  }

  // .......................................................... queueing a request

  lemma EnqueueQueue(clients: seq<Client>, queue: seq<Job>, h: nat)
    requires QueueOk(clients, queue) && h < |clients| && clients[h].stage.Minted?
    ensures QueueOk(SetStage(clients, h, Waiting(Empty)),
      queue + [Forwarding(
        ForwardedLine(clients[h].id, clients[h].body), OriginalId(clients[h].body), clients[h].id, h)])
    ensures !Queued(queue, h)
  {
    var c := clients[h];
    var job := Forwarding(ForwardedLine(c.id, c.body), OriginalId(c.body), c.id, h);
    var clients' := SetStage(clients, h, Waiting(Empty));
    forall q | 0 <= q < |queue|
      ensures JobOk(clients', queue[q])
      ensures queue[q].Forwarding? ==> queue[q].reply != h
    {
      assert JobOk(clients, queue[q]);
      CarriedJob(clients, clients', queue[q]);
    }
    assert JobOk(clients', job);
  }

  lemma EnqueueCancels(clients: seq<Client>, queue: seq<Job>, pending: map<nat, Pending>, h: nat, job: Job)
    requires CancelsFollow(clients, queue, pending) && h < |clients| && clients[h].stage.Minted?
    requires job.Forwarding? && job.reply == h
    ensures CancelsFollow(SetStage(clients, h, Waiting(Empty)), queue + [job], pending)
  {
    var clients' := SetStage(clients, h, Waiting(Empty));
    forall q | 0 <= q < |queue| && GivenUp(clients', queue[q]) ensures CancelAfter(queue, q + 1, queue[q].childId) {
      assert GivenUp(clients, queue[q]);
    }
    AppendKeepsCancels(clients', queue, job);
  }

  lemma AppendWaiters(clients: seq<Client>, clients': seq<Client>, queue: seq<Job>, pending: map<nat, Pending>,
                      job: Job)
    requires WaitersHeld(clients, queue, pending) && |clients'| == |clients|
    requires forall h :: 0 <= h < |clients| ==> SameClient(clients[h], clients'[h])
    requires forall h :: 0 <= h < |clients| && clients'[h].stage == Waiting(Empty) ==>
      clients[h].stage == Waiting(Empty) || (job.Forwarding? && job.reply == h)
    ensures WaitersHeld(clients', queue + [job], pending)
  {
    forall g | 0 <= g < |clients'| && clients'[g].stage == Waiting(Empty)
      ensures Queued(queue + [job], g) || clients'[g].id in pending
    {
      AppendKeepsQueued(queue, job, g);
    }
  }

  lemma EnqueueKeeps(s: State, h: nat)
    requires Core(s) && Listening(s) && h < |s.clients| && s.clients[h].stage.Minted?
    ensures Core(s.(clients := SetStage(s.clients, h, Waiting(Empty)),
      queue := s.queue + [Forwarding(
        ForwardedLine(s.clients[h].id, s.clients[h].body), OriginalId(s.clients[h].body), s.clients[h].id, h)]))
  {
    var c := s.clients[h];
    var job := Forwarding(ForwardedLine(c.id, c.body), OriginalId(c.body), c.id, h);
    var clients' := SetStage(s.clients, h, Waiting(Empty));
    EnqueueQueue(s.clients, s.queue, h);
    EnqueueCancels(s.clients, s.queue, s.pending, h, job);
    AppendWaiters(s.clients, clients', s.queue, s.pending, job);
    CarriedEntries(s.clients, clients', s.pending);
    CarriedDeliveries(s, clients');
    CarriedAnswers(s, clients');
    assert IdsOk(s.minted, s.nextId, clients');
    EnqueueSent(s, h, job);
  }

  lemma EnqueueSent(s: State, h: nat, job: Job)
    requires SentOk(s.minted, s.clients, s.queue, s.pending, s.sent, s.children)
    requires h < |s.clients| && s.clients[h].stage.Minted? && job.Forwarding? && job.childId == s.clients[h].id
    ensures SentOk(s.minted, SetStage(s.clients, h, Waiting(Empty)), s.queue + [job], s.pending, s.sent, s.children)
  {
  }

  /** With the supervisor gone nothing is queued or pending. */
  lemma EnqueueStoppedKeeps(s: State, h: nat)
    requires Core(s) && s.phase.Stopped? && h < |s.clients| && s.clients[h].stage.Minted?
    ensures Core(s.(clients := SetStage(s.clients, h, Done(Failed(502, UNREACHABLE)))))
  {
    var clients' := SetStage(s.clients, h, Done(Failed(502, UNREACHABLE)));
    assert s.queue == [] && s.pending == map[];
    assert forall g :: !Queued(s.queue, g);
    CarriedDeliveries(s, clients');
    CarriedAnswers(s, clients');
  }

  lemma NotifyKeeps(s: State, line: Json)
    requires Core(s) && Listening(s) && !line.Has("id")
    ensures Core(s.(queue := s.queue + [Notifying(line)]))
  {
    var queue' := s.queue + [Notifying(line)];
    AppendKeepsCancels(s.clients, s.queue, Notifying(line));
    AppendWaiters(s.clients, s.clients, s.queue, s.pending, Notifying(line));
    assert QueueOk(s.clients, queue');
    assert SentOk(s.minted, s.clients, queue', s.pending, s.sent, s.children);
  }

  // .......................................................... giving up

  lemma GiveUpQueue(clients: seq<Client>, queue: seq<Job>, h: nat)
    requires QueueOk(clients, queue) && h < |clients| && clients[h].stage.TimedOut?
    ensures QueueOk(SetStage(clients, h, Done(Failed(504, "upstream timeout"))), queue + [Cancel(clients[h].id)])
  {
    var clients' := SetStage(clients, h, Done(Failed(504, "upstream timeout")));
    forall q | 0 <= q < |queue| ensures JobOk(clients', queue[q]) {
      assert JobOk(clients, queue[q]);
      CarriedJob(clients, clients', queue[q]);
    }
    assert clients'[h].id == clients[h].id && clients'[h].stage.Done?;
    assert JobOk(clients', Cancel(clients[h].id));
  }

  lemma GiveUpCancels(clients: seq<Client>, queue: seq<Job>, pending: map<nat, Pending>, h: nat)
    requires QueueOk(clients, queue) && PendingOk(clients, pending)
    requires CancelsFollow(clients, queue, pending) && h < |clients| && clients[h].stage.TimedOut?
    ensures CancelsFollow(SetStage(clients, h, Done(Failed(504, "upstream timeout"))), queue + [Cancel(clients[h].id)],
      pending)
  {
    var job := Cancel(clients[h].id);
    var clients' := SetStage(clients, h, Done(Failed(504, "upstream timeout")));
    var queue' := queue + [job];
    AppendKeepsCancels(clients, queue, job);
    assert queue'[|queue|] == job;
    forall q | 0 <= q < |queue'| && GivenUp(clients', queue'[q]) ensures CancelAfter(queue', q + 1, queue'[q].childId) {
      assert queue'[q] == queue[q] && JobOk(clients, queue[q]);
      if queue[q].reply != h { assert GivenUp(clients, queue'[q]); }
    }
    forall i | i in pending && pending[i].reply < |clients'| && clients'[pending[i].reply].stage.Done?
      ensures CancelAfter(queue', 0, i)
    {
      assert EntryOk(clients, i, pending[i]);
    }
  }

  /** The handler answers 504 and leaves a cancel job behind. */
  lemma SendCancelKeeps(s: State, h: nat)
    requires Core(s) && Listening(s) && h < |s.clients| && s.clients[h].stage.TimedOut?
    ensures Core(s.(queue := s.queue + [Cancel(s.clients[h].id)],
      clients := SetStage(s.clients, h, Done(Failed(504, "upstream timeout")))))
  {
    var job := Cancel(s.clients[h].id);
    var clients' := SetStage(s.clients, h, Done(Failed(504, "upstream timeout")));
    GiveUpQueue(s.clients, s.queue, h);
    GiveUpCancels(s.clients, s.queue, s.pending, h);
    AppendWaiters(s.clients, clients', s.queue, s.pending, job);
    CarriedEntries(s.clients, clients', s.pending);
    CarriedDeliveries(s, clients');
    CarriedAnswers(s, clients');
    assert IdsOk(s.minted, s.nextId, clients');
    GiveUpSent(s, h);
  }

  lemma GiveUpSent(s: State, h: nat)
    requires SentOk(s.minted, s.clients, s.queue, s.pending, s.sent, s.children) && h < |s.clients|
    ensures SentOk(s.minted, SetStage(s.clients, h, Done(Failed(504, "upstream timeout"))),
      s.queue + [Cancel(s.clients[h].id)], s.pending, s.sent, s.children)
  {
  }

  lemma SendCancelStoppedKeeps(s: State, h: nat)
    requires Core(s) && s.phase.Stopped? && h < |s.clients| && s.clients[h].stage.TimedOut?
    ensures Core(s.(clients := SetStage(s.clients, h, Done(Failed(504, "upstream timeout")))))
  {
    var clients' := SetStage(s.clients, h, Done(Failed(504, "upstream timeout")));
    assert s.queue == [] && s.pending == map[];
    assert forall g :: !Queued(s.queue, g);
    CarriedDeliveries(s, clients');
    CarriedAnswers(s, clients');
  }

  // .......................................................... one's own stage

  lemma HeldIsUnanswered(s: State, h: nat)
    requires QueueOk(s.clients, s.queue) && PendingOk(s.clients, s.pending) && IdsOk(s.minted, s.nextId, s.clients)
    requires h < |s.clients| && Held(s, h)
    ensures Unanswered(s.clients[h].stage)
  {
    if Queued(s.queue, h) {
      var q :| 0 <= q < |s.queue| && s.queue[q].Forwarding? && s.queue[q].reply == h;
      assert JobOk(s.clients, s.queue[q]);
    } else {
      var id := s.clients[h].id;
      assert EntryOk(s.clients, id, s.pending[id]);
      assert s.pending[id].reply == h;
    }
  }

  /** Receiving, timing out and being abandoned change one client's stage and nothing else. */
  lemma OwnStageKeeps(s: State, h: nat, stage: Stage)
    requires Core(s) && h < |s.clients| && !s.phase.Unused?
    requires QuietChange(s.clients[h].stage, stage, Unanswered(s.clients[h].stage))
    ensures Core(s.(clients := SetStage(s.clients, h, stage)))
  {
    var clients' := SetStage(s.clients, h, stage);
    forall g | 0 <= g < |s.clients|
      ensures SameClient(s.clients[g], clients'[g]) && QuietChange(s.clients[g].stage, clients'[g].stage, Held(s, g))
    {
      if Held(s, g) { HeldIsUnanswered(s, g); }
    }
    QuietKeeps(s, clients');
  }
}
