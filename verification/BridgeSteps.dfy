/** The supervisor's steps keep the invariant of the stdio bridge. */
module BridgeSteps {
  import opened Json
  import opened Options
  import opened Deaths
  import opened Bridge
  import opened BridgeInvariant

  // ---------------------------------------------------------------- children

  predicate GrownChild(c: Child, c': Child) {
    c.stdout <= c'.stdout && c.read <= c'.read <= |c'.stdout|
  }

  predicate Grown(children: seq<Child>, children': seq<Child>) {
    |children| <= |children'| && forall k :: 0 <= k < |children| ==> GrownChild(children[k], children'[k])
  }

  lemma GrownDeliveries(s: State, children': seq<Child>)
    requires DeliveriesOk(s.clients, s.pending, s.sent, s.children, s.deliveries) && Grown(s.children, children')
    ensures DeliveriesOk(s.clients, s.pending, s.sent, children', s.deliveries)
  {
    forall n | 0 <= n < |s.deliveries| ensures DeliveryOk(s.clients, s.pending, s.sent, children', s.deliveries[n]) {
      var d := s.deliveries[n];
      assert DeliveryOk(s.clients, s.pending, s.sent, s.children, d);
      var before, after := s.children[d.child].stdout, children'[d.child].stdout;
      assert GrownChild(s.children[d.child], children'[d.child]);
      assert forall j :: 0 <= j < |before| ==> after[j] == before[j];
    }
  }

  lemma GrownAnswers(s: State, children': seq<Child>)
    requires AnswersOk(s.clients, s.children, s.deliveries) && Grown(s.children, children')
    ensures AnswersOk(s.clients, children', s.deliveries)
  {
    forall h | 0 <= h < |s.clients| && MessageOf(s.clients[h].stage).Some?
      ensures exists n :: DeliveredTo(children', s.deliveries, n, h, s.clients[h].body,
        MessageOf(s.clients[h].stage).value)
    {
      var n :| DeliveredTo(s.children, s.deliveries, n, h, s.clients[h].body, MessageOf(s.clients[h].stage).value);
      var k := s.deliveries[n].child;
      assert GrownChild(s.children[k], children'[k]);
      assert children'[k].stdout[s.deliveries[n].at] == s.children[k].stdout[s.deliveries[n].at];
      assert DeliveredTo(children', s.deliveries, n, h, s.clients[h].body, MessageOf(s.clients[h].stage).value);
    }
  }

  /** Children may write, be written to, be read from, and be added; pending ids stay unanswered. */
  lemma ChildrenKeep(s: State, children': seq<Child>)
    requires Core(s) && Grown(s.children, children')
    requires forall k :: 0 <= k < |children'| ==> children'[k].read <= |children'[k].stdout|
    requires forall id :: id in s.pending ==> StillOpen(id, s.sent[id], children')
    ensures Core(s.(children := children'))
  {
    GrownDeliveries(s, children');
    GrownAnswers(s, children');
    assert forall id :: id in s.sent ==> SentSomewhere(s.sent[id], s.children) && SentSomewhere(s.sent[id], children');
  }

  lemma StillOpenAs(s: State, children': seq<Child>)
    requires Core(s) && |children'| == |s.children|
    requires |s.children| > 0 ==> GrownChild(s.children[|s.children| - 1], children'[|s.children| - 1])
    requires |s.children| > 0 ==> s.children[|s.children| - 1].read == children'[|s.children| - 1].read
    ensures forall id :: id in s.pending ==> StillOpen(id, s.sent[id], children')
  {
    forall id | id in s.pending ensures StillOpen(id, s.sent[id], children') {
      assert StillOpen(id, s.sent[id], s.children);
      var before, after := s.children[|s.children| - 1], children'[|s.children| - 1];
      assert forall j :: 0 <= j < |before.stdout| ==> after.stdout[j] == before.stdout[j];
    }
  }

  lemma ChildWritesKeeps(s: State, k: nat, out: Output)
    requires Core(s) && k < |s.children|
    ensures Core(s.(children := s.children[k := s.children[k].(stdout := s.children[k].stdout + [out])]))
  {
    var children' := s.children[k := s.children[k].(stdout := s.children[k].stdout + [out])];
    StillOpenAs(s, children');
    ChildrenKeep(s, children');
  }

  lemma WriteKeeps(s: State, line: Json)
    requires Core(s) && |s.children| > 0
    ensures Core(Write(s, line))
  {
    StillOpenAs(s, Write(s, line).children);
    ChildrenKeep(s, Write(s, line).children);
  }

  /** Reading a line that answers no pending id. */
  lemma AdvanceKeeps(s: State)
    requires Core(s) && Unread(s)
    requires forall id :: id in s.pending ==>
      ResponseId(s.children[Current(s)].stdout[s.children[Current(s)].read]) != Some(id)
    ensures Core(Advance(s))
  {
    var children' := Advance(s).children;
    forall id | id in s.pending ensures StillOpen(id, s.sent[id], children') {
      assert StillOpen(id, s.sent[id], s.children);
    }
    ChildrenKeep(s, children');
  }

  lemma AddChildKeeps(s: State)
    requires Core(s) && s.pending == map[]
    ensures Core(s.(children := s.children + [Child([], [], 0)]))
  {
    ChildrenKeep(s, s.children + [Child([], [], 0)]);
  }

  lemma MintKeeps(s: State)
    requires Core(s) && s.minted + 1 < U64 - 1
    ensures Core(Mint(s))
  {
  }

  lemma PhaseKeeps(s: State, phase: Phase)
    requires Core(s) && s.pending == map[] && !s.phase.Stopped? && !s.phase.Unused?
    requires phase.Starting? || phase.Shaking? || phase.Pumping?
    requires phase.Starting? || |s.children| > 0
    ensures Core(s.(phase := phase))
  {
  }

  // ---------------------------------------------------------------- failing everything

  lemma FailedStages(s: State, h: nat)
    requires h < |s.clients|
    ensures SameClient(s.clients[h], FailAll(s.clients, s.pending)[h])
    ensures QuietChange(s.clients[h].stage, FailAll(s.clients, s.pending)[h].stage, false)
  {
  }

  lemma QueuedNotAwaited(s: State, h: nat)
    requires QueueOk(s.clients, s.queue) && PendingOk(s.clients, s.pending)
    requires SentOk(s.minted, s.clients, s.queue, s.pending, s.sent, s.children)
    ensures !(Queued(s.queue, h) && Awaits(s.pending, h))
  {
  }

  lemma FailQuiet(s: State)
    requires QueueOk(s.clients, s.queue) && PendingOk(s.clients, s.pending)
    requires SentOk(s.minted, s.clients, s.queue, s.pending, s.sent, s.children)
    ensures Quiet(FailPending(s).(clients := s.clients), FailPending(s).clients)
  {
    var clients' := FailAll(s.clients, s.pending);
    forall h | 0 <= h < |s.clients|
      ensures SameClient(s.clients[h], clients'[h])
      ensures QuietChange(s.clients[h].stage, clients'[h].stage, Queued(s.queue, h))
    {
      FailedStages(s, h);
      QueuedNotAwaited(s, h);
      if Queued(s.queue, h) {
        var q :| 0 <= q < |s.queue| && s.queue[q].Forwarding? && s.queue[q].reply == h;
        assert JobOk(s.clients, s.queue[q]);
      }
    }
  }

  lemma FailWaiters(s: State)
    requires WaitersHeld(s.clients, s.queue, s.pending) && PendingOk(s.clients, s.pending)
    requires IdsOk(s.minted, s.nextId, s.clients)
    ensures WaitersHeld(FailAll(s.clients, s.pending), s.queue, map[])
  {
    var clients' := FailAll(s.clients, s.pending);
    forall h | 0 <= h < |clients'| && clients'[h].stage == Waiting(Empty) ensures Queued(s.queue, h) {
      assert s.clients[h].stage == Waiting(Empty) && !Awaits(s.pending, h);
      assert s.clients[h].id in s.pending ==> EntryOk(s.clients, s.clients[h].id, s.pending[s.clients[h].id]);
    }
  }

  /** `fail_pending`: every pending client is told, and nothing stays pending. */
  lemma FailKeeps(s: State)
    requires Core(s) && !s.phase.Unused?
    ensures Core(FailPending(s))
  {
    var t := FailPending(s);
    var s0 := t.(clients := s.clients);
    assert s0 == s.(pending := map[], inflight := 0);
    FailQuiet(s);
    FailWaiters(s);
    QuietQueue(s0, t.clients);
    QuietCancels(s0, t.clients);
    assert DeliveriesOk(s0.clients, s0.pending, s0.sent, s0.children, s0.deliveries) by {
      assert forall n :: 0 <= n < |s.deliveries| ==>
        DeliveryOk(s.clients, s.pending, s.sent, s.children, s.deliveries[n]);
    }
    QuietDeliveries(s0, t.clients);
    QuietAnswers(s0, t.clients);
    assert IdsOk(t.minted, t.nextId, t.clients);
    assert SentOk(t.minted, t.clients, t.queue, t.pending, t.sent, t.children);
    assert PhaseOk(t);
  }

  lemma StopKeeps(s: State, tooMany: bool)
    requires Core(s) && !s.phase.Unused?
    ensures Core(Stop(s, tooMany))
  {
    FailKeeps(s);
    var f := FailPending(s);
    var t := Stop(s, tooMany);
    assert forall h :: !Queued([], h);
    forall h | 0 <= h < |t.clients|
      ensures SameClient(f.clients[h], t.clients[h])
      ensures QuietChange(f.clients[h].stage, t.clients[h].stage, false)
      ensures t.clients[h].stage != Waiting(Empty)
    {
      assert f.clients[h].stage == Waiting(Empty) ==> Queued(f.queue, h);
    }
    var f0 := f.(queue := [], phase := Stopped(tooMany));
    assert Quiet(f0, t.clients);
    QuietDeliveries(f0, t.clients);
    QuietAnswers(f0, t.clients);
    assert IdsOk(t.minted, t.nextId, t.clients);
    assert SentOk(t.minted, t.clients, t.queue, t.pending, t.sent, t.children);
    assert PhaseOk(t);
  }

  lemma CrashKeeps(s: State)
    requires Core(s) && Listening(s)
    ensures Core(Crash(s))
  {
    FailKeeps(s);
    var f := FailPending(s);
    var g := f.(deaths := AfterExit(s.deaths, s.now), exits := s.exits + [s.now]);
    assert Core(g);
    if |g.deaths| > MAX_EXITS {
      StopKeeps(g, true);
    } else {
      PhaseKeeps(g, Starting(Backoff(|g.deaths|)));
    }
  }

  // ---------------------------------------------------------------- jobs

  lemma PopQueue(clients: seq<Client>, queue: seq<Job>)
    requires QueueOk(clients, queue) && queue != []
    ensures QueueOk(clients, queue[1..])
  {
  }

  lemma PopQueued(queue: seq<Job>, h: nat)
    requires queue != []
    ensures Queued(queue, h) <==> Queued(queue[1..], h) || (queue[0].Forwarding? && queue[0].reply == h)
  {
    if Queued(queue, h) {
      var q :| 0 <= q < |queue| && queue[q].Forwarding? && queue[q].reply == h;
      if q > 0 { assert queue[1..][q - 1] == queue[q]; }
    }
    if Queued(queue[1..], h) {
      var q :| 0 <= q < |queue[1..]| && queue[1..][q].Forwarding? && queue[1..][q].reply == h;
      assert queue[q + 1] == queue[1..][q];
    }
  }

  lemma PopCancelAfter(queue: seq<Job>, from: int, id: nat)
    requires queue != [] && from >= 0 && CancelAfter(queue, from, id)
    requires from > 0 || queue[0] != Cancel(id)
    ensures CancelAfter(queue[1..], if from > 0 then from - 1 else 0, id)
  {
    var q :| from <= q < |queue| && 0 <= q && queue[q] == Cancel(id);
    assert queue[1..][q - 1] == Cancel(id);
  }

  lemma PopGiveUps(clients: seq<Client>, queue: seq<Job>)
    requires GiveUpsFollowed(clients, queue) && queue != []
    ensures GiveUpsFollowed(clients, queue[1..])
  {
    forall q | 0 <= q < |queue[1..]| && GivenUp(clients, queue[1..][q])
      ensures CancelAfter(queue[1..], q + 1, queue[1..][q].childId)
    {
      assert GivenUp(clients, queue[q + 1]);
      PopCancelAfter(queue, q + 2, queue[q + 1].childId);
    }
  }

  /** Taking a job that is not a request, and whose id is not pending. */
  lemma PopKeeps(s: State)
    requires Core(s) && s.phase.Pumping? && s.queue != [] && !s.queue[0].Forwarding?
    requires s.queue[0].Cancel? ==> s.queue[0].childId !in s.pending
    ensures Core(s.(queue := s.queue[1..]))
  {
    var t := s.(queue := s.queue[1..]);
    PopQueue(s.clients, s.queue);
    PopGiveUps(s.clients, s.queue);
    forall id | id in s.pending && s.pending[id].reply < |s.clients| && s.clients[s.pending[id].reply].stage.Done?
      ensures CancelAfter(t.queue, 0, id)
    {
      PopCancelAfter(s.queue, 0, id);
    }
    forall h | 0 <= h < |s.clients| && s.clients[h].stage == Waiting(Empty)
      ensures Queued(t.queue, h) || s.clients[h].id in s.pending
    {
      PopQueued(s.queue, h);
    }
  }

  lemma ForgetWaiters(minted: nat, nextId: nat, clients: seq<Client>, queue: seq<Job>, pending: map<nat, Pending>,
                      id: nat)
    requires IdsOk(minted, nextId, clients) && WaitersHeld(clients, queue, pending)
    requires id in pending && EntryOk(clients, id, pending[id]) && clients[pending[id].reply].stage.Done?
    ensures WaitersHeld(clients, queue, pending - {id})
  {
  }

  lemma ForgetPending(clients: seq<Client>, queue: seq<Job>, pending: map<nat, Pending>, id: nat)
    requires PendingOk(clients, pending) && CancelsFollow(clients, queue, pending)
    ensures PendingOk(clients, pending - {id}) && CancelsFollow(clients, queue, pending - {id})
  {
  }

  lemma ForgetDeliveries(clients: seq<Client>, pending: map<nat, Pending>, sent: map<nat, Sent>,
                         children: seq<Child>, deliveries: seq<Delivery>, id: nat)
    requires DeliveriesOk(clients, pending, sent, children, deliveries)
    ensures DeliveriesOk(clients, pending - {id}, sent, children, deliveries)
  {
    forall n | 0 <= n < |deliveries| ensures DeliveryOk(clients, pending - {id}, sent, children, deliveries[n]) {
      assert DeliveryOk(clients, pending, sent, children, deliveries[n]);
    }
  }

  lemma ForgetSent(s: State, id: nat)
    requires SentOk(s.minted, s.clients, s.queue, s.pending, s.sent, s.children)
    ensures SentOk(s.minted, s.clients, s.queue, s.pending - {id}, s.sent, s.children)
  {
  }

  lemma ForgetCount(pending: map<nat, Pending>, id: nat)
    requires id in pending
    ensures |pending - {id}| == |pending| - 1
  {
    assert (pending - {id}).Keys == pending.Keys - {id};
    assert |pending - {id}| == |(pending - {id}).Keys| && |pending| == |pending.Keys|;
  }

  /** Forgetting a pending entry whose client no longer waits. */
  lemma ForgetKeeps(s: State, id: nat)
    requires Core(s) && s.phase.Pumping? && id in s.pending
    requires s.pending[id].reply < |s.clients| && s.clients[s.pending[id].reply].stage.Done?
    ensures Core(DropPending(s, id)) && DropPending(s, id).clients == s.clients
  {
    assert EntryOk(s.clients, id, s.pending[id]);
    ForgetWaiters(s.minted, s.nextId, s.clients, s.queue, s.pending, id);
    ForgetPending(s.clients, s.queue, s.pending, id);
    ForgetDeliveries(s.clients, s.pending, s.sent, s.children, s.deliveries, id);
    ForgetSent(s, id);
    ForgetPhase(s, id);
  }

  lemma ForgetPhase(s: State, id: nat)
    requires PhaseOk(s) && s.phase.Pumping? && id in s.pending
    requires s.pending[id].reply < |s.clients| && s.clients[s.pending[id].reply].stage.Done?
    ensures PhaseOk(DropPending(s, id)) && DropPending(s, id).clients == s.clients
  {
    ForgetCount(s.pending, id);
  }

  /** A cancel job speaks of a client that is done. */
  lemma CancelledIsDone(s: State)
    requires QueueOk(s.clients, s.queue) && PendingOk(s.clients, s.pending) && IdsOk(s.minted, s.nextId, s.clients)
    requires s.queue != [] && s.queue[0].Cancel? && s.queue[0].childId in s.pending
    ensures var h := s.pending[s.queue[0].childId].reply; h < |s.clients| && s.clients[h].stage.Done?
  {
    var id := s.queue[0].childId;
    assert JobOk(s.clients, s.queue[0]);
    var h :| 0 <= h < |s.clients| && s.clients[h].id == id && s.clients[h].stage.Done?;
    assert EntryOk(s.clients, id, s.pending[id]);
    assert s.pending[id].reply == h;
  }

  lemma DropThenPop(s: State, id: nat, queue: seq<Job>)
    ensures DropPending(s.(queue := queue), id) == DropPending(s, id).(queue := queue)
    ensures DropPending(s, id).queue == s.queue && id !in DropPending(s, id).pending
    ensures DropPending(s, id).phase == s.phase
  {
  }

  lemma CancelKeeps(s: State)
    requires Core(s) && s.phase.Pumping? && s.queue != [] && s.queue[0].Cancel?
    ensures Core(DropPending(s.(queue := s.queue[1..]), s.queue[0].childId))
  {
    var id := s.queue[0].childId;
    DropThenPop(s, id, s.queue[1..]);
    if id in s.pending {
      CancelledIsDone(s);
      ForgetKeeps(s, id);
      PopKeeps(DropPending(s, id));
    } else {
      PopKeeps(s);
    }
  }

  /** What parking the head of the queue changes. */
  ghost predicate Parks(s: State, t: State) {
    && |s.children| > 0 && s.queue != [] && s.queue[0].Forwarding? && JobOk(s.clients, s.queue[0])
    && s.queue[0].childId !in s.sent && s.queue[0].childId !in s.pending
    && t.pending == s.pending[s.queue[0].childId := Pending(s.queue[0].originalId, s.queue[0].reply)]
    && t.sent == s.sent[s.queue[0].childId := Sent(Current(s), s.children[Current(s)].read)]
    && t == s.(pending := t.pending, sent := t.sent, queue := s.queue[1..], inflight := s.inflight + 1)
  }

  lemma ParkIs(s: State)
    requires QueueOk(s.clients, s.queue) && SentOk(s.minted, s.clients, s.queue, s.pending, s.sent, s.children)
    requires |s.children| > 0 && s.queue != [] && s.queue[0].Forwarding?
    ensures Parks(s, Park(s.(queue := s.queue[1..]), s.queue[0].originalId, s.queue[0].childId, s.queue[0].reply))
  {
    assert JobOk(s.clients, s.queue[0]);
  }

  lemma ParkPending(s: State, t: State)
    requires PendingOk(s.clients, s.pending) && Parks(s, t)
    ensures PendingOk(s.clients, t.pending) && |t.pending| == |s.pending| + 1
  {
    var job := s.queue[0];
    assert EntryOk(s.clients, job.childId, Pending(job.originalId, job.reply));
    AddEntry(s.clients, s.pending, job.childId, Pending(job.originalId, job.reply));
  }

  lemma AddEntry(clients: seq<Client>, pending: map<nat, Pending>, id: nat, p: Pending)
    requires PendingOk(clients, pending) && EntryOk(clients, id, p) && id !in pending
    ensures PendingOk(clients, pending[id := p]) && |pending[id := p]| == |pending| + 1
  {
    assert pending[id := p].Keys == pending.Keys + {id};
    assert |pending[id := p]| == |pending[id := p].Keys| && |pending| == |pending.Keys|;
  }

  /** Parking a request: from the head of the queue into `pending`. */
  lemma ParkKeeps(s: State, t: State)
    requires Core(s) && s.phase.Pumping? && Parks(s, t)
    ensures Core(t)
  {
    PopQueue(s.clients, s.queue);
    ParkPending(s, t);
    ParkWaiters(s, t);
    ParkCancels(s, t);
    ParkSent(s, t);
    ParkDeliveries(s, t);
    assert PhaseOk(t);
  }

  lemma ParkWaiters(s: State, t: State)
    requires WaitersHeld(s.clients, s.queue, s.pending) && Parks(s, t)
    ensures WaitersHeld(s.clients, s.queue[1..], t.pending)
  {
    forall h | 0 <= h < |s.clients| && s.clients[h].stage == Waiting(Empty)
      ensures Queued(s.queue[1..], h) || s.clients[h].id in t.pending
    {
      PopQueued(s.queue, h);
    }
  }

  lemma ParkCancels(s: State, t: State)
    requires CancelsFollow(s.clients, s.queue, s.pending) && Parks(s, t)
    ensures CancelsFollow(s.clients, s.queue[1..], t.pending)
  {
    PopGiveUps(s.clients, s.queue);
    forall id | id in t.pending && t.pending[id].reply < |s.clients| && s.clients[t.pending[id].reply].stage.Done?
      ensures CancelAfter(s.queue[1..], 0, id)
    {
      if id == s.queue[0].childId {
        assert GivenUp(s.clients, s.queue[0]);
        PopCancelAfter(s.queue, 1, id);
      } else {
        PopCancelAfter(s.queue, 0, id);
      }
    }
  }

  lemma ParkSent(s: State, t: State)
    requires QueueOk(s.clients, s.queue) && IdsOk(s.minted, s.nextId, s.clients) && Parks(s, t)
    requires SentOk(s.minted, s.clients, s.queue, s.pending, s.sent, s.children)
    ensures SentOk(s.minted, s.clients, s.queue[1..], t.pending, t.sent, s.children)
  {
    var job := s.queue[0];
    forall q | 0 <= q < |s.queue[1..]| && s.queue[1..][q].Forwarding? ensures s.queue[1..][q].childId !in t.sent {
      assert s.queue[1..][q] == s.queue[q + 1];
      assert JobOk(s.clients, s.queue[q + 1]);
      assert s.queue[q + 1].reply != job.reply;
    }
    forall id | id in t.pending ensures id in t.sent && StillOpen(id, t.sent[id], s.children) {
      if id != job.childId { assert StillOpen(id, s.sent[id], s.children); }
    }
  }

  lemma ParkDeliveries(s: State, t: State)
    requires DeliveriesOk(s.clients, s.pending, s.sent, s.children, s.deliveries) && Parks(s, t)
    ensures DeliveriesOk(s.clients, t.pending, t.sent, s.children, s.deliveries)
  {
    forall n | 0 <= n < |s.deliveries| ensures DeliveryOk(s.clients, t.pending, t.sent, s.children, s.deliveries[n]) {
      assert DeliveryOk(s.clients, s.pending, s.sent, s.children, s.deliveries[n]);
    }
  }

  // ---------------------------------------------------------------- replies

  lemma DeliverNotQueued(s: State, id: nat)
    requires QueueOk(s.clients, s.queue) && PendingOk(s.clients, s.pending)
    requires SentOk(s.minted, s.clients, s.queue, s.pending, s.sent, s.children)
    requires id in s.pending
    ensures !Queued(s.queue, s.pending[id].reply)
  {
    assert Awaits(s.pending, s.pending[id].reply);
    QueuedNotAwaited(s, s.pending[id].reply);
  }

  lemma DeliverIds(s: State, t: State, id: nat)
    requires Delivers(s, t, id) && IdsOk(s.minted, s.nextId, s.clients)
    ensures IdsOk(t.minted, t.nextId, t.clients)
  {
  }

  /** Reading the reply to a pending id and handing it over. */
  lemma DeliverKeeps(s: State, t: State, id: nat)
    requires Core(s) && s.phase.Pumping? && Delivers(s, t, id)
    ensures Core(t)
  {
    DeliverNotQueued(s, id);
    DeliverQueue(s, t, id);
    DeliverPending(s, t, id);
    DeliverSent(s, t, id);
    DeliverDeliveries(s, t, id);
    DeliverAnswers(s, t, id);
    DeliverCount(s, t, id);
    DeliverIds(s, t, id);
  }

  lemma DeliverIs(s: State, id: nat)
    requires PendingOk(s.clients, s.pending)
    requires SentOk(s.minted, s.clients, s.queue, s.pending, s.sent, s.children)
    requires Unread(s) && id in s.pending
    requires ResponseId(s.children[Current(s)].stdout[s.children[Current(s)].read]) == Some(id)
    ensures
      var at := s.children[Current(s)].read;
      Delivers(s, Deliver(Advance(s), s.children[Current(s)].stdout[at], at), id)
  {
    assert EntryOk(s.clients, id, s.pending[id]) && StillOpen(id, s.sent[id], s.children);
  }

  lemma DeliverCount(s: State, t: State, id: nat)
    requires Delivers(s, t, id) && PhaseOk(s) && s.phase.Pumping?
    ensures PhaseOk(t)
  {
    assert t.pending.Keys == s.pending.Keys - {id};
    assert |t.pending| == |t.pending.Keys| && |s.pending| == |s.pending.Keys|;
  }

  /** What handing over the next line, the reply to `id`, changes. */
  ghost predicate Delivers(s: State, t: State, id: nat) {
    && Unread(s)
    && var k := Current(s);
       var at := s.children[k].read;
       var out := s.children[k].stdout[at];
    && ResponseId(out) == Some(id) && id in s.pending && id in s.sent
    && EntryOk(s.clients, id, s.pending[id])
    && StillOpen(id, s.sent[id], s.children)
    && t.pending == s.pending - {id}
    && t.queue == s.queue && t.sent == s.sent
    && t.children == s.children[k := s.children[k].(read := at + 1)]
    && t.clients == Send(s.clients, s.pending[id].reply, Good(WithId(out.value, s.pending[id].originalId)))
    && t.deliveries == s.deliveries + [Delivery(s.pending[id].reply, k, at)]
    && t == s.(pending := t.pending, inflight := s.inflight - 1, children := t.children,
               clients := t.clients, deliveries := t.deliveries)
  }

  lemma DeliverQueue(s: State, t: State, id: nat)
    requires Delivers(s, t, id) && QueueOk(s.clients, s.queue) && CancelsFollow(s.clients, s.queue, s.pending)
    requires !Queued(s.queue, s.pending[id].reply)
    ensures QueueOk(t.clients, t.queue) && GiveUpsFollowed(t.clients, t.queue)
  {
    forall q | 0 <= q < |s.queue| ensures JobOk(t.clients, s.queue[q]) {
      var job := s.queue[q];
      assert JobOk(s.clients, job);
      if job.Forwarding? {
        assert Queued(s.queue, job.reply);
      } else if job.Cancel? {
        var h :| 0 <= h < |s.clients| && s.clients[h].id == job.childId && s.clients[h].stage.Done?;
        assert t.clients[h] == s.clients[h];
      }
    }
    forall q | 0 <= q < |s.queue| && GivenUp(t.clients, s.queue[q])
      ensures CancelAfter(s.queue, q + 1, s.queue[q].childId)
    {
      assert GivenUp(s.clients, s.queue[q]);
    }
  }

  lemma DeliverPending(s: State, t: State, id: nat)
    requires Delivers(s, t, id) && PendingOk(s.clients, s.pending) && IdsOk(s.minted, s.nextId, s.clients)
    requires WaitersHeld(s.clients, s.queue, s.pending) && CancelsFollow(s.clients, s.queue, s.pending)
    requires GiveUpsFollowed(t.clients, t.queue)
    ensures PendingOk(t.clients, t.pending)
    ensures WaitersHeld(t.clients, t.queue, t.pending) && CancelsFollow(t.clients, t.queue, t.pending)
  {
    var h := s.pending[id].reply;
    forall i | i in t.pending ensures EntryOk(t.clients, i, t.pending[i]) && t.pending[i].reply != h {
      assert EntryOk(s.clients, i, s.pending[i]);
    }
  }

  lemma DeliverSent(s: State, t: State, id: nat)
    requires Delivers(s, t, id) && PhaseOk(s)
    requires SentOk(s.minted, s.clients, s.queue, s.pending, s.sent, s.children)
    ensures SentOk(s.minted, t.clients, t.queue, t.pending, t.sent, t.children)
  {
    forall i | i in t.pending ensures StillOpen(i, t.sent[i], t.children) {
      assert StillOpen(i, s.sent[i], s.children);
    }
    forall i | i in t.sent ensures SentSomewhere(t.sent[i], t.children) {
      assert SentSomewhere(s.sent[i], s.children);
    }
  }

  lemma DeliverDeliveries(s: State, t: State, id: nat)
    requires Delivers(s, t, id) && PhaseOk(s) && IdsOk(s.minted, s.nextId, s.clients)
    requires SentOk(s.minted, s.clients, s.queue, s.pending, s.sent, s.children)
    requires DeliveriesOk(s.clients, s.pending, s.sent, s.children, s.deliveries)
    ensures DeliveriesOk(t.clients, t.pending, t.sent, t.children, t.deliveries)
  {
    var d := Delivery(s.pending[id].reply, Current(s), s.children[Current(s)].read);
    assert SentSomewhere(s.sent[id], s.children);
    assert DeliveryOk(t.clients, t.pending, t.sent, t.children, d);
    forall n | 0 <= n < |s.deliveries|
      ensures DeliveryOk(t.clients, t.pending, t.sent, t.children, s.deliveries[n])
      ensures s.deliveries[n].client != d.client
    {
      assert DeliveryOk(s.clients, s.pending, s.sent, s.children, s.deliveries[n]);
    }
  }

  lemma DeliverAnswers(s: State, t: State, id: nat)
    requires Delivers(s, t, id) && AnswersOk(s.clients, s.children, s.deliveries)
    ensures AnswersOk(t.clients, t.children, t.deliveries)
  {
    var h := s.pending[id].reply;
    forall g | 0 <= g < |t.clients| && MessageOf(t.clients[g].stage).Some?
      ensures exists n :: DeliveredTo(t.children, t.deliveries, n, g, t.clients[g].body,
        MessageOf(t.clients[g].stage).value)
    {
      if g == h && s.clients[h].stage.Waiting? {
        assert DeliveredTo(t.children, t.deliveries, |s.deliveries|, g, t.clients[g].body,
          MessageOf(t.clients[g].stage).value);
      } else {
        assert t.clients[g] == s.clients[g];
        var n :| DeliveredTo(s.children, s.deliveries, n, g, s.clients[g].body, MessageOf(s.clients[g].stage).value);
        assert t.deliveries[n] == s.deliveries[n];
        assert DeliveredTo(t.children, t.deliveries, n, g, t.clients[g].body, MessageOf(t.clients[g].stage).value);
      }
    }
  }

  // ---------------------------------------------------------------- every action

  lemma StartChildKeeps(s: State, written: bool)
    requires Core(s) && s.phase.Starting? && s.minted + 1 < U64 - 1
    ensures Core(StartChild(s, written))
  {
    AddChildKeeps(s);
    var t := s.(children := s.children + [Child([], [], 0)]);
    MintKeeps(t);
    var u := Mint(t);
    if written {
      WriteKeeps(u, HandshakeLine(s.nextId, "initialize"));
      PhaseKeeps(Write(u, HandshakeLine(s.nextId, "initialize")), Shaking(Initialize, s.nextId));
    } else {
      CrashKeeps(u);
    }
  }

  lemma CacheKeeps(s: State, cache: Json)
    requires Core(s)
    ensures Core(s.(cache := cache))
  {
  }

  /** After the `initialized` notification was written. */
  lemma InitializedKeeps(s: State, result: Json, asked: bool)
    requires Core(s) && s.phase.Shaking? && |s.children| > 0 && s.minted + 1 < U64 - 1
    ensures !s.listTools ==> Core(s.(phase := Pumping, cache := result))
    ensures Core(Write(Mint(s), HandshakeLine(s.nextId, "tools/list")).(phase := Shaking(ToolsList(result), s.nextId)))
    ensures Core(Crash(Mint(s)))
  {
    PhaseKeeps(s, Pumping);
    CacheKeeps(s.(phase := Pumping), result);
    MintKeeps(s);
    CrashKeeps(Mint(s));
    WriteKeeps(Mint(s), HandshakeLine(s.nextId, "tools/list"));
    PhaseKeeps(Write(Mint(s), HandshakeLine(s.nextId, "tools/list")), Shaking(ToolsList(result), s.nextId));
  }

  lemma InitializeResponseKeeps(s: State, value: Json, written: bool, asked: bool)
    requires Core(s) && s.phase.Shaking? && |s.children| > 0 && value.Object? && s.minted + 1 < U64 - 1
    requires s.phase.call.Initialize?
    ensures Core(ShakeResponse(s, value, written, asked))
  {
    if value.Has("error") {
      StopKeeps(s, false);
    } else if !written {
      CrashKeeps(s);
    } else {
      var t := Write(s, INITIALIZED);
      WriteKeeps(s, INITIALIZED);
      if value.Has("result") {
        InitializedKeeps(t, value.fields["result"], asked);
      } else {
        StopKeeps(t, false);
      }
    }
  }

  lemma ShakeResponseKeeps(s: State, value: Json, written: bool, asked: bool)
    requires Core(s) && s.phase.Shaking? && |s.children| > 0 && value.Object? && s.minted + 1 < U64 - 1
    ensures Core(ShakeResponse(s, value, written, asked))
  {
    if s.phase.call.Initialize? {
      InitializeResponseKeeps(s, value, written, asked);
    } else {
      StopKeeps(s, false);
      PhaseKeeps(s, Pumping);
      CacheKeeps(s.(phase := Pumping), s.phase.call.result);
    }
  }

  lemma ShakeStepKeeps(s: State, written: bool, asked: bool)
    requires Core(s) && s.phase.Shaking? && Unread(s) && s.minted + 1 < U64 - 1
    ensures Core(ShakeStep(s, written, asked))
  {
    AdvanceKeeps(s);
    var t := Advance(s);
    var out := s.children[Current(s)].stdout[s.children[Current(s)].read];
    if out.Eof? { CrashKeeps(t); }
    match Classify(out) {
      case Request(value) => if written { WriteKeeps(t, Rejection(value)); } else { CrashKeeps(t); }
      case Response(value) =>
        if ResponseId(out) == Some(s.phase.id) { ShakeResponseKeeps(t, value, written, asked); }
      case _ =>
    }
  }

  lemma JobStepKeeps(s: State, written: bool)
    requires Core(s) && s.phase.Pumping? && s.queue != [] && |s.children| > 0
    ensures Core(JobStep(s, written))
  {
    var t := s.(queue := s.queue[1..]);
    match s.queue[0] {
      case Cancel(id) => CancelKeeps(s);
      case Notifying(line) =>
        PopKeeps(s);
        if written { WriteKeeps(t, line); } else { CrashKeeps(t); }
      case Forwarding(line, originalId, id, reply) =>
        var u := Park(t, originalId, id, reply);
        ParkIs(s);
        ParkKeeps(s, u);
        if written { WriteKeeps(u, line); } else { CrashKeeps(u); }
    }
  }

  lemma ReplyKeeps(s: State, written: bool, id: nat)
    requires Core(s) && s.phase.Pumping? && Unread(s) && id in s.pending
    requires ResponseId(s.children[Current(s)].stdout[s.children[Current(s)].read]) == Some(id)
    ensures Core(LineStep(s, written))
  {
    var at := s.children[Current(s)].read;
    var t := Deliver(Advance(s), s.children[Current(s)].stdout[at], at);
    assert LineStep(s, written) == t;
    DeliverIs(s, id);
    DeliverKeeps(s, t, id);
  }

  lemma LineStepKeeps(s: State, written: bool)
    requires Core(s) && s.phase.Pumping? && Unread(s)
    ensures Core(LineStep(s, written))
  {
    var at := s.children[Current(s)].read;
    var out := s.children[Current(s)].stdout[at];
    var t := Advance(s);
    if ResponseId(out).Some? && ResponseId(out).value in s.pending {
      ReplyKeeps(s, written, ResponseId(out).value);
    } else {
      AdvanceKeeps(s);
      if Classify(out).Request? && written {
        WriteKeeps(t, Rejection(Classify(out).value));
      } else if !Classify(out).Response? {
        CrashKeeps(t);
      }
    }
  }

  lemma UnusedIsStill(s: State, a: Action)
    requires Core(s) && Enabled(s, a) && s.phase.Unused?
    ensures a.Tick? || a.ChildWrites?
  {
  }

  /** A handler that waits receives, gives up waiting, or is dropped. */
  lemma ReceiveKeeps(s: State, h: nat)
    requires Core(s) && Enabled(s, Receive(h)) && !s.phase.Unused?
    ensures Core(Next(s, Receive(h)))
  {
    OwnStageKeeps(s, h, Done(AnswerFor(s.clients[h].stage.box)));
  }

  lemma WaiterStepKeeps(s: State, a: Action)
    requires Core(s) && Enabled(s, a) && !s.phase.Unused?
    requires a.Receive? || a.Elapse? || a.Abandon?
    ensures Core(Next(s, a))
  {
    match a {
      case Receive(h) => ReceiveKeeps(s, h);
      case Elapse(h) => OwnStageKeeps(s, h, TimedOut);
      case Abandon(h) => OwnStageKeeps(s, h, Abandoned);
    }
  }

  lemma EnqueueStepKeeps(s: State, h: nat)
    requires Core(s) && Enabled(s, Enqueue(h)) && !s.phase.Unused?
    ensures Core(Next(s, Enqueue(h)))
  {
    if Listening(s) { EnqueueKeeps(s, h); } else { EnqueueStoppedKeeps(s, h); }
  }

  lemma SendCancelStepKeeps(s: State, h: nat)
    requires Core(s) && Enabled(s, SendCancel(h)) && !s.phase.Unused?
    ensures Core(Next(s, SendCancel(h)))
  {
    if Listening(s) { SendCancelKeeps(s, h); } else { SendCancelStoppedKeeps(s, h); }
  }

  lemma HandlerStepKeeps(s: State, a: Action)
    requires Core(s) && Enabled(s, a) && s.minted + 1 < U64 - 1 && !s.phase.Unused?
    requires a.Post? || a.Enqueue? || a.PostNotification? || a.Receive? || a.Elapse? || a.SendCancel? || a.Abandon?
    ensures Core(Next(s, a))
  {
    match a {
      case Post(body) => PostKeeps(s, body);
      case Enqueue(h) => EnqueueStepKeeps(s, h);
      case PostNotification(body) => if Listening(s) { NotifyKeeps(s, body); }
      case SendCancel(h) => SendCancelStepKeeps(s, h);
      case _ => WaiterStepKeeps(s, a);
    }
  }

  lemma SupervisorStepKeeps(s: State, a: Action)
    requires Core(s) && Enabled(s, a) && s.minted + 1 < U64 - 1 && !s.phase.Unused?
    requires a.Spawn? || a.ShakeRead? || a.ShakeElapse? || a.TakeJob? || a.ReadLine?
    ensures Core(Next(s, a))
  {
    match a {
      case Spawn(spawned, written) => if spawned { StartChildKeeps(s, written); } else { StopKeeps(s, false); }
      case ShakeRead(written, asked) => ShakeStepKeeps(s, written, asked);
      case ShakeElapse => StopKeeps(s, false);
      case TakeJob(written) => JobStepKeeps(s, written);
      case ReadLine(written) => LineStepKeeps(s, written);
    }
  }

  lemma StillKeeps(s: State, a: Action)
    requires Core(s) && Enabled(s, a) && (a.Tick? || a.Quit?)
    ensures Core(Next(s, a))
  {
  }

  /** One step of the whole bridge keeps the invariant while ids have not wrapped around. */
  lemma StepKeeps(s: State, a: Action)
    requires Core(s) && Enabled(s, a) && s.minted + 1 < U64 - 1
    ensures Core(Next(s, a))
  {
    if s.phase.Unused? { UnusedIsStill(s, a); }
    match a {
      case Tick(_) => StillKeeps(s, a);
      case ChildWrites(k, out) => ChildWritesKeeps(s, k, out);
      case Quit => StillKeeps(s, a);
      case Spawn(_, _) => SupervisorStepKeeps(s, a);
      case ShakeRead(_, _) => SupervisorStepKeeps(s, a);
      case ShakeElapse => SupervisorStepKeeps(s, a);
      case TakeJob(_) => SupervisorStepKeeps(s, a);
      case ReadLine(_) => SupervisorStepKeeps(s, a);
      case _ => HandlerStepKeeps(s, a);
    }
  }
}
