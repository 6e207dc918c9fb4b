/** The supervisor task of the stdio bridge with the variables it updates in place. Each
    method carries out one piece of a bridge step. */
module Supervisor {
  import opened Json
  import opened Options
  import opened Deaths
  import opened Bridge

  class Supervisor {
    var pending: map<nat, Pending>
    var inflight: int
    var deaths: seq<int>
    /** The handlers at the other ends of the reply channels. */
    var clients: seq<Client>

    /** The variables are those of bridge state `s`. */
    ghost predicate Holds(s: State)
      reads this
    {
      pending == s.pending && inflight == s.inflight && deaths == s.deaths && clients == s.clients
    }

    constructor (clients: seq<Client>)
      ensures this.pending == map[] && inflight == 0 && deaths == [] && this.clients == clients
    {
      pending := map[];
      inflight := 0;
      deaths := [];
      this.clients := clients;
    }

    method SendReply(h: nat, reply: Reply)
      modifies this`clients
      ensures clients == Send(old(clients), h, reply)
    {
      if h < |clients| && clients[h].stage.Waiting? {
        clients := clients[h := clients[h].(stage := Waiting(Full(reply)))];
      }
    }

    /** `drop_pending`: the reply sender goes away unused. */
    method DropPending(ghost s: State, id: nat)
      requires Holds(s)
      modifies this
      ensures Holds(Bridge.DropPending(s, id))
    {
      if id in pending {
        var h := pending[id].reply;
        pending := pending - {id};
        inflight := inflight - 1;
        if h < |clients| && clients[h].stage == Waiting(Empty) {
          clients := clients[h := clients[h].(stage := Waiting(Closed))];
        }
      }
    }

    /** `deliver`: a reply finds the client behind its id, or is discarded. */
    method Deliver(ghost s: State, out: Output, ghost at: nat)
      requires Holds(s) && Classify(out).Response? && |s.children| > 0
      modifies this
      ensures Holds(Bridge.Deliver(s, out, at))
    {
      var value := out.value;
      var id := AsU64(value.fields["id"]);
      if id.None? || id.value !in pending { return; }
      var p := pending[id.value];
      pending := pending - {id.value};
      inflight := inflight - 1;
      var message := Object(value.fields["id" := p.originalId]);
      SendReply(p.reply, Good(message));
    }

    /** `fail_pending`: drains the map in whatever order it yields its entries. */
    method FailPending(ghost s: State)
      requires Holds(s)
      modifies this`pending, this`clients, this`inflight
      ensures Holds(Bridge.FailPending(s))
    {
      FailNone(clients);
      ghost var failed: map<nat, Pending> := map[];
      assert s.pending - pending.Keys == map[];
      while pending != map[]
        invariant Part(pending, s.pending) && failed == s.pending - pending.Keys
        invariant clients == FailAll(s.clients, failed)
        decreases |pending|
      {
        var id :| id in pending;
        var p := pending[id];
        SplitOff(s.pending, pending, id);
        FailOneMore(s.clients, failed, id, p);
        failed := failed[id := p];
        pending := pending - {id};
        SendReply(p.reply, Bad(UNREACHABLE));
      }
      assert failed == s.pending;
      inflight := 0;
    }

    /** `too_many`: forgets old exits at the front, records this one, counts. */
    method TooMany(now: int) returns (stop: bool)
      modifies this`deaths
      ensures deaths == AfterExit(old(deaths), now)
      ensures stop <==> |deaths| > MAX_EXITS
    {
      while deaths != [] && now - deaths[0] >= WINDOW
        invariant Trimmed(deaths, now) == Trimmed(old(deaths), now)
        decreases |deaths|
      {
        deaths := deaths[1..];
      }
      deaths := deaths + [now];
      stop := |deaths| > MAX_EXITS;
    }

    /** What follows the end of a child: `None` ends the bridge, otherwise the delay until the
        next child is started. */
    method ChildExited(ghost s: State, now: int) returns (delay: Option<nat>)
      requires Holds(s) && now == s.now
      modifies this
      ensures deaths == Crash(s).deaths && pending == Crash(s).pending && inflight == Crash(s).inflight
      ensures clients == Bridge.FailPending(s).clients
      ensures Crash(s).phase == if delay.None? then Stopped(true) else Starting(delay.value)
    {
      FailPending(s);
      var stop := TooMany(now);
      delay := if stop then None else Some(Backoff(|deaths|));
    }

    /** The job arm of `pump`, up to the write to the child. */
    method TakeJob(ghost s: State, job: Job)
      requires Holds(s) && s.queue != [] && s.queue[0] == job && |s.children| > 0
      modifies this
      ensures
        var t := s.(queue := s.queue[1..]);
        match job
        case Cancel(id) => Holds(Bridge.DropPending(t, id))
        case Notifying(_) => Holds(t)
        case Forwarding(_, originalId, id, reply) => Holds(Park(t, originalId, id, reply))
    {
      match job {
        case Cancel(id) => DropPending(s.(queue := s.queue[1..]), id);
        case Notifying(_) =>
        case Forwarding(_, originalId, id, reply) =>
          pending := pending[id := Pending(originalId, reply)];
          inflight := inflight + 1;
      }
    }
  }

  predicate Part(left: map<nat, Pending>, all: map<nat, Pending>) {
    forall id :: id in left ==> id in all && left[id] == all[id]
  }

  /** Taking one entry out of what is left of the map. */
  lemma SplitOff(all: map<nat, Pending>, left: map<nat, Pending>, id: nat)
    requires Part(left, all) && id in left
    ensures all - (left - {id}).Keys == (all - left.Keys)[id := left[id]]
    ensures Part(left - {id}, all) && |left - {id}| < |left|
  {
    assert left.Keys == (left - {id}).Keys + {id};
  }

  lemma FailNone(clients: seq<Client>)
    ensures FailAll(clients, map[]) == clients
  {
  }

  /** Failing one more entry is one more send. */
  lemma FailOneMore(clients: seq<Client>, failed: map<nat, Pending>, id: nat, p: Pending)
    requires id !in failed
    ensures FailAll(clients, failed[id := p]) == Send(FailAll(clients, failed), p.reply, Bad(UNREACHABLE))
  {
    var failed' := failed[id := p];
    forall h: nat | h < |clients| ensures Awaits(failed', h) <==> Awaits(failed, h) || h == p.reply {
      if Awaits(failed, h) {
        var i :| i in failed && failed[i].reply == h;
        assert i in failed' && failed'[i].reply == h;
      }
      if h == p.reply { assert id in failed' && failed'[id].reply == h; }
    }
  }
}
