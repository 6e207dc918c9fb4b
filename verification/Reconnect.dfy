/** The tunnel supervisor (`reconnect.rs`): dialing the relay again and again. */
module Reconnect {
  import opened Options
  import opened Powers

  const U32_MAX: nat := 0xFFFF_FFFF

  datatype Reclaim = Reclaim(slug: string, credential: string)

  datatype Handshake =
    | Open(slug: string, credential: string, url: string)
    | ReclaimAgain
    | Wait(delay: real)
    | Terminal(code: string, message: string)
    | Failed

  /** How a session ends: shut down, told never to come back, or to be dialed again. */
  datatype SessionEnd = ShutDown | ToldToStop(code: string, message: string) | Lost(after: Option<real>)

  datatype Verdict = Verdict(code: string, message: string)

  /** What `session::run` hands back. */
  datatype SessionStop = SessionStop(
    after: Option<real>, reclaim: Option<Reclaim>, anew: bool, terminal: Option<Verdict>, shutdown: bool)

  function StopOf(end: SessionEnd, slug: string, credential: string): SessionStop {
    match end
    case ShutDown => SessionStop(None, Some(Reclaim(slug, credential)), false, None, true)
    case ToldToStop(code, message) => SessionStop(None, None, false, Some(Verdict(code, message)), false)
    case Lost(after) => SessionStop(after, Some(Reclaim(slug, credential)), false, None, false)
  }

  datatype TunnelState =
    | Connecting
    | Connected(slug: string, url: string)
    | Reconnecting(attempt: nat, delay: real)
    | Stopped
    | Rejected(code: string, message: string)

  /** One iteration as the environment decides it: whether shutdown was asked for before it,
      the relay's answer, how the session ended if there was one, the jitter factor of the
      retry, and whether the sleep before the next iteration ran out (or shutdown came first). */
  datatype Turn = Turn(shutdown: bool, handshake: Handshake, session: SessionEnd, jitter: real, slept: bool)

  /** What can be observed of the supervisor, and the relay's answers. */
  datatype Event =
    | Dial(offer: Option<Reclaim>)
    | Answer(handshake: Handshake)
    | Publish(state: TunnelState)
    | PublishUrl(url: string)
    | SessionOver(end: SessionEnd)
    | Retry(counted: bool)

  // ---------------------------------------------------------------- reading a history

  /** The credential of the latest welcome, unless a `ReclaimAgain` came after it. */
  function Offer(history: seq<Event>): Option<Reclaim> {
    if history == [] then None
    else
      match history[|history| - 1]
      case Answer(Open(slug, credential, _)) => Some(Reclaim(slug, credential))
      case Answer(ReclaimAgain) => None
      case _ => Offer(history[..|history| - 1])
  }

  /** Counted retries since the start, the latest welcome or the latest `Wait`. */
  function Attempts(history: seq<Event>): nat {
    if history == [] then 0
    else
      var before := Attempts(history[..|history| - 1]);
      match history[|history| - 1]
      case Answer(Open(_, _, _)) => 0
      case Answer(Wait(_)) => 0
      case Retry(counted) => if counted then before + 1 else before
      case _ => before
  }

  function Counted(history: seq<Event>): nat {
    if history == [] then 0
    else Counted(history[..|history| - 1]) + (if history[|history| - 1] == Retry(true) then 1 else 0)
  }

  function Capped(n: nat): nat { if n <= U32_MAX then n else U32_MAX }

  predicate Final(event: Event) {
    event.Publish? && (event.state.Stopped? || event.state.Rejected?)
  }

  /** What may come right after what. */
  predicate Follows(a: Event, b: Event) {
    match a
    case Dial(_) => b.Answer?
    case Answer(Open(_, _, url)) => b == PublishUrl(url)
    case Answer(ReclaimAgain) => b == Retry(true)
    case Answer(Failed) => b == Retry(true)
    case Answer(Wait(_)) => b == Retry(false)
    case Answer(Terminal(code, message)) => b == Publish(Rejected(code, message))
    case PublishUrl(url) => b.Publish? && b.state.Connected? && b.state.url == url
    case Retry(_) => b.Publish? && b.state.Reconnecting?
    case Publish(Connected(_, _)) => b.SessionOver?
    case SessionOver(ShutDown) => b == Publish(Stopped)
    case SessionOver(ToldToStop(code, message)) => b == Publish(Rejected(code, message))
    case SessionOver(Lost(_)) => b == Retry(true)
    case Publish(Reconnecting(_, _)) => b == Publish(Stopped) || b == Publish(Connecting) || b.Dial?
    case Publish(Connecting) => b.Dial?
    case Publish(_) => false
  }

  predicate MayFollow(history: seq<Event>, e: Event) {
    if history == [] then e.Dial? || e == Publish(Stopped) else Follows(history[|history| - 1], e)
  }

  /** The seconds before a retry that nobody gave a time for, by the counted retries before it. */
  function BaseSecs(attempt: nat): nat {
    if attempt >= 6 then 60 else [1, 2, 4, 8, 16, 32][attempt]
  }

  /** The delay is about that long. */
  predicate IsBackoff(attempt: nat, delay: real) {
    0.8 * BaseSecs(attempt) as real <= delay < 1.2 * BaseSecs(attempt) as real
  }

  /** The sleep before the retry: what the relay asked for, after a `Wait` or at the end of a session, and
      a backoff otherwise. */
  predicate WaitHonoured(history: seq<Event>, state: TunnelState)
    requires state.Reconnecting?
  {
    |history| > 1 &&
    match history[|history| - 2]
    case Answer(Wait(delay)) => state.delay == delay
    case SessionOver(Lost(Some(after))) => state.delay == after
    case _ => IsBackoff(state.attempt, state.delay)
  }

  /** The latest welcome gave this name. */
  predicate Named(history: seq<Event>, slug: string) {
    Offer(history).Some? && Offer(history).value.slug == slug
  }

  /** The promises, at one position of a history: events come in the loop's order, a dial offers the
      credential of the latest welcome, a connection is published under the name that this gave, a
      published retry carries the number of counted retries before it, and nothing follows a final state. */
  ghost predicate Keeps(history: seq<Event>, p: nat)
    requires p < |history|
  {
    && MayFollow(history[..p], history[p])
    && (history[p].Dial? ==> history[p].offer == Offer(history[..p]))
    && (history[p].Publish? && history[p].state.Reconnecting? ==>
          p > 0 && history[p - 1].Retry? && history[p].state.attempt == Capped(Attempts(history[..p - 1]))
          && WaitHonoured(history[..p], history[p].state))
    && (history[p] == Publish(Connecting) ==> Offer(history[..p]).None? && Attempts(history[..p]) == 0)
    && (history[p].Publish? && history[p].state.Connected? ==> Named(history[..p], history[p].state.slug))
    && (Final(history[p]) ==> p == |history| - 1)
  }

  ghost predicate Sound(history: seq<Event>) {
    forall p :: 0 <= p < |history| ==> Keeps(history, p)
  }

  predicate Unfinished(history: seq<Event>) {
    forall p :: 0 <= p < |history| ==> !Final(history[p])
  }

  predicate RetryState(history: seq<Event>, state: TunnelState)
    requires state.Reconnecting?
  {
    && |history| > 0 && history[|history| - 1].Retry?
    && state.attempt == Capped(Attempts(history[..|history| - 1]))
    && WaitHonoured(history, state)
  }

  /** A history without a final state goes on. */
  lemma GoesOn(history: seq<Event>, e: Event)
    requires Sound(history) && Unfinished(history) && MayFollow(history, e)
    requires e.Dial? ==> e.offer == Offer(history)
    requires e.Publish? && e.state.Reconnecting? ==> RetryState(history, e.state)
    requires e == Publish(Connecting) ==> Offer(history).None? && Attempts(history) == 0
    requires e.Publish? && e.state.Connected? ==> Named(history, e.state.slug)
    ensures Sound(history + [e]) && (Unfinished(history + [e]) <==> !Final(e))
    ensures Counted(history + [e]) == Counted(history) + (if e == Retry(true) then 1 else 0)
  {
    var next := history + [e];
    assert next[..|history|] == history;
    forall p | 0 <= p < |next| ensures Keeps(next, p) {
      if p < |history| {
        assert Keeps(history, p) && next[..p] == history[..p];
        if p > 0 { assert next[..p - 1] == history[..p - 1]; }
      } else if p > 0 {
        assert next[..p] == history;
        assert next[..p - 1] == history[..|history| - 1];
      }
    }
    assert Final(next[|history|]) == Final(e);
  }

  lemma ReadOne(history: seq<Event>, e: Event)
    ensures Offer(history + [e]) ==
      match e
      case Answer(Open(slug, credential, _)) => Some(Reclaim(slug, credential))
      case Answer(ReclaimAgain) => None
      case _ => Offer(history)
    ensures Attempts(history + [e]) ==
      match e
      case Answer(Open(_, _, _)) => 0
      case Answer(Wait(_)) => 0
      case Retry(counted) => Attempts(history) + (if counted then 1 else 0)
      case _ => Attempts(history)
  {
    assert (history + [e])[..|history|] == history;
  }

  // ---------------------------------------------------------------- delays

  /** 1, 2, 4, ... seconds, at most 60. */
  function BackoffSecs(attempt: nat): nat {
    var shift := if attempt < 6 then attempt else 6;
    var secs := Pow2(shift);
    if secs < 60 then secs else 60
  }

  function BackoffDelay(attempt: nat, jitter: real): real {
    var delay := BackoffSecs(attempt) as real * jitter;
    if delay < 0.05 then 0.05 else delay
  }

  // ---------------------------------------------------------------- the supervisor

  class Supervisor {
    var history: seq<Event>
    var reconnects: nat
    var state: TunnelState
    var reclaim: Option<Reclaim>
    var attempt: nat

    /** True between two events, whatever `reclaim` and `attempt` are about to become. */
    ghost predicate Recorded()
      reads this
    {
      Sound(history) && Unfinished(history) && reconnects == Counted(history)
    }

    /** True at the top of the loop. */
    ghost predicate Valid()
      reads this
    {
      && Recorded() && reclaim == Offer(history) && attempt == Capped(Attempts(history))
      && (history == [] || (Last().Publish? && Last().state.Reconnecting?))
      && (history == [] ==> state == Connecting)
    }

    function Last(): Event
      requires history != []
      reads this
    {
      history[|history| - 1]
    }

    constructor ()
      ensures Valid() && history == [] && state == Connecting
    {
      history, reconnects, reclaim, attempt := [], 0, None, 0;
      state := Connecting;
    }

    method Record(e: Event)
      requires Recorded() && MayFollow(history, e) && !e.Dial? && !e.Publish? && e != Retry(true)
      modifies this`history
      ensures Recorded() && history == old(history) + [e]
    {
      GoesOn(history, e);
      history := history + [e];
    }

    method Send(next: TunnelState)
      requires Recorded() && MayFollow(history, Publish(next))
      requires next.Reconnecting? ==> RetryState(history, next)
      requires next.Connecting? ==> Offer(history).None? && Attempts(history) == 0
      requires next.Connected? ==> Named(history, next.slug)
      modifies this`history, this`state
      ensures Sound(history) && reconnects == Counted(history) && history == old(history) + [Publish(next)]
      ensures state == next && (Unfinished(history) <==> !Final(Publish(next)))
      ensures Offer(history) == Offer(old(history)) && Attempts(history) == Attempts(old(history))
    {
      GoesOn(history, Publish(next));
      ReadOne(history, Publish(next));
      history := history + [Publish(next)];
      state := next;
    }

    /** `wait_retry`: counts, publishes, sleeps. False when shutdown wins the sleep. */
    method WaitRetry(delay: real, count: bool, slept: bool) returns (ok: bool)
      requires Recorded() && attempt == Capped(Attempts(history)) && history != []
      requires MayFollow(history, Retry(count)) && WaitHonoured(history + [Retry(count)], Reconnecting(attempt, delay))
      modifies this`history, this`state, this`reconnects
      ensures Sound(history) && reconnects == Counted(history)
      ensures ok == slept
      ensures ok ==> Unfinished(history) && Offer(history) == Offer(old(history))
      ensures ok ==> history != [] && Last().Publish? && Last().state.Reconnecting?
      ensures ok ==> Attempts(history) == Attempts(old(history)) + (if count then 1 else 0)
      ensures !ok ==> state == Stopped && |history| > 0 && Final(history[|history| - 1])
    {
      GoesOn(history, Retry(count));
      ReadOne(history, Retry(count));
      if count { reconnects := reconnects + 1; }
      assert (history + [Retry(count)])[..|history|] == history;
      history := history + [Retry(count)];
      Send(Reconnecting(attempt, delay));
      if slept { return true; }
      Send(Stopped);
      ok := false;
    }

    /** `attempt.saturating_add(1)` */
    method Tried()
      requires attempt <= U32_MAX
      modifies this`attempt
      ensures attempt == Capped(old(attempt) + 1)
    {
      if attempt < U32_MAX { attempt := attempt + 1; }
    }

    /** One more counted try. */
    method TryAgain(delay: real, slept: bool) returns (again: bool)
      requires Recorded() && reclaim == Offer(history) && attempt == Capped(Attempts(history)) && history != []
      requires MayFollow(history, Retry(true)) && WaitHonoured(history + [Retry(true)], Reconnecting(attempt, delay))
      modifies this
      ensures Sound(history) && reconnects == Counted(history)
      ensures again == slept && (again ==> Valid())
      ensures !again ==> |history| > 0 && Final(history[|history| - 1])
    {
      again := WaitRetry(delay, true, slept);
      if again { Tried(); }
    }

    /** `client::connect`: offers what is to be reclaimed and hears the relay's answer. */
    method Connect(answer: Handshake)
      requires Recorded() && reclaim == Offer(history) && MayFollow(history, Dial(reclaim))
      modifies this`history
      ensures Recorded() && history == old(history) + [Dial(reclaim), Answer(answer)]
      ensures Offer(history) == match answer
        case Open(slug, credential, _) => Some(Reclaim(slug, credential))
        case ReclaimAgain => None
        case _ => reclaim
      ensures Attempts(history) == if answer.Open? || answer.Wait? then 0 else Attempts(old(history))
    {
      GoesOn(history, Dial(reclaim));
      ReadOne(history, Dial(reclaim));
      history := history + [Dial(reclaim)];
      ReadOne(history, Answer(answer));
      Record(Answer(answer));
    }

    /** One more try after an answer that gives no time for it. */
    method BackOff(jitter: real, slept: bool) returns (again: bool)
      requires Recorded() && reclaim == Offer(history) && attempt == Capped(Attempts(history)) && 0.8 <= jitter < 1.2
      requires history != [] && (Last() == Answer(ReclaimAgain) || Last() == Answer(Failed))
      modifies this
      ensures Sound(history) && reconnects == Counted(history)
      ensures again == slept && (again ==> Valid())
      ensures !again ==> |history| > 0 && Final(history[|history| - 1])
    {
      BackoffBounds(attempt, jitter);
      again := TryAgain(BackoffDelay(attempt, jitter), slept);
    }

    /** One more try, not counted, after the relay said how long to wait. */
    method WaitAsAsked(delay: real, slept: bool) returns (again: bool)
      requires Recorded() && reclaim == Offer(history) && Attempts(history) == 0
      requires history != [] && Last() == Answer(Wait(delay))
      modifies this
      ensures Sound(history) && reconnects == Counted(history)
      ensures again == slept && (again ==> Valid())
      ensures !again ==> |history| > 0 && Final(history[|history| - 1])
    {
      attempt := 0;
      again := WaitRetry(delay, false, slept);
    }

    /** A welcome: publish it, run the session, see how it ended. */
    method Serve(slug: string, credential: string, url: string, turn: Turn) returns (again: bool)
      requires Recorded() && Offer(history) == Some(Reclaim(slug, credential)) && Attempts(history) == 0
      requires 0.8 <= turn.jitter < 1.2
      requires history != [] && Last() == Answer(Open(slug, credential, url))
      modifies this
      ensures Sound(history) && reconnects == Counted(history)
      ensures again ==> Valid()
      ensures !again ==> |history| > 0 && Final(history[|history| - 1])
    {
      attempt := 0;
      ReadOne(history, PublishUrl(url));
      Record(PublishUrl(url));
      Send(Connected(slug, url));
      ReadOne(history, SessionOver(turn.session));
      Record(SessionOver(turn.session));
      var stop := StopOf(turn.session, slug, credential);
      if stop.shutdown {
        Send(Stopped);
        return false;
      }
      if stop.terminal.Some? {
        Send(Rejected(stop.terminal.value.code, stop.terminal.value.message));
        return false;
      }
      reclaim := if stop.anew then None else stop.reclaim;
      BackoffBounds(attempt, turn.jitter);
      var delay := if stop.after.Some? then stop.after.value else BackoffDelay(attempt, turn.jitter);
      again := TryAgain(delay, turn.slept);
    }

    /** One iteration of the loop; false when the supervisor returns. */
    method RunTurn(turn: Turn) returns (again: bool)
      requires Valid() && 0.8 <= turn.jitter < 1.2
      modifies this
      ensures Sound(history) && reconnects == Counted(history)
      ensures again ==> Valid()
      ensures !again ==> |history| > 0 && Final(history[|history| - 1])
    {
      if turn.shutdown {
        Send(Stopped);
        return false;
      }
      if attempt == 0 && reclaim.None? && !state.Connecting? {
        Send(Connecting);
      }
      Connect(turn.handshake);
      match turn.handshake {
        case Open(slug, credential, url) =>
          again := Serve(slug, credential, url, turn);
        case ReclaimAgain =>
          reclaim := None;
          again := BackOff(turn.jitter, turn.slept);
        case Wait(delay) =>
          again := WaitAsAsked(delay, turn.slept);
        case Terminal(code, message) =>
          Send(Rejected(code, message));
          again := false;
        case Failed =>
          again := BackOff(turn.jitter, turn.slept);
      }
    }

    /** The supervisor, for any behaviour of the relay and any number of iterations. */
    method Supervise(turns: seq<Turn>) returns (running: bool)
      requires Valid() && history == [] && forall i :: 0 <= i < |turns| ==> 0.8 <= turns[i].jitter < 1.2
      modifies this
      ensures Sound(history) && reconnects == Counted(history)
      ensures running ==> Unfinished(history) && reclaim == Offer(history) && attempt == Capped(Attempts(history))
      ensures !running ==> |history| > 0 && Final(history[|history| - 1])
    {
      running := true;
      var n := 0;
      while n < |turns| && running
        invariant n <= |turns|
        invariant Sound(history) && reconnects == Counted(history)
        invariant running ==> Valid()
        invariant !running ==> |history| > 0 && Final(history[|history| - 1])
      {
        running := RunTurn(turns[n]);
        n := n + 1;
      }
    }
  }

  // ---------------------------------------------------------------- what a sound history promises

  /** What every dial of a sound history offers: the last thing the relay said about
      credentials before it, if that was a welcome. */
  lemma {:induction false} OfferIsLatestWelcome(history: seq<Event>)
    ensures Offer(history).Some? <==> exists w :: IsLatestWelcome(history, w)
    ensures forall w :: IsLatestWelcome(history, w) ==>
      Offer(history) == Some(Reclaim(history[w].handshake.slug, history[w].handshake.credential))
    decreases |history|
  {
    if history != [] {
      var n := |history| - 1;
      var before := history[..n];
      OfferIsLatestWelcome(before);
      forall w | IsLatestWelcome(history, w)
        ensures Offer(history) == Some(Reclaim(history[w].handshake.slug, history[w].handshake.credential))
      {
        if w < n { assert IsLatestWelcome(before, w) && before[w] == history[w]; }
      }
      if history[n].Answer? && history[n].handshake.Open? {
        assert IsLatestWelcome(history, n);
      } else if !(history[n].Answer? && history[n].handshake.ReclaimAgain?) && Offer(before).Some? {
        var w :| IsLatestWelcome(before, w);
        assert IsLatestWelcome(history, w);
      }
    }
  }

  /** A welcome with neither another welcome nor a `ReclaimAgain` after it. */
  predicate IsLatestWelcome(history: seq<Event>, w: int) {
    && 0 <= w < |history| && history[w].Answer? && history[w].handshake.Open?
    && forall p :: w < p < |history| && history[p].Answer? ==>
         !history[p].handshake.Open? && !history[p].handshake.ReclaimAgain?
  }

  /** The base delays: 1, 2, 4, 8, 16, 32 and then 60 seconds, jittered by a fifth. */
  lemma BackoffBounds(attempt: nat, jitter: real)
    requires 0.8 <= jitter < 1.2
    ensures BackoffSecs(attempt) == BaseSecs(attempt)
    ensures IsBackoff(attempt, BackoffDelay(attempt, jitter))
  {
    SmallPowers();
  }
}
