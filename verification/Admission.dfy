/** The optimistic in-flight counter (`stats.rs`) under any interleaving of its callers. */
module Admission {
  import opened Counting

  /** Where one call stands. `begin_request` is two atomic operations, an increment that
      returns the value before it and, for a caller that saw the limit reached, a decrement;
      `end_request` is a decrement and then an increment of the total. */
  datatype Stage =
    | Idle
    | Probed(prev: nat)
    | Admitted
    | Refused
    | Released
    | Ended

  datatype State = State(limit: nat, inflight: nat, total: nat, calls: seq<Stage>)

  datatype Action =
    | Arrive
    | Probe(call: nat)
    | Decide(call: nat)
    | Release(call: nat)
    | CountTotal(call: nat)

  predicate Enabled(s: State, a: Action) {
    match a
    case Arrive => true
    case Probe(c) => c < |s.calls| && s.calls[c].Idle?
    case Decide(c) => c < |s.calls| && s.calls[c].Probed?
    case Release(c) => c < |s.calls| && s.calls[c].Admitted?
    case CountTotal(c) => c < |s.calls| && s.calls[c].Released?
  }

  predicate Typed(s: State) { s.inflight < U32 && s.total < U64 }

  function Next(s: State, a: Action): (t: State)
    requires Typed(s) && Enabled(s, a)
    ensures Typed(t)
  {
    match a
    case Arrive => s.(calls := s.calls + [Idle])
    case Probe(c) => s.(inflight := (s.inflight + 1) % U32, calls := s.calls[c := Probed(s.inflight)])
    case Decide(c) =>
      if s.calls[c].prev >= s.limit then s.(inflight := Decrement(s.inflight), calls := s.calls[c := Refused])
      else s.(calls := s.calls[c := Admitted])
    case Release(c) => s.(inflight := Decrement(s.inflight), calls := s.calls[c := Released])
    case CountTotal(c) => s.(total := (s.total + 1) % U64, calls := s.calls[c := Ended])
  }

  // ---------------------------------------------------------------- what the counters mean

  /** Has incremented the counter and not yet taken it back. */
  function Holding(): Stage -> bool { (s: Stage) => s.Probed? || s.Admitted? }

  /** Admitted, or about to learn that it is. */
  function Live(limit: nat): Stage -> bool { (s: Stage) => s.Admitted? || (s.Probed? && s.prev < limit) }

  /** A probe that will be taken back. */
  function Transient(limit: nat): Stage -> bool { (s: Stage) => s.Probed? && s.prev >= limit }

  function HasEnded(): Stage -> bool { (s: Stage) => s.Ended? }

  ghost predicate Inv(s: State) {
    && s.inflight == Count(s.calls, Holding())
    && s.total == Count(s.calls, HasEnded())
    && Count(s.calls, Live(s.limit)) <= s.limit
  }

  lemma CountAfter(s: State, a: Action, p: Stage -> bool)
    requires Typed(s) && Enabled(s, a) && !p(Idle)
    ensures
      var t := Next(s, a);
      Count(t.calls, p) == Count(s.calls, p) +
        (if a.Arrive? then 0 else (if p(t.calls[a.call]) then 1 else 0) - (if p(s.calls[a.call]) then 1 else 0))
  {
    if a.Arrive? {
      CountAppend(s.calls, Idle, p);
    } else {
      CountUpdate(s.calls, a.call, Next(s, a).calls[a.call], p);
    }
  }

  /** Fewer than 2^32 calls hold the counter at this moment, and fewer than 2^64 have ended. */
  ghost predicate Fits(s: State) {
    Count(s.calls, Holding()) < U32 && Count(s.calls, HasEnded()) < U64
  }

  lemma StepKeeps(s: State, a: Action)
    requires Typed(s) && Inv(s) && Enabled(s, a) && Fits(Next(s, a))
    ensures Inv(Next(s, a))
  {
    var t := Next(s, a);
    CountAtMost(s.calls, Live(s.limit), Holding());
    CountAfter(s, a, Holding());
    CountAfter(s, a, Live(s.limit));
    CountAfter(s, a, HasEnded());
  }

  // ---------------------------------------------------------------- every interleaving

  ghost predicate IsRun(s: State, actions: seq<Action>)
    requires Typed(s)
    decreases |actions|
  {
    actions != [] ==> Enabled(s, actions[0]) && IsRun(Next(s, actions[0]), actions[1..])
  }

  ghost function End(s: State, actions: seq<Action>): (t: State)
    requires Typed(s) && IsRun(s, actions)
    ensures Typed(t)
    decreases |actions|
  {
    if actions == [] then s else End(Next(s, actions[0]), actions[1..])
  }

  /** All states of the run fit the counters. */
  ghost predicate FitsAlong(s: State, actions: seq<Action>)
    requires Typed(s) && IsRun(s, actions)
    decreases |actions|
  {
    Fits(s) && (actions != [] ==> FitsAlong(Next(s, actions[0]), actions[1..]))
  }

  function Init(limit: nat): State { State(limit, 0, 0, []) }

  /** A call goes through its stages once, so that it is ended at most once. */
  function Rank(stage: Stage): nat {
    match stage
    case Idle => 0
    case Probed(_) => 1
    case Admitted => 2
    case Refused => 5
    case Released => 3
    case Ended => 4
  }

  lemma {:induction false} CallsGrow(s: State, actions: seq<Action>)
    requires Typed(s) && IsRun(s, actions)
    ensures |s.calls| <= |End(s, actions).calls|
    ensures forall c :: 0 <= c < |s.calls| ==> Rank(s.calls[c]) <= Rank(End(s, actions).calls[c])
    decreases |actions|
  {
    if actions != [] { CallsGrow(Next(s, actions[0]), actions[1..]); }
  }

  lemma {:induction false} RunKeeps(s: State, actions: seq<Action>)
    requires Typed(s) && Inv(s) && IsRun(s, actions) && FitsAlong(s, actions)
    ensures Inv(End(s, actions)) && End(s, actions).limit == s.limit
    decreases |actions|
  {
    if actions != [] {
      assert Fits(Next(s, actions[0]));
      StepKeeps(s, actions[0]);
      RunKeeps(Next(s, actions[0]), actions[1..]);
    }
  }

  /** How many `begin_request` returned true, and how many calls were ended, in a run. */
  ghost function Successes(s: State, actions: seq<Action>): nat
    requires Typed(s) && IsRun(s, actions)
    decreases |actions|
  {
    if actions == [] then 0
    else
      (if actions[0].Decide? && s.calls[actions[0].call].prev < s.limit then 1 else 0)
      + Successes(Next(s, actions[0]), actions[1..])
  }

  ghost function Releases(s: State, actions: seq<Action>): nat
    requires Typed(s) && IsRun(s, actions)
    decreases |actions|
  {
    if actions == [] then 0
    else (if actions[0].Release? then 1 else 0) + Releases(Next(s, actions[0]), actions[1..])
  }

  function Running(): Stage -> bool { (s: Stage) => s.Admitted? }

  /** Every success is a call that still runs or that was ended, once. */
  lemma {:induction false} Conservation(s: State, actions: seq<Action>)
    requires Typed(s) && IsRun(s, actions)
    ensures Count(s.calls, Running()) + Successes(s, actions) ==
      Count(End(s, actions).calls, Running()) + Releases(s, actions)
    decreases |actions|
  {
    if actions != [] {
      CountAfter(s, actions[0], Running());
      Conservation(Next(s, actions[0]), actions[1..]);
    }
  }

  lemma {:induction false} CountSplit(calls: seq<Stage>, limit: nat)
    ensures Count(calls, Holding()) == Count(calls, Live(limit)) + Count(calls, Transient(limit))
    ensures Count(calls, Running()) <= Count(calls, Live(limit))
  {
    if calls != [] { CountSplit(calls[1..], limit); }
  }

  /** For every interleaving in which fewer than 2^32 calls hold the counter at any moment: never
      more than `limit` calls are admitted and unfinished, the counter is exactly those and the
      probes about to be taken back (so it never underflows), the total is the number of ended
      calls, and each success is a call that still runs or was ended once. */
  lemma AdmissionIsBounded(limit: nat, actions: seq<Action>)
    requires IsRun(Init(limit), actions) && FitsAlong(Init(limit), actions)
    ensures
      var e := End(Init(limit), actions);
      && Count(e.calls, Running()) <= Count(e.calls, Live(limit)) <= limit
      && e.inflight == Count(e.calls, Live(limit)) + Count(e.calls, Transient(limit))
      && e.total == Count(e.calls, HasEnded())
      && Successes(Init(limit), actions) == Count(e.calls, Running()) + Releases(Init(limit), actions)
  {
    var s := Init(limit);
    RunKeeps(s, actions);
    Conservation(s, actions);
    CountSplit(End(s, actions).calls, limit);
  }

  /** A probe wins exactly when admitted calls and transient probes together are below the limit. */
  lemma WinsIff(s: State, c: nat)
    requires Typed(s) && Inv(s) && Enabled(s, Probe(c))
    ensures Live(s.limit)(Next(s, Probe(c)).calls[c])
      <==> Count(s.calls, Live(s.limit)) + Count(s.calls, Transient(s.limit)) < s.limit
  {
    CountSplit(s.calls, s.limit);
  }

  /** So a call can be refused although no call is admitted: a transient probe is in the way. */
  lemma RefusedWithNothingAdmitted()
    ensures
      var actions := [Arrive, Arrive, Arrive, Probe(0), Decide(0), Probe(1), Release(0), Probe(2), Decide(2)];
      IsRun(Init(1), actions) && End(Init(1), actions).calls == [Released, Probed(1), Refused]
  {
    var s0 := Init(1);
    var s1 := Next(s0, Arrive);
    var s2 := Next(s1, Arrive);
    var s3 := Next(s2, Arrive);
    assert s3.calls == [Idle, Idle, Idle];
    var s4 := Next(s3, Probe(0));
    var s5 := Next(s4, Decide(0));
    var s6 := Next(s5, Probe(1));
    var s7 := Next(s6, Release(0));
    var s8 := Next(s7, Probe(2));
    var s9 := Next(s8, Decide(2));
    assert s9.calls == [Released, Probed(1), Refused];
    RunStep(s8, Decide(2), []);
    RunStep(s7, Probe(2), [Decide(2)]);
    RunStep(s6, Release(0), [Probe(2), Decide(2)]);
    RunStep(s5, Probe(1), [Release(0), Probe(2), Decide(2)]);
    RunStep(s4, Decide(0), [Probe(1), Release(0), Probe(2), Decide(2)]);
    RunStep(s3, Probe(0), [Decide(0), Probe(1), Release(0), Probe(2), Decide(2)]);
    RunStep(s2, Arrive, [Probe(0), Decide(0), Probe(1), Release(0), Probe(2), Decide(2)]);
    RunStep(s1, Arrive, [Arrive, Probe(0), Decide(0), Probe(1), Release(0), Probe(2), Decide(2)]);
    RunStep(s0, Arrive, [Arrive, Arrive, Probe(0), Decide(0), Probe(1), Release(0), Probe(2), Decide(2)]);
  }

  lemma RunStep(s: State, a: Action, rest: seq<Action>)
    requires Typed(s) && Enabled(s, a) && IsRun(Next(s, a), rest)
    ensures IsRun(s, [a] + rest) && End(s, [a] + rest) == End(Next(s, a), rest)
  {
    assert ([a] + rest)[1..] == rest;
  }

  // ---------------------------------------------------------------- the counters themselves

  class Stats {
    var inflight: nat
    var total: nat

    ghost predicate Holds(s: State)
      reads this
    {
      inflight == s.inflight && total == s.total
    }

    constructor ()
      ensures inflight == 0 && total == 0
    {
      inflight, total := 0, 0;
    }

    method Probe() returns (prev: nat)
      requires inflight < U32
      modifies this`inflight
      ensures prev == old(inflight) && inflight == (old(inflight) + 1) % U32
    {
      prev := inflight;
      inflight := (inflight + 1) % U32;
    }

    /** Nothing comes in between: the two atomic operations of call `c` in a row. */
    method BeginRequest(maxInflight: nat, ghost s: State, ghost c: nat) returns (ok: bool)
      requires Typed(s) && Holds(s) && s.limit == maxInflight && Enabled(s, Action.Probe(c))
      modifies this
      ensures
        var t := Next(Next(s, Action.Probe(c)), Decide(c));
        Holds(t) && (ok <==> t.calls[c] == Admitted)
    {
      var prev := Probe();
      if prev >= maxInflight {
        inflight := if inflight == 0 then U32 - 1 else inflight - 1;
        ok := false;
      } else {
        ok := true;
      }
    }

    method EndRequest(ghost s: State, ghost c: nat)
      requires Typed(s) && Holds(s) && Enabled(s, Release(c))
      modifies this
      ensures Holds(Next(Next(s, Release(c)), CountTotal(c)))
    {
      inflight := if inflight == 0 then U32 - 1 else inflight - 1;
      total := (total + 1) % U64;
    }
  }
}
