/** Admission as relay sessions use it: one loop at a time that accepts calls, any number of tasks,
    also of earlier sessions, that end them, and the guard that calls `end_request` when it is dropped
    (`accept_request` and `InflightGuard` in `session.rs`). */
module SessionCalls {
  import opened Counting
  import opened Options

  /** Who calls `end_request`: the 400 path of the loop, or the guard of its task. */
  datatype Owner = BadRequest | Guard

  datatype Task =
    | Arrived                                   // the start frame is read
    | Probed(prev: nat)                         // `begin_request` has incremented the counter
    | Refused                                   // 429
    | Building                                  // admitted; the request is being built
    | Spawned                                   // a task exists but was not polled yet
    | Serving                                   // it holds its guard
    | Ending(owner: Owner, subtracted: bool)    // inside `end_request`, before or after its decrement
    | Over(ender: Owner)
    | Lost                                      // dropped by the runtime before its first poll

  /** A call, and how often `end_request` took it off the counter. */
  datatype Call = Call(task: Task, ends: nat)

  /** `busy` is the call that the session loop is accepting; it accepts one at a time. `limit` is that
      of the session, `peak` the highest that any session had. */
  datatype State = State(limit: nat, peak: nat, inflight: nat, total: nat, busy: Option<nat>, calls: seq<Call>)

  datatype Action =
    | Renew(limit: nat)                         // a reconnect: a new loop, with the limit of its welcome
    | Start
    | Probe
    | Decide
    | Build(ok: bool)
    | Poll(call: nat)
    | Finish(call: nat)
    | Discard(call: nat)
    | Subtract(call: nat)
    | AddTotal(call: nat)

  predicate BusyWith(s: State) {
    s.busy.Some? && s.busy.value < |s.calls|
  }

  function Accepted(s: State): Task
    requires BusyWith(s)
  {
    s.calls[s.busy.value].task
  }

  function TaskOf(s: State, c: nat): Task
    requires c < |s.calls|
  {
    s.calls[c].task
  }

  predicate Enabled(s: State, a: Action) {
    match a
    case Renew(limit) => s.busy.None? && limit < U32
    case Start => s.busy.None?
    case Probe => BusyWith(s) && Accepted(s).Arrived?
    case Decide => BusyWith(s) && Accepted(s).Probed?
    case Build(_) => BusyWith(s) && Accepted(s).Building?
    case Poll(c) => c < |s.calls| && TaskOf(s, c).Spawned?
    case Finish(c) => c < |s.calls| && TaskOf(s, c).Serving?
    case Discard(c) => c < |s.calls| && (TaskOf(s, c).Spawned? || TaskOf(s, c).Serving?)
    case Subtract(c) => c < |s.calls| && TaskOf(s, c).Ending? && !TaskOf(s, c).subtracted
    case AddTotal(c) => c < |s.calls| && TaskOf(s, c).Ending? && TaskOf(s, c).subtracted
  }

  function SetTask(s: State, c: nat, task: Task): State
    requires c < |s.calls|
  {
    s.(calls := s.calls[c := s.calls[c].(task := task)])
  }

  function Next(s: State, a: Action): State
    requires Enabled(s, a)
  {
    match a
    case Renew(limit) => s.(limit := limit, peak := if limit > s.peak then limit else s.peak)
    case Start => s.(calls := s.calls + [Call(Arrived, 0)], busy := Some(|s.calls|))
    case Probe => SetTask(s, s.busy.value, Probed(s.inflight)).(inflight := (s.inflight + 1) % U32)
    case Decide =>
      if Accepted(s).prev >= s.limit
      then SetTask(s, s.busy.value, Refused).(inflight := Decrement(s.inflight), busy := None)
      else SetTask(s, s.busy.value, Building)
    case Build(ok) =>
      if ok then SetTask(s, s.busy.value, Spawned).(busy := None)
      else SetTask(s, s.busy.value, Ending(BadRequest, false))
    case Poll(c) => SetTask(s, c, Serving)
    case Finish(c) => SetTask(s, c, Ending(Guard, false))
    case Discard(c) => SetTask(s, c, if TaskOf(s, c).Serving? then Ending(Guard, false) else Lost)
    case Subtract(c) =>
      var owner := TaskOf(s, c).owner;
      s.(calls := s.calls[c := Call(Ending(owner, true), s.calls[c].ends + 1)], inflight := Decrement(s.inflight))
    case AddTotal(c) =>
      var owner := TaskOf(s, c).owner;
      SetTask(s, c, Over(owner)).(total := (s.total + 1) % U64, busy := if owner.BadRequest? then None else s.busy)
  }

  // ---------------------------------------------------------------- what the counter means

  /** Admitted and not yet taken off the counter. */
  function Live(): Call -> bool {
    (c: Call) => c.task.Building? || c.task.Spawned? || c.task.Serving? || c.task.Lost?
                 || (c.task.Ending? && !c.task.subtracted)
  }

  function IsOver(): Call -> bool { (c: Call) => c.task.Over? }

  /** A call that the session loop itself is still at work on. */
  predicate InLoop(task: Task) {
    task.Arrived? || task.Probed? || task.Building? || (task.Ending? && task.owner.BadRequest?)
  }

  /** How often `end_request` must have run for a call at this stage. */
  function EndsDue(task: Task): nat {
    if task.Over? || (task.Ending? && task.subtracted) then 1 else 0
  }

  /** The probe of the call being accepted, if it is on the counter right now. */
  function Probing(s: State): nat {
    if BusyWith(s) && Accepted(s).Probed? then 1 else 0
  }

  ghost predicate Inv(s: State) {
    && s.limit <= s.peak < U32
    && (s.busy.Some? ==> BusyWith(s) && InLoop(Accepted(s)))
    && (forall c :: 0 <= c < |s.calls| && InLoop(s.calls[c].task) ==> s.busy == Some(c))
    && (forall c :: 0 <= c < |s.calls| ==> s.calls[c].ends == EndsDue(s.calls[c].task))
    && s.inflight == Holders(s) % U32
    && Count(s.calls, Live()) <= s.peak
    && (BusyWith(s) && Accepted(s).Probed? && Accepted(s).prev < s.limit ==> Count(s.calls, Live()) < s.limit)
    && s.total == Count(s.calls, IsOver()) % U64
  }

  function Init(limit: nat): State { State(limit, limit, 0, 0, None, []) }

  /** The call that an action is about. */
  function Subject(s: State, a: Action): nat
    requires Enabled(s, a) && !a.Renew?
  {
    match a
    case Start => |s.calls|
    case Probe => s.busy.value
    case Decide => s.busy.value
    case Build(_) => s.busy.value
    case Poll(c) => c
    case Finish(c) => c
    case Discard(c) => c
    case Subtract(c) => c
    case AddTotal(c) => c
  }

  lemma OnlySubjectChanges(s: State, a: Action)
    requires Enabled(s, a) && !a.Renew?
    ensures var t, c := Next(s, a), Subject(s, a);
      if a.Start? then t.calls == s.calls + [Call(Arrived, 0)]
      else c < |s.calls| == |t.calls| && t.calls == s.calls[c := t.calls[c]]
  {
  }

  lemma CountAfter(s: State, a: Action, p: Call -> bool)
    requires Enabled(s, a) && !a.Renew? && !p(Call(Arrived, 0))
    ensures a.Start? ==> Count(Next(s, a).calls, p) == Count(s.calls, p)
    ensures var t, c := Next(s, a), Subject(s, a);
      !a.Start? ==>
        && c < |s.calls| == |t.calls|
        && Count(t.calls, p) == Count(s.calls, p) + (if p(t.calls[c]) then 1 else 0) - (if p(s.calls[c]) then 1 else 0)
  {
    OnlySubjectChanges(s, a);
    if a.Start? {
      CountAppend(s.calls, Call(Arrived, 0), p);
    } else {
      CountUpdate(s.calls, Subject(s, a), Next(s, a).calls[Subject(s, a)], p);
    }
  }

  lemma ControlStays(s: State, a: Action)
    requires Inv(s) && Enabled(s, a)
    ensures var t := Next(s, a);
      && (t.busy.Some? ==> BusyWith(t) && InLoop(Accepted(t)))
      && (forall c :: 0 <= c < |t.calls| && InLoop(t.calls[c].task) ==> t.busy == Some(c))
      && (forall c :: 0 <= c < |t.calls| ==> t.calls[c].ends == EndsDue(t.calls[c].task))
  {
    if !a.Renew? { OnlySubjectChanges(s, a); }
  }

  lemma LimitStays(s: State, a: Action)
    requires Inv(s) && Enabled(s, a)
    ensures var t := Next(s, a);
      && t.limit <= t.peak < U32 && Count(t.calls, Live()) <= t.peak
      && (BusyWith(t) && Accepted(t).Probed? && Accepted(t).prev < t.limit ==> Count(t.calls, Live()) < t.limit)
  {
    if a.Renew? { return; }
    CountAfter(s, a, Live());
    OnlySubjectChanges(s, a);
    assert a.Probe? ==> Probing(s) == 0 && s.inflight == Count(s.calls, Live());
  }

  /** A probe that is off the counter again leaves it as it was, also around zero. */
  lemma DecrementUndoes(n: nat)
    ensures Decrement((n + 1) % U32) == n % U32
  {
    if (n + 1) % U32 == 0 {
      assert n % U32 == U32 - 1;
    } else {
      assert (n + 1) % U32 == n % U32 + 1;
    }
  }

  /** The calls on the counter: the live ones, and the one that is being probed for. */
  function Holders(s: State): nat {
    Count(s.calls, Live()) + Probing(s)
  }

  lemma HoldersAfter(s: State, a: Action)
    requires Inv(s) && Enabled(s, a)
    ensures Holders(Next(s, a)) == Holders(s) +
      (if a.Probe? then 1
       else if a.Subtract? || (a.Decide? && Accepted(s).prev >= s.limit) then -1
       else 0)
  {
    if !a.Renew? { CountAfter(s, a, Live()); }
  }

  lemma InflightStays(s: State, a: Action)
    requires Inv(s) && Enabled(s, a)
    ensures Next(s, a).inflight == Holders(Next(s, a)) % U32
  {
    HoldersAfter(s, a);
    if a.Probe? {
      assert (s.inflight + 1) % U32 == (Holders(s) + 1) % U32;
    } else if Holders(Next(s, a)) == Holders(s) - 1 {
      DecrementUndoes(Holders(s) - 1);
    }
  }

  lemma TotalStays(s: State, a: Action)
    requires Inv(s) && Enabled(s, a)
    ensures Next(s, a).total == Count(Next(s, a).calls, IsOver()) % U64
  {
    if !a.Renew? { CountAfter(s, a, IsOver()); }
  }

  lemma StepKeeps(s: State, a: Action)
    requires Inv(s) && Enabled(s, a)
    ensures Inv(Next(s, a))
  {
    ControlStays(s, a);
    LimitStays(s, a);
    InflightStays(s, a);
    TotalStays(s, a);
  }

  // ---------------------------------------------------------------- every run

  ghost predicate IsRun(s: State, actions: seq<Action>)
    decreases |actions|
  {
    actions != [] ==> Enabled(s, actions[0]) && IsRun(Next(s, actions[0]), actions[1..])
  }

  ghost function End(s: State, actions: seq<Action>): State
    requires IsRun(s, actions)
    decreases |actions|
  {
    if actions == [] then s else End(Next(s, actions[0]), actions[1..])
  }

  lemma {:induction false} RunKeeps(s: State, actions: seq<Action>)
    requires Inv(s) && IsRun(s, actions)
    ensures Inv(End(s, actions))
    decreases |actions|
  {
    if actions != [] {
      StepKeeps(s, actions[0]);
      RunKeeps(Next(s, actions[0]), actions[1..]);
    }
  }

  ghost predicate Reaches(limit: nat, actions: seq<Action>, s: State) {
    IsRun(Init(limit), actions) && End(Init(limit), actions) == s
  }

  /** Some run, with limits that a `u32` holds, leads here. */
  ghost predicate Reachable(s: State) {
    exists limit: nat, actions: seq<Action> :: limit < U32 && Reaches(limit, actions, s)
  }

  lemma ReachableInv(s: State)
    requires Reachable(s)
    ensures Inv(s)
  {
    var limit: nat, actions: seq<Action> :| limit < U32 && Reaches(limit, actions, s);
    RunKeeps(Init(limit), actions);
  }

  // ---------------------------------------------------------------- the promises

  /** `end_request` runs exactly once for every admitted call that is over, by the 400 path or by
      its guard, and not at all for a refused one or one whose task was never polled. */
  lemma EndedExactlyOnce(s: State, c: nat)
    requires Reachable(s) && c < |s.calls|
    ensures s.calls[c].ends <= 1
    ensures TaskOf(s, c).Over? ==> s.calls[c].ends == 1
    ensures TaskOf(s, c).Refused? || TaskOf(s, c).Lost? ==> s.calls[c].ends == 0
  {
    ReachableInv(s);
  }

  /** Never more calls are admitted and unfinished than the highest limit so far; between two frames
      the counter is their number, and the total is the number of calls that are over. */
  lemma CounterIsLiveCalls(s: State)
    requires Reachable(s)
    ensures Count(s.calls, Live()) <= s.peak
    ensures s.busy.None? ==> s.inflight == Count(s.calls, Live())
    ensures s.total == Count(s.calls, IsOver()) % U64
  {
    ReachableInv(s);
  }

  /** What the drain waits for: between two frames the counter is zero exactly when no task is
      queued or serving, none has yet to run the decrement of its guard, and none was lost. */
  lemma DrainedIffNoTask(s: State)
    requires Reachable(s) && s.busy.None?
    ensures s.inflight == 0 <==> forall c :: 0 <= c < |s.calls| ==>
      !TaskOf(s, c).Spawned? && !TaskOf(s, c).Serving? && !TaskOf(s, c).Lost?
      && (TaskOf(s, c).Ending? ==> TaskOf(s, c).subtracted)
  {
    ReachableInv(s);
    CounterIsLiveCalls(s);
    CountIsZeroIff(s.calls, Live());
    assert forall c :: 0 <= c < |s.calls| ==> !InLoop(s.calls[c].task);
    if s.inflight == 0 {
      forall c | 0 <= c < |s.calls|
        ensures !TaskOf(s, c).Spawned? && !TaskOf(s, c).Serving? && !TaskOf(s, c).Lost?
        ensures TaskOf(s, c).Ending? ==> TaskOf(s, c).subtracted
      {
        assert !Live()(s.calls[c]);
      }
    } else {
      var c :| 0 <= c < |s.calls| && Live()(s.calls[c]);
      assert !TaskOf(s, c).Building?;
    }
  }

  /** The loop accepts one call at a time, so a call is refused exactly when the limit of the session
      is reached by calls that are admitted and unfinished, those of earlier sessions included. */
  lemma RefusedIffFull(s: State)
    requires Reachable(s) && Enabled(s, Probe)
    ensures var t := Next(s, Probe);
      && Enabled(t, Decide)
      && TaskOf(t, s.busy.value) == Probed(Count(s.calls, Live()))
      && (TaskOf(Next(t, Decide), s.busy.value).Refused? <==> Count(s.calls, Live()) >= s.limit)
  {
    ReachableInv(s);
  }

  /** A task that the runtime drops before its first poll has no guard: its place is never given back. */
  lemma {:induction false} LostStaysCounted(s: State, c: nat, actions: seq<Action>)
    requires Inv(s) && c < |s.calls| && TaskOf(s, c).Lost? && IsRun(s, actions)
    ensures var e := End(s, actions);
      && c < |e.calls| && TaskOf(e, c).Lost? && Count(e.calls, Live()) >= 1
    decreases |actions|
  {
    if actions == [] {
      CountIsZeroIff(s.calls, Live());
      assert Live()(s.calls[c]);
    } else {
      if !actions[0].Renew? { OnlySubjectChanges(s, actions[0]); }
      StepKeeps(s, actions[0]);
      LostStaysCounted(Next(s, actions[0]), c, actions[1..]);
    }
  }
  /** The task made its guard: it serves, or the guard ends it, or has ended it. */
  predicate HasGuard(task: Task) {
    match task
    case Serving => true
    case Ending(owner, _) => owner.Guard?
    case Over(ender) => ender.Guard?
    case _ => false
  }

  /** A task that was polled once is never lost: however it is dropped, its guard ends it. */
  lemma {:induction false} PolledIsNeverLost(s: State, c: nat, actions: seq<Action>)
    requires Inv(s) && c < |s.calls| && HasGuard(TaskOf(s, c)) && IsRun(s, actions)
    ensures c < |End(s, actions).calls| && HasGuard(TaskOf(End(s, actions), c))
    decreases |actions|
  {
    if actions != [] {
      if !actions[0].Renew? { OnlySubjectChanges(s, actions[0]); }
      StepKeeps(s, actions[0]);
      PolledIsNeverLost(Next(s, actions[0]), c, actions[1..]);
    }
  }

  /** Polling a spawned task makes its guard, and dropping a serving one starts its end. */
  lemma GuardIsMade(s: State, c: nat)
    requires Inv(s) && c < |s.calls|
    ensures TaskOf(s, c).Spawned? ==> Enabled(s, Poll(c)) && HasGuard(TaskOf(Next(s, Poll(c)), c))
    ensures TaskOf(s, c).Serving? ==> Enabled(s, Discard(c)) && TaskOf(Next(s, Discard(c)), c) == Ending(Guard, false)
  {
  }
}
