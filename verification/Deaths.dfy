/** The restart budget of the stdio bridge: exits in the last minute, and the delay after each. */
module Deaths {
  import opened Powers

  /** Sixty seconds, in nanoseconds of a monotone clock. */
  const WINDOW: int := 60_000_000_000
  const MAX_EXITS: nat := 5

  predicate Sorted(xs: seq<int>) {
    forall i, j :: 0 <= i < j < |xs| ==> xs[i] <= xs[j]
  }

  /** The `deaths` deque after one more exit: `pop_front` while the front is too old, `push_back`. */
  function AfterExit(deaths: seq<int>, now: int): seq<int> {
    Trimmed(deaths, now) + [now]
  }

  function Trimmed(deaths: seq<int>, now: int): seq<int> {
    if deaths != [] && now - deaths[0] >= WINDOW then Trimmed(deaths[1..], now) else deaths
  }

  /** The exits younger than a minute at time `now`. */
  function Recent(exits: seq<int>, now: int): seq<int> {
    if exits == [] then []
    else (if now - exits[0] < WINDOW then [exits[0]] else []) + Recent(exits[1..], now)
  }

  /** Milliseconds of delay before a restart. */
  function Backoff(deaths: nat): nat {
    var shift := if deaths < 1 then 0 else if deaths - 1 < 4 then deaths - 1 else 4;
    200 * Pow2(shift)
  }

  /** The exits of the last minute before the latest exit, that one included. */
  function Window(exits: seq<int>): seq<int> {
    if exits == [] then [] else Recent(exits, exits[|exits| - 1])
  }

  /** Of a sorted history, the recent exits are a suffix, and exactly the young ones. */
  lemma {:induction false} RecentIsSuffix(exits: seq<int>, now: int)
    requires Sorted(exits)
    ensures |Recent(exits, now)| <= |exits|
    ensures Recent(exits, now) == exits[|exits| - |Recent(exits, now)|..]
    ensures forall i :: 0 <= i < |exits| ==> (now - exits[i] < WINDOW <==> i >= |exits| - |Recent(exits, now)|)
  {
    if exits == [] {
    } else if now - exits[0] < WINDOW {
      AllRecent(exits, now);
    } else {
      var rest := exits[1..];
      RecentIsSuffix(rest, now);
      assert Recent(exits, now) == Recent(rest, now);
      forall i | 0 < i < |exits|
        ensures now - exits[i] < WINDOW <==> i >= |exits| - |Recent(exits, now)|
      {
        assert exits[i] == rest[i - 1];
      }
    }
  }

  lemma {:induction false} AllRecent(exits: seq<int>, now: int)
    requires Sorted(exits) && exits != [] && now - exits[0] < WINDOW
    ensures Recent(exits, now) == exits
  {
    if |exits| > 1 {
      assert exits[0] <= exits[1];
      AllRecent(exits[1..], now);
    } else {
      assert Recent(exits[1..], now) == [];
    }
  }

  lemma {:induction false} TrimmedIsRecent(deaths: seq<int>, now: int)
    requires Sorted(deaths)
    ensures Trimmed(deaths, now) == Recent(deaths, now)
  {
    if deaths != [] {
      if now - deaths[0] < WINDOW {
        AllRecent(deaths, now);
      } else {
        TrimmedIsRecent(deaths[1..], now);
      }
    }
  }

  lemma {:induction false} RecentOfRecent(exits: seq<int>, before: int, now: int)
    requires before <= now
    ensures Recent(Recent(exits, before), now) == Recent(exits, now)
  {
    if exits != [] {
      RecentOfRecent(exits[1..], before, now);
      if before - exits[0] < WINDOW {
        var r := [exits[0]] + Recent(exits[1..], before);
        assert r[1..] == Recent(exits[1..], before);
        assert Recent(r, now) == (if now - exits[0] < WINDOW then [exits[0]] else []) + Recent(r[1..], now);
      } else {
        assert Recent(exits, before) == Recent(exits[1..], before);
      }
    }
  }

  lemma {:induction false} RecentAppend(exits: seq<int>, x: int, now: int)
    ensures Recent(exits + [x], now) == Recent(exits, now) + (if now - x < WINDOW then [x] else [])
  {
    if exits == [] {
      assert exits + [x] == [x];
    } else {
      assert (exits + [x])[1..] == exits[1..] + [x];
      RecentAppend(exits[1..], x, now);
    }
  }

  /** The deque that `too_many` maintains is the window of the full exit history. */
  lemma AfterExitIsWindow(exits: seq<int>, now: int)
    requires Sorted(exits + [now])
    ensures AfterExit(Window(exits), now) == Window(exits + [now])
  {
    RecentAppend(exits, now, now);
    if exits != [] {
      var last := exits[|exits| - 1];
      assert (exits + [now])[|exits| - 1] == last && (exits + [now])[|exits|] == now;
      assert Sorted(exits) by {
        forall i, j | 0 <= i < j < |exits| ensures exits[i] <= exits[j] {
          assert (exits + [now])[i] <= (exits + [now])[j];
        }
      }
      RecentIsSuffix(exits, last);
      assert Sorted(Recent(exits, last));
      TrimmedIsRecent(Recent(exits, last), now);
      RecentOfRecent(exits, last, now);
    }
  }

  /** The exits at most a minute, in nanoseconds, before the latest one. */
  function LastMinute(exits: seq<int>): set<nat>
    requires exits != []
  {
    Within(exits, exits[|exits| - 1])
  }

  function Within(exits: seq<int>, now: int): set<nat> {
    set i: nat | i < |exits| && now - exits[i] < 60_000_000_000
  }

  lemma {:induction false} RecentCounts(exits: seq<int>, now: int)
    ensures |Recent(exits, now)| == |Within(exits, now)|
  {
    if exits != [] {
      var n := |exits| - 1;
      RecentCounts(exits[..n], now);
      RecentAppend(exits[..n], exits[n], now);
      assert exits[..n] + [exits[n]] == exits;
      var before := Within(exits[..n], now);
      assert Within(exits, now) == if now - exits[n] < 60_000_000_000 then before + {n} else before;
    }
  }

  lemma WindowIsLastMinute(exits: seq<int>)
    ensures exits != [] ==> |Window(exits)| == |LastMinute(exits)|
  {
    if exits != [] { RecentCounts(exits, exits[|exits| - 1]); }
  }

  /** The delays that can occur between two children. */
  lemma BackoffDelays(deaths: nat)
    requires 1 <= deaths <= MAX_EXITS
    ensures Backoff(deaths) == [200, 400, 800, 1600, 3200][deaths - 1]
  {
    SmallPowers();
  }
}
