/** What redaction leaves alone (`redact_text` in `map.rs`): everything but the values behind the
    matches. */
module RedactSpans {
  import opened Redact
  import opened RedactKeys

  /** Place `x` comes behind a match of one of the needles and white space. */
  ghost predicate Behind(s: string, x: nat, needles: seq<string>) {
    exists i: nat, k: nat :: k < |needles| && MatchThenSpace(s, i, needles[k], x)
  }

  predicate MatchThenSpace(s: string, i: nat, n: string, x: nat) {
    MatchAt(s, i, n) && i + |n| <= x && Spaces(s, i + |n|, x)
  }

  predicate ValueEnds(s: string, x: nat, y: nat) {
    NoStops(s, x, y) && (y < |s| ==> IsStop(s[y]))
  }

  predicate NoSpaceAt(s: string, x: nat) { x < |s| ==> !IsSpace(s[x]) }

  /** A value: it begins behind a match and all of its white space, holds no stop character, and lasts
      until the next one or the end. */
  ghost predicate IsValue(s: string, x: nat, y: nat, needles: seq<string>) {
    x <= y <= |s| && Behind(s, x, needles) && NoSpaceAt(s, x) && ValueEnds(s, x, y)
  }

  predicate StandsAt(t: string, u: nat, mark: string) {
    u + |mark| <= |t| && forall p :: u <= p < u + |mark| ==> t[p] == mark[p - u]
  }

  /** One character is copied, or the mark is put for so many. */
  datatype Step = Keep | Hide(length: nat)

  /** Step by step, `s` from `x` on becomes `t` from `u` on: characters are copied one by one, and
      only values of `s` are hidden. */
  ghost predicate Hides(steps: seq<Step>, s: string, x: nat, t: string, u: nat, mark: string, needles: seq<string>)
    decreases |steps|
  {
    if steps == [] then x == |s| && u == |t|
    else match steps[0]
      case Keep =>
        x < |s| && u < |t| && t[u] == s[x] && Hides(steps[1..], s, x + 1, t, u + 1, mark, needles)
      case Hide(n) =>
        IsValue(s, x, x + n, needles) && StandsAt(t, u, mark)
        && Hides(steps[1..], s, x + n, t, u + |mark|, mark, needles)
  }

  /** `t` is `s` with some of its values hidden, and nothing else changed. */
  ghost predicate OnlyHides(s: string, t: string, mark: string, needles: seq<string>) {
    exists steps :: Hides(steps, s, 0, t, 0, mark, needles)
  }

  /** A mark holds no stop character, no white space and nothing that ends a needle, and its last
      character is in no needle at all. */
  predicate IsMark(mark: string) {
    && mark != [] && !KeyChar(Lower(mark[|mark| - 1]))
    && forall k :: 0 <= k < |mark| ==> !IsStop(mark[k]) && !IsSpace(mark[k]) && Lower(mark[k]) !in {'=', ':'}
  }

  // ---------------------------------------------------------------- one more value hidden

  /** A value of the text so far, `t`, behind the match at `i`; with it hidden the text is `t'`. */
  predicate Replaced(t: string, t': string, i: nat, n: string, start: nat, end: nat, mark: string) {
    && start <= end <= |t| && MatchThenSpace(t, i, n, start) && NoSpaceAt(t, start) && ValueEnds(t, start, end)
    && |t'| == start + |mark| + (|t| - end)
    && (forall p :: 0 <= p < start ==> t'[p] == t[p]) && StandsAt(t', start, mark)
    && SameFrom(t, end, t', start + |mark|)
  }

  predicate SameFrom(t: string, u: nat, t': string, u': nat) {
    u <= |t| && u' <= |t'| && |t| - u == |t'| - u' && forall p :: u <= p < |t| ==> t'[p - u + u'] == t[p]
  }

  lemma {:induction false} HidesElsewhere(steps: seq<Step>, s: string, x: nat, t: string, u: nat, t': string, u': nat,
                                          mark: string, needles: seq<string>)
    requires Hides(steps, s, x, t, u, mark, needles) && SameFrom(t, u, t', u')
    ensures Hides(steps, s, x, t', u', mark, needles)
    decreases |steps|
  {
    if steps != [] {
      if u < |t| { assert t'[u - u + u'] == t[u]; }
      var more := if steps[0].Keep? then 1 else |mark|;
      if steps[0].Hide? { StandsElsewhere(t, u, t', u', mark); }
      HidesElsewhere(steps[1..], s, if steps[0].Keep? then x + 1 else x + steps[0].length, t, u + more, t', u' + more,
        mark, needles);
    }
  }

  lemma StandsElsewhere(t: string, u: nat, t': string, u': nat, mark: string)
    requires StandsAt(t, u, mark) && SameFrom(t, u, t', u')
    ensures StandsAt(t', u', mark)
  {
    forall p | u' <= p < u' + |mark| ensures t'[p] == mark[p - u'] {
      assert t'[(p - u' + u) - u + u'] == t[p - u' + u];
    }
  }

  lemma MarkIsNoStop(t: string, u: nat, mark: string)
    requires IsMark(mark) && StandsAt(t, u, mark)
    ensures u < |t| && !IsStop(t[u])
  {
    assert t[u] == mark[0];
  }

  /** What was copied or hidden up to `end` holds no stop character and ends at one. */
  lemma {:induction false} SkipValue(steps: seq<Step>, s: string, x: nat, t: string, u: nat, end: nat,
                                     mark: string, needles: seq<string>)
    returns (rest: seq<Step>, y: nat)
    requires IsMark(mark) && Hides(steps, s, x, t, u, mark, needles)
    requires u <= end <= |t| && ValueEnds(t, u, end)
    ensures Hides(rest, s, y, t, end, mark, needles) && x <= y <= |s| && ValueEnds(s, x, y)
    decreases |steps|
  {
    if u == end {
      rest, y := steps, x;
      if steps != [] && steps[0].Hide? { MarkIsNoStop(t, u, mark); }
    } else {
      if steps[0].Hide? { MarkBeforeStop(t, u, end, mark); }
      var more := if steps[0].Keep? then 1 else |mark|;
      var next := if steps[0].Keep? then x + 1 else x + steps[0].length;
      rest, y := SkipValue(steps[1..], s, next, t, u + more, end, mark, needles);
    }
  }

  lemma MarkBeforeStop(t: string, u: nat, end: nat, mark: string)
    requires IsMark(mark) && StandsAt(t, u, mark) && u < end <= |t| && ValueEnds(t, u, end)
    ensures u + |mark| <= end
  {
    assert forall p :: u <= p < u + |mark| ==> t[p] == mark[p - u] && !IsStop(t[p]);
  }

  /** What stands in `t` from `i` up to `u` also stands in `s`, up to `x`. */
  predicate SameBefore(s: string, x: nat, t: string, u: nat, i: nat) {
    u <= |t| && x <= |s| && (i <= u ==> u - i <= x && forall p :: i <= p < u ==> s[p - u + x] == t[p])
  }

  lemma MatchIsOriginal(s: string, x: nat, t: string, start: nat, i: nat, needles: seq<string>, k: nat)
    requires k < |needles| && MatchThenSpace(t, i, needles[k], start) && SameBefore(s, x, t, start, i)
    ensures Behind(s, x, needles)
  {
    var j := i + x - start;
    forall p | j <= p < x ensures s[p] == t[p + start - x] {
      assert s[(p + start - x) - start + x] == t[p + start - x];
    }
    assert MatchThenSpace(s, j, needles[k], x);
  }

  /** No mark overlaps a match and the white space behind it. */
  lemma MarkAvoidsMatch(t: string, u: nat, mark: string, i: nat, n: string, start: nat)
    requires IsMark(mark) && StandsAt(t, u, mark) && GoodNeedle(n) && MatchThenSpace(t, i, n, start) && u < start
    ensures u + |mark| <= i
  {
    MatchLetters(t, i, n);
    var last := u + (|mark| - 1);
    assert t[last] == mark[|mark| - 1];
    assert forall p :: u <= p < u + |mark| ==> !IsSpace(t[p]) && Lower(t[p]) !in {'=', ':'};
    assert start == i + |n| || IsSpace(t[start - 1]);
  }

  /** Where no white space follows in the text so far, none does in the original. */
  lemma NoSpaceIsOriginal(steps: seq<Step>, s: string, x: nat, t: string, u: nat, mark: string, needles: seq<string>)
    requires mark != [] && Hides(steps, s, x, t, u, mark, needles) && NoSpaceAt(t, u)
    ensures NoSpaceAt(s, x)
  {
  }

  lemma HideHere(steps: seq<Step>, s: string, x: nat, t: string, t': string, i: nat, start: nat, end: nat,
                 mark: string, needles: seq<string>, k: nat)
    returns (more: seq<Step>)
    requires IsMark(mark) && k < |needles| && Replaced(t, t', i, needles[k], start, end, mark)
    requires Hides(steps, s, x, t, start, mark, needles) && SameBefore(s, x, t, start, i)
    ensures Hides(more, s, x, t', start, mark, needles)
  {
    MatchIsOriginal(s, x, t, start, i, needles, k);
    NoSpaceIsOriginal(steps, s, x, t, start, mark, needles);
    var rest, y := SkipValue(steps, s, x, t, start, end, mark, needles);
    HidesElsewhere(rest, s, y, t, end, t', start + |mark|, mark, needles);
    more := [Hide(y - x)] + rest;
  }

  /** A value of the text so far can be hidden as well. */
  lemma {:induction false} HideOneMore(steps: seq<Step>, s: string, x: nat, t: string, u: nat, t': string, i: nat,
                                       start: nat, end: nat, mark: string, needles: seq<string>, k: nat)
    returns (more: seq<Step>)
    requires IsMark(mark) && k < |needles| && GoodNeedle(needles[k])
    requires Replaced(t, t', i, needles[k], start, end, mark)
    requires Hides(steps, s, x, t, u, mark, needles) && u <= start && SameBefore(s, x, t, u, i)
    ensures Hides(more, s, x, t', u, mark, needles)
    decreases |steps|
  {
    if u == start {
      more := HideHere(steps, s, x, t, t', i, start, end, mark, needles, k);
    } else if steps[0].Keep? {
      more := HideOneMore(steps[1..], s, x + 1, t, u + 1, t', i, start, end, mark, needles, k);
      more := [Keep] + more;
    } else {
      MarkAvoidsMatch(t, u, mark, i, needles[k], start);
      var n := steps[0].length;
      more := HideOneMore(steps[1..], s, x + n, t, u + |mark|, t', i, start, end, mark, needles, k);
      more := [Hide(n)] + more;
    }
  }

  // ---------------------------------------------------------------- all passes

  lemma TheMark()
    ensures IsMark(MARK)
  {
    MarkLetters();
    assert MARK[9] == ']';
  }

  lemma ReplacesValue(s: string, n: string, idx: nat, mark: string)
    requires MatchAt(s, idx, n) && mark == MARK
    ensures var start := SkipSpace(s, idx + |n|);
      Replaced(s, Replacement(s, idx, n).text, idx, n, start, StopFrom(s, start), mark)
  {
  }

  lemma {:induction false} PassHides(steps: seq<Step>, s: string, mark: string, t: string, needles: seq<string>, k: nat,
                                     from: nat)
    returns (more: seq<Step>)
    requires mark == MARK && IsMark(mark) && k < |needles| && GoodNeedle(needles[k]) && from <= |t|
    requires Hides(steps, s, 0, t, 0, mark, needles)
    ensures Hides(more, s, 0, Pass(t, needles[k], from), 0, mark, needles)
    decreases |t| - from
  {
    var n := needles[k];
    var c := Turn(t, n, from);
    if c.None? {
      PassDone(t, n, from);
      more := steps;
    } else {
      var idx := Find(t, from, n).value;
      var start := SkipSpace(t, idx + |n|);
      ReplacesValue(t, n, idx, mark);
      PassStep(t, n, from, c.value);
      more := HideOneMore(steps, s, 0, t, 0, c.value.text, idx, start, StopFrom(t, start), mark, needles, k);
      more := PassHides(more, s, mark, c.value.text, needles, k, c.value.from);
    }
  }

  lemma {:induction false} PassesHide(steps: seq<Step>, s: string, mark: string, t: string, needles: seq<string>,
                                      k: nat)
    returns (more: seq<Step>)
    requires mark == MARK && IsMark(mark) && GoodNeedles(needles) && k <= |needles|
    requires Hides(steps, s, 0, t, 0, mark, needles)
    ensures Hides(more, s, 0, PassAll(t, needles[k..]), 0, mark, needles)
    decreases |needles| - k
  {
    more := steps;
    if k < |needles| {
      more := PassHides(steps, s, mark, t, needles, k, 0);
      more := PassesHide(more, s, mark, Pass(t, needles[k], 0), needles, k + 1);
      assert needles[k..][0] == needles[k] && needles[k..][1..] == needles[k + 1..];
    }
  }

  lemma {:induction false} CopyHides(s: string, x: nat, mark: string, needles: seq<string>) returns (steps: seq<Step>)
    requires x <= |s|
    ensures Hides(steps, s, x, s, x, mark, needles)
    decreases |s| - x
  {
    steps := [];
    if x < |s| {
      steps := CopyHides(s, x + 1, mark, needles);
      steps := [Keep] + steps;
    }
  }

  lemma PassAllOnlyHides(s: string, mark: string, needles: seq<string>)
    requires mark == MARK && IsMark(mark) && GoodNeedles(needles)
    ensures OnlyHides(s, PassAll(s, needles), mark, needles)
  {
    assert needles[0..] == needles;
    var steps := CopyHides(s, 0, mark, needles);
    steps := PassesHide(steps, s, mark, s, needles, 0);
  }

  /** Redaction hides values and changes nothing else: the result is the text with some spans
      replaced by the mark, each of which begins right behind a match and all white space there, holds
      no stop character, and lasts until the next one or the end. */
  lemma OnlyValuesAreHidden(s: string)
    ensures OnlyHides(s, Redacted(s), MARK, Needles(REDACT_KEYS))
  {
    KeysAreGood();
    TheMark();
    PassAllOnlyHides(s, MARK, Needles(REDACT_KEYS));
  }
}
