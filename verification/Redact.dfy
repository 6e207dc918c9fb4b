/** Redaction of secrets in error text (`redact_text`, `redact_all` in `map.rs`). */
module Redact {
  import opened Options

  const MARK: string := "[REDACTED]"

  // ---------------------------------------------------------------- scanning

  function Lower(c: char): char {
    if 'A' <= c <= 'Z' then (c as int + 32) as char else c
  }

  predicate IsSpace(c: char) {
    c == ' ' || c == '\t' || c == '\n' || c == '\r' || c == '\U{000C}'
  }

  predicate IsStop(c: char) {
    c == '&' || c == '"' || c == '\'' || c == ',' || c == '\n' || c == '\r' || c == '}'
  }

  /** `needle` stands at `i`, whatever the case of the letters. */
  predicate MatchAt(s: string, i: nat, needle: string) {
    i + |needle| <= |s| && forall p :: i <= p < i + |needle| ==> Lower(s[p]) == needle[p - i]
  }

  /** The first match at or after `from`. */
  function Find(s: string, from: nat, needle: string): (r: Option<nat>)
    ensures r.Some? ==> from <= r.value && MatchAt(s, r.value, needle)
    decreases |s| - from
  {
    if MatchAt(s, from, needle) then Some(from)
    else if from >= |s| then None
    else Find(s, from + 1, needle)
  }

  /** There is no match before the one that is found. */
  lemma {:induction false} NoneBefore(s: string, from: nat, needle: string, i: nat)
    requires needle != [] && from <= i && (Find(s, from, needle).Some? ==> i < Find(s, from, needle).value)
    ensures !MatchAt(s, i, needle)
    decreases |s| - from
  {
    if from < i && from < |s| { NoneBefore(s, from + 1, needle, i); }
  }

  lemma FirstMatch(s: string, from: nat, needle: string)
    requires needle != []
    ensures var idx := Find(s, from, needle);
      forall i: nat :: from <= i && (idx.Some? ==> i < idx.value) ==> !MatchAt(s, i, needle)
  {
    var idx := Find(s, from, needle);
    forall i: nat | from <= i && (idx.Some? ==> i < idx.value) ensures !MatchAt(s, i, needle) {
      NoneBefore(s, from, needle, i);
    }
  }

  predicate Spaces(s: string, i: nat, j: nat) {
    j <= |s| && forall p :: i <= p < j ==> IsSpace(s[p])
  }

  predicate NoStops(s: string, i: nat, j: nat) {
    j <= |s| && forall p :: i <= p < j ==> !IsStop(s[p])
  }

  function SkipSpace(s: string, i: nat): (r: nat)
    requires i <= |s|
    ensures i <= r <= |s|
    ensures Spaces(s, i, r) && (r < |s| ==> !IsSpace(s[r]))
    decreases |s| - i
  {
    if i < |s| && IsSpace(s[i]) then SkipSpace(s, i + 1) else i
  }

  function StopFrom(s: string, i: nat): (r: nat)
    requires i <= |s|
    ensures i <= r <= |s|
    ensures NoStops(s, i, r) && (r < |s| ==> IsStop(s[r]))
    decreases |s| - i
  {
    if i < |s| && !IsStop(s[i]) then StopFrom(s, i + 1) else i
  }

  // ---------------------------------------------------------------- one needle

  /** Lower-case letters, `_` and `-`, and then `=` or `:`. */
  predicate GoodNeedle(needle: string) {
    && needle != [] && needle[|needle| - 1] in {'=', ':'}
    && forall k :: 0 <= k < |needle| - 1 ==> KeyChar(needle[k])
  }

  predicate KeyChar(c: char) {
    'a' <= c <= 'z' || c == '_' || c == '-'
  }

  /** Where the loop stands: the text so far, and the position to search on from. */
  datatype Cursor = Cursor(text: string, from: nat)

  /** The text after replacing the value that follows a match at `idx`, and the position behind
      the mark. */
  function Replacement(s: string, idx: nat, needle: string): (c: Cursor)
    requires MatchAt(s, idx, needle)
    ensures c.from <= |c.text| && |c.text| - c.from <= |s| - (idx + |needle|)
  {
    var start := SkipSpace(s, idx + |needle|);
    Cursor(s[..start] + MARK + s[StopFrom(s, start)..], start + |MARK|)
  }

  /** One turn of the loop, or nothing when there is no further match. */
  function Turn(s: string, needle: string, from: nat): (c: Option<Cursor>)
    requires needle != [] && from <= |s|
    ensures c.Some? ==> c.value.from <= |c.value.text| && |c.value.text| - c.value.from < |s| - from
  {
    var idx := Find(s, from, needle);
    if idx.None? then None else Some(Replacement(s, idx.value, needle))
  }

  /** `redact_all` from position `from` on. */
  function Pass(s: string, needle: string, from: nat): string
    requires needle != [] && from <= |s|
    decreases |s| - from
  {
    var c := Turn(s, needle, from);
    if c.None? then s else Pass(c.value.text, needle, c.value.from)
  }

  lemma PassStep(s: string, needle: string, from: nat, c: Cursor)
    requires needle != [] && from <= |s| && Turn(s, needle, from) == Some(c)
    ensures Pass(s, needle, from) == Pass(c.text, needle, c.from)
  {
  }

  lemma SkipSpaceIs(s: string, i: nat, r: nat)
    requires i <= r <= |s| && Spaces(s, i, r) && (r < |s| ==> !IsSpace(s[r]))
    ensures SkipSpace(s, i) == r
  {
  }

  /** The body of the loop: skip white space, find the end of the value, put in the mark. */
  method ReplaceNext(text: string, idx: nat, needle: string) returns (out: string, from: nat)
    requires MatchAt(text, idx, needle)
    ensures Cursor(out, from) == Replacement(text, idx, needle)
  {
    var start := idx + |needle|;
    while start < |text| && IsSpace(text[start])
      invariant idx + |needle| <= start <= |text|
      invariant Spaces(text, idx + |needle|, start)
    {
      start := start + 1;
    }
    SkipSpaceIs(text, idx + |needle|, start);
    var end := StopFrom(text, start);
    out := text[..start] + MARK + text[end..];
    from := start + |MARK|;
  }

  /** One turn: `Turn` by the two steps of the loop. */
  method TakeTurn(text: string, from: nat, needle: string) returns (c: Option<Cursor>)
    requires needle != [] && from <= |text|
    ensures c == Turn(text, needle, from)
  {
    var idx := Find(text, from, needle);
    if idx.None? { return None; }
    var out, next := ReplaceNext(text, idx.value, needle);
    c := Some(Cursor(out, next));
  }

  method RedactAll(input: string, needle: string) returns (out: string)
    requires needle != []
    ensures out == Pass(input, needle, 0)
  {
    out := input;
    var from: nat := 0;
    while true
      invariant from <= |out|
      invariant Pass(out, needle, from) == Pass(input, needle, 0)
      decreases |out| - from
    {
      var c := TakeTurn(out, from, needle);
      if c.None? {
        PassDone(out, needle, from);
        return;
      }
      PassStep(out, needle, from, c.value);
      out, from := c.value.text, c.value.from;
    }
  }

  lemma PassDone(s: string, needle: string, from: nat)
    requires needle != [] && from <= |s| && Turn(s, needle, from).None?
    ensures Pass(s, needle, from) == s
  {
  }

  // ---------------------------------------------------------------- what a pass achieves

  /** The mark stands at `q`, and the value it stands for is over: the text ends there, or a stop
      character follows. */
  predicate MarkedAt(s: string, q: nat) {
    && q + |MARK| <= |s| && (forall p :: q <= p < q + |MARK| ==> s[p] == MARK[p - q])
    && (q + |MARK| < |s| ==> IsStop(s[q + |MARK|]))
  }

  predicate GuardAt(s: string, e: nat, q: nat) {
    e <= q && Spaces(s, e, q) && MarkedAt(s, q)
  }

  /** Behind the match at `i` there is, after white space only, the mark. */
  ghost predicate Guarded(s: string, i: nat, needle: string) {
    GuardedFrom(s, i + |needle|)
  }

  ghost predicate GuardedFrom(s: string, e: nat) {
    exists q: nat :: GuardAt(s, e, q)
  }

  /** Every match before `upTo` is guarded. */
  ghost predicate CleanTo(s: string, needle: string, upTo: nat) {
    forall i: nat :: i < upTo && MatchAt(s, i, needle) ==> Guarded(s, i, needle)
  }

  ghost predicate Clean(s: string, needle: string) {
    CleanTo(s, needle, |s|)
  }

  lemma MarkLetters()
    ensures |MARK| == 10 && MARK[0] == '[' && MARK[9] == ']'
    ensures forall k :: 0 <= k < 10 ==> !IsSpace(MARK[k]) && !IsStop(MARK[k]) && Lower(MARK[k]) !in {'=', ':'}
  {
  }

  /** The letters under a match: the separator at the end, key characters before it. */
  lemma MatchLetters(s: string, i: nat, m: string)
    requires GoodNeedle(m) && MatchAt(s, i, m)
    ensures Lower(s[i + |m| - 1]) in {'=', ':'} && !IsSpace(s[i + |m| - 1])
    ensures forall p :: i <= p < i + |m| - 1 ==> KeyChar(Lower(s[p]))
  {
    assert Lower(s[i + |m| - 1]) == m[|m| - 1];
  }

  /** One value replaced: `s` becomes `s'`. */
  ghost predicate Replaces(s: string, s': string, idx: nat, n: string, start: nat, end: nat) {
    && MatchAt(s, idx, n) && idx + |n| <= start <= end <= |s| && Spaces(s, idx + |n|, start)
    && (end < |s| ==> IsStop(s[end]))
    && s' == s[..start] + MARK + s[end..]
  }

  lemma Chars(s: string, s': string, idx: nat, n: string, start: nat, end: nat)
    requires Replaces(s, s', idx, n, start, end)
    ensures |s'| == start + 10 + (|s| - end)
    ensures forall p :: 0 <= p < start ==> s'[p] == s[p]
    ensures forall p :: start + 10 <= p < |s'| ==> s'[p] == s[p - (start + 10) + end]
    ensures MarkedAt(s', start)
  {
    MarkLetters();
  }

  /** No match overlaps the mark. */
  lemma MatchesAvoidMark(s: string, q: nat, m: string, i: nat)
    requires MarkedAt(s, q) && GoodNeedle(m) && MatchAt(s, i, m)
    ensures i + |m| <= q || q + 10 <= i
  {
    MatchLetters(s, i, m);
    MarkLetters();
    assert s[q] == MARK[0] && s[q + 9] == MARK[9];
  }

  /** Only white space and a mark stand between `e` and a needle that ends after `e`. */
  lemma NeedleBehindGuard(s: string, idx: nat, n: string, e: nat, q: nat)
    requires GoodNeedle(n) && MatchAt(s, idx, n) && e < idx + |n| && GuardAt(s, e, q)
    ensures q + 10 <= idx
  {
    MatchesAvoidMark(s, q, n, idx);
    MatchLetters(s, idx, n);
  }

  /** A match of `m` that ends before the replaced needle does, and is guarded, keeps its guard:
      the needle stands wholly behind that guard. */
  lemma GuardBefore(s: string, s': string, idx: nat, n: string, start: nat, end: nat, m: string, i: nat)
    requires Replaces(s, s', idx, n, start, end) && GoodNeedle(n)
    requires Guarded(s, i, m) && i + |m| < idx + |n|
    ensures Guarded(s', i, m)
  {
    var q: nat :| GuardAt(s, i + |m|, q);
    NeedleBehindGuard(s, idx, n, i + |m|, q);
    Chars(s, s', idx, n, start, end);
    MarkLetters();
    assert GuardAt(s', i + |m|, q);
  }

  /** A match of `m` in the new text was one in the old text. */
  lemma MatchComesFrom(s: string, s': string, idx: nat, n: string, start: nat, end: nat, m: string, i: nat)
    requires Replaces(s, s', idx, n, start, end) && GoodNeedle(m) && MatchAt(s', i, m)
    ensures (i + |m| <= idx + |n| && MatchAt(s, i, m))
         || (start + 10 <= i && MatchAt(s, i - (start + 10) + end, m))
  {
    Chars(s, s', idx, n, start, end);
    MatchesAvoidMark(s', start, m, i);
    MatchLetters(s', i, m);
    if i + |m| <= start {
      assert s'[i + |m| - 1] == s[i + |m| - 1];
    } else {
      var j := i - (start + 10) + end;
      forall p | j <= p < j + |m| ensures Lower(s[p]) == m[p - j] {
        var p' := p - end + (start + 10);
        assert s'[p'] == s[p] && Lower(s'[p']) == m[p' - i];
      }
    }
  }

  lemma GuardBehind(s: string, s': string, idx: nat, n: string, start: nat, end: nat, m: string, j: nat)
    requires Replaces(s, s', idx, n, start, end) && end <= j && Guarded(s, j, m)
    ensures Guarded(s', j - end + (start + 10), m)
  {
    var q: nat :| GuardAt(s, j + |m|, q);
    Chars(s, s', idx, n, start, end);
    MarkLetters();
    assert GuardAt(s', j - end + (start + 10) + |m|, q - end + (start + 10));
  }

  /** What becomes of a match of `m` in the new text, if its original was guarded. */
  lemma MatchStaysGuarded(s: string, s': string, idx: nat, n: string, start: nat, end: nat, m: string, i: nat,
                          upTo: nat)
    requires Replaces(s, s', idx, n, start, end) && GoodNeedle(n) && GoodNeedle(m) && MatchAt(s', i, m)
    requires CleanTo(s, m, upTo)
    requires i < upTo || i + |m| == idx + |n| || upTo >= |s|
    requires i < start + 10 || upTo >= |s|
    ensures Guarded(s', i, m)
  {
    MatchComesFrom(s, s', idx, n, start, end, m, i);
    if i + |m| <= idx + |n| {
      if i + |m| == idx + |n| {
        Chars(s, s', idx, n, start, end);
        assert GuardAt(s', i + |m|, start);
      } else {
        GuardBefore(s, s', idx, n, start, end, m, i);
      }
    } else {
      GuardBehind(s, s', idx, n, start, end, m, i - (start + 10) + end);
    }
  }

  lemma ReplacementIs(s: string, idx: nat, n: string)
    requires MatchAt(s, idx, n)
    ensures var start := SkipSpace(s, idx + |n|);
      Replaces(s, Replacement(s, idx, n).text, idx, n, start, StopFrom(s, start))
    ensures Replacement(s, idx, n).from == SkipSpace(s, idx + |n|) + 10
  {
    MarkLetters();
  }

  /** A replacement undoes no earlier work for any needle. */
  lemma ReplacementKeeps(s: string, s': string, idx: nat, n: string, start: nat, end: nat, m: string)
    requires Replaces(s, s', idx, n, start, end) && GoodNeedle(n) && GoodNeedle(m) && Clean(s, m)
    ensures Clean(s', m)
  {
    forall i: nat | i < |s'| && MatchAt(s', i, m) ensures Guarded(s', i, m) {
      MatchStaysGuarded(s, s', idx, n, start, end, m, i, |s|);
    }
  }

  /** A replacement makes progress on its own needle. */
  lemma ReplacementCleans(s: string, s': string, idx: nat, n: string, start: nat, end: nat, from: nat)
    requires Replaces(s, s', idx, n, start, end) && GoodNeedle(n) && CleanTo(s, n, from)
    requires forall i: nat :: from <= i < idx ==> !MatchAt(s, i, n)
    ensures CleanTo(s', n, start + 10)
  {
    forall i: nat | i < start + 10 && MatchAt(s', i, n) ensures Guarded(s', i, n) {
      MatchComesFrom(s, s', idx, n, start, end, n, i);
      MatchStaysGuarded(s, s', idx, n, start, end, n, i, from);
    }
  }

  lemma TurnCleans(s: string, n: string, from: nat)
    requires GoodNeedle(n) && from <= |s| && CleanTo(s, n, from)
    ensures var c := Turn(s, n, from);
      if c.None? then Clean(s, n) else CleanTo(c.value.text, n, c.value.from)
  {
    var idx := Find(s, from, n);
    FirstMatch(s, from, n);
    if idx.Some? {
      var start := SkipSpace(s, idx.value + |n|);
      ReplacementIs(s, idx.value, n);
      ReplacementCleans(s, Replacement(s, idx.value, n).text, idx.value, n, start, StopFrom(s, start), from);
    }
  }

  lemma TurnKeepsClean(s: string, n: string, m: string, from: nat)
    requires GoodNeedle(n) && GoodNeedle(m) && from <= |s| && Clean(s, m)
    ensures var c := Turn(s, n, from); c.Some? ==> Clean(c.value.text, m)
  {
    var idx := Find(s, from, n);
    if idx.Some? {
      var start := SkipSpace(s, idx.value + |n|);
      ReplacementIs(s, idx.value, n);
      ReplacementKeeps(s, Replacement(s, idx.value, n).text, idx.value, n, start, StopFrom(s, start), m);
    }
  }

  /** A whole pass cleans the text of its needle. */
  lemma {:induction false} PassCleans(s: string, n: string, from: nat)
    requires GoodNeedle(n) && from <= |s| && CleanTo(s, n, from)
    ensures Clean(Pass(s, n, from), n)
    decreases |s| - from
  {
    var c := Turn(s, n, from);
    TurnCleans(s, n, from);
    if c.None? {
      PassDone(s, n, from);
    } else {
      PassStep(s, n, from, c.value);
      PassCleans(c.value.text, n, c.value.from);
    }
  }

  /** And it leaves the text as clean as it was of any other needle. */
  lemma {:induction false} PassKeepsClean(s: string, n: string, m: string, from: nat)
    requires GoodNeedle(n) && GoodNeedle(m) && from <= |s| && Clean(s, m)
    ensures Clean(Pass(s, n, from), m)
    decreases |s| - from
  {
    var c := Turn(s, n, from);
    TurnKeepsClean(s, n, m, from);
    if c.None? {
      PassDone(s, n, from);
    } else {
      PassStep(s, n, from, c.value);
      PassKeepsClean(c.value.text, n, m, c.value.from);
    }
  }

  /** The value behind a guarded match is the mark already. */
  lemma GuardedValue(s: string, idx: nat, n: string)
    requires MatchAt(s, idx, n) && Guarded(s, idx, n)
    ensures var start := SkipSpace(s, idx + |n|);
      start + 10 <= |s| && StopFrom(s, start) == start + 10 && s[start..start + 10] == MARK
  {
    var q: nat :| GuardAt(s, idx + |n|, q);
    MarkLetters();
    assert s[q] == MARK[0];
    var start := SkipSpace(s, idx + |n|);
    assert start == q;
    var end := StopFrom(s, start);
    assert forall p :: q <= p < q + 10 ==> !IsStop(s[p]);
    assert end == q + 10;
  }

  /** Over a guarded match the loop moves on without a change. */
  lemma TurnOnClean(s: string, n: string, from: nat)
    requires n != [] && from <= |s| && Clean(s, n)
    ensures var c := Turn(s, n, from); c.Some? ==> c.value.text == s
  {
    var idx := Find(s, from, n);
    if idx.Some? {
      assert Guarded(s, idx.value, n);
      GuardedValue(s, idx.value, n);
      var start := SkipSpace(s, idx.value + |n|);
      assert s == s[..start] + s[start..start + 10] + s[start + 10..];
    }
  }

  /** On a clean text a pass changes nothing. */
  lemma {:induction false} PassOnClean(s: string, n: string, from: nat)
    requires n != [] && from <= |s| && Clean(s, n)
    ensures Pass(s, n, from) == s
    decreases |s| - from
  {
    var c := Turn(s, n, from);
    TurnOnClean(s, n, from);
    if c.None? {
      PassDone(s, n, from);
    } else {
      PassStep(s, n, from, c.value);
      PassOnClean(s, n, c.value.from);
    }
  }
}
