/** Making tool names unique: one member of every group of equal names keeps the name, the
    others get a number. */
module Uniquify {
  import opened FreshNames
  import opened Names
  import opened Ordering
  import opened Text

  datatype Key = Key(first: string, second: string, third: string)

  predicate KeyBefore(a: Key, b: Key) {
    || StrBefore(a.first, b.first)
    || (a.first == b.first && StrBefore(a.second, b.second))
    || (a.first == b.first && a.second == b.second && StrBefore(a.third, b.third))
  }

  /** `a` and `b` agree on their first `n` characters, and there `a` ends or has the smaller character. */
  predicate DiffersAt(a: string, b: string, n: nat) {
    n <= |a| && n < |b| && a[..n] == b[..n] && (n < |a| ==> a[n] < b[n])
  }

  /** The order of strings: the first difference decides, and a prefix comes first. */
  lemma {:induction false} StrBeforeIff(a: string, b: string)
    ensures StrBefore(a, b) <==> exists n: nat :: DiffersAt(a, b, n)
  {
    if a == [] || b == [] || a[0] != b[0] {
      if StrBefore(a, b) { assert DiffersAt(a, b, 0); }
      if n: nat :| DiffersAt(a, b, n) {
        if n > 0 { assert a[..n][0] == b[..n][0]; }
      }
    } else {
      StrBeforeIff(a[1..], b[1..]);
      if n: nat :| DiffersAt(a[1..], b[1..], n) {
        assert a[..n + 1] == [a[0]] + a[1..][..n] && b[..n + 1] == [b[0]] + b[1..][..n];
        assert DiffersAt(a, b, n + 1);
      }
      if n: nat :| DiffersAt(a, b, n) {
        assert a[1..][..n - 1] == a[..n][1..] && b[1..][..n - 1] == b[..n][1..];
        assert DiffersAt(a[1..], b[1..], n - 1);
      }
    }
  }

  /** A tool comes first by its method, then by its path, then by its operation id. */
  lemma KeyBeforeIff(a: Key, b: Key)
    ensures KeyBefore(a, b) <==> exists part: nat, n: nat :: DiffersIn(a, b, part, n)
  {
    StrBeforeIff(a.first, b.first);
    StrBeforeIff(a.second, b.second);
    StrBeforeIff(a.third, b.third);
    var p, q := Parts(a), Parts(b);
    forall part: nat, n: nat | part < 3 && p[..part] == q[..part] && DiffersAt(p[part], q[part], n)
      ensures KeyBefore(a, b)
    {
      if part > 0 { assert p[..part][0] == q[..part][0]; }
      if part > 1 { assert p[..part][1] == q[..part][1]; }
    }
    if n: nat :| DiffersAt(a.first, b.first, n) { assert DiffersIn(a, b, 0, n); }
    if n: nat :| a.first == b.first && DiffersAt(a.second, b.second, n) { assert DiffersIn(a, b, 1, n); }
    if n: nat :| a.first == b.first && a.second == b.second && DiffersAt(a.third, b.third, n) {
      assert DiffersIn(a, b, 2, n);
    }
  }

  function Parts(k: Key): seq<string> { [k.first, k.second, k.third] }

  predicate DiffersIn(a: Key, b: Key, part: nat, n: nat) {
    part < 3 && Parts(a)[..part] == Parts(b)[..part] && DiffersAt(Parts(a)[part], Parts(b)[part], n)
  }

  /** A stable sort by key of an increasing list of indices lists them by key, then index. */
  function ByKey(keys: seq<Key>): (nat, nat) -> bool {
    (i: nat, j: nat) =>
      i < |keys| && j < |keys| && (KeyBefore(keys[i], keys[j]) || (keys[i] == keys[j] && i < j))
  }

  lemma KeyIrreflexive(a: Key)
    ensures !KeyBefore(a, a)
  {
    StrIrreflexive(a.first); StrIrreflexive(a.second); StrIrreflexive(a.third);
  }

  lemma KeyTotal(a: Key, b: Key)
    ensures a == b || KeyBefore(a, b) || KeyBefore(b, a)
  {
    if a.first != b.first { StrTotal(a.first, b.first); }
    else if a.second != b.second { StrTotal(a.second, b.second); }
    else if a.third != b.third { StrTotal(a.third, b.third); }
  }

  lemma KeyTransitive(a: Key, b: Key, c: Key)
    requires KeyBefore(a, b) && KeyBefore(b, c)
    ensures KeyBefore(a, c)
  {
    if StrBefore(a.first, b.first) && StrBefore(b.first, c.first) { StrTransitive(a.first, b.first, c.first); }
    if StrBefore(a.second, b.second) && StrBefore(b.second, c.second) { StrTransitive(a.second, b.second, c.second); }
    if StrBefore(a.third, b.third) && StrBefore(b.third, c.third) { StrTransitive(a.third, b.third, c.third); }
  }

  lemma ByKeyIsOrder(keys: seq<Key>, s: set<nat>)
    requires forall i :: i in s ==> i < |keys|
    ensures IsOrder(ByKey(keys), s)
  {
    var before := ByKey(keys);
    forall x | x in s ensures !before(x, x) { KeyIrreflexive(keys[x]); }
    forall x, y | x in s && y in s && x != y ensures before(x, y) || before(y, x) { KeyTotal(keys[x], keys[y]); }
    forall x, y, z | x in s && y in s && z in s && before(x, y) && before(y, z) ensures before(x, z) {
      if KeyBefore(keys[x], keys[y]) && KeyBefore(keys[y], keys[z]) { KeyTransitive(keys[x], keys[y], keys[z]); }
    }
  }

  // ---------------------------------------------------------------- what is assigned

  function NamesOf(c: seq<string>): set<string> { set x | x in c }

  function Members(c: seq<string>, name: string): set<nat> {
    set i: nat | i < |c| && c[i] == name
  }

  /** The members of a group, the one that keeps the name first. */
  function Group(c: seq<string>, keys: seq<Key>, name: string): (xs: seq<nat>)
    requires |keys| == |c|
    ensures Lists(xs, Members(c, name), ByKey(keys)) && |xs| == |Members(c, name)|
    ensures forall n :: 0 <= n < |xs| ==> xs[n] < |c| && c[xs[n]] == name
  {
    ByKeyIsOrder(keys, Members(c, name));
    InOrder(Members(c, name), ByKey(keys))
  }

  function NamesInOrder(c: seq<string>): (names: seq<string>)
    ensures Lists(names, NamesOf(c), StrBefore)
  {
    StringsAreOrdered(NamesOf(c));
    InOrder(NamesOf(c), StrBefore)
  }

  /** The names given to the members 1, …, n of a group: each the first free number, from the
      position of the member on. */
  function Suffixes(name: string, n: nat, taken: set<string>): (r: seq<string>)
    ensures |r| == n
  {
    if n == 0 then []
    else
      var r := Suffixes(name, n - 1, taken);
      r + [Numbered(name, FirstFree(name, n + 1, taken + NamesOf(r)))]
  }

  function Renamed(c: seq<string>, name: string): nat {
    var size := |Members(c, name)|;
    if size == 0 then 0 else size - 1
  }

  /** What is taken once the groups in `names` are done. */
  function TakenAfter(c: seq<string>, names: seq<string>): set<string> {
    if names == [] then NamesOf(c)
    else
      var last := names[|names| - 1];
      var taken := TakenAfter(c, names[..|names| - 1]);
      taken + NamesOf(Suffixes(last, Renamed(c, last), taken))
  }

  /** The name of member `n` of group `g`. */
  function NameOf(c: seq<string>, names: seq<string>, g: nat, n: nat): string
    requires g < |names| && n < |Members(c, names[g])|
  {
    if n == 0 then names[g]
    else Suffixes(names[g], Renamed(c, names[g]), TakenAfter(c, names[..g]))[n - 1]
  }

  ghost predicate Settled(c: seq<string>, keys: seq<Key>, names: seq<string>, g: nat, result: seq<string>)
    requires |keys| == |c| == |result| && g < |names|
  {
    var group := Group(c, keys, names[g]);
    forall n :: 0 <= n < |group| ==> result[group[n]] == NameOf(c, names, g, n)
  }

  /** `result` gives every member of every group its name. */
  ghost predicate Assigned(c: seq<string>, keys: seq<Key>, result: seq<string>)
    requires |keys| == |c|
  {
    && |result| == |c|
    && forall g :: 0 <= g < |NamesInOrder(c)| ==> Settled(c, keys, NamesInOrder(c), g, result)
  }

  // ---------------------------------------------------------------- the source's loops

  /** `format!("{name}_{suffix}")`, cut to 128 characters. */
  function Suffixed(name: string, suffix: nat): string {
    var candidate := Numbered(name, suffix);
    if |candidate| > MAX_TOOL_NAME then Trimmed(candidate[..MAX_TOOL_NAME]) else candidate
  }

  /** No number up to `bound` makes the name too long. */
  predicate Fits(name: string, bound: nat) {
    |Numbered(name, bound)| <= MAX_TOOL_NAME
  }

  lemma FitsBelow(name: string, bound: nat, suffix: nat)
    requires Fits(name, bound) && suffix <= bound
    ensures Fits(name, suffix) && Suffixed(name, suffix) == Numbered(name, suffix)
  {
    DecimalMonotone(suffix, bound);
  }

  /** Names of at most 117 characters, so all that `candidate_name` makes, have room for any `u32`. */
  lemma ShortNamesFit(name: string, bound: nat)
    requires |name| <= 117 && bound < 0x1_0000_0000
    ensures Fits(name, bound)
  {
    ShortDecimal(bound);
  }

  /** The inner loop ends at the first free number. */
  method FreeName(name: string, start: nat, taken: set<string>, ghost bound: nat) returns (candidate: string)
    requires start + |taken| <= bound < 0x1_0000_0000 && Fits(name, bound)
    ensures candidate == Numbered(name, FirstFree(name, start, taken))
  {
    var suffix := start;
    ghost var last := FirstFree(name, start, taken);
    while true
      invariant start <= suffix <= last
      decreases last - suffix
    {
      FitsBelow(name, bound, suffix);
      candidate := Suffixed(name, suffix);
      if candidate !in taken {
        FirstFreeIsLeast(name, start, taken, suffix);
        return;
      }
      suffix := suffix + 1;
    }
  }

  // ---------------------------------------------------------------- names that are too long

  /** A numbered name is cut exactly when it has more than 128 characters. */
  lemma CutIffTooLong(name: string, suffix: nat)
    ensures Suffixed(name, suffix) == Numbered(name, suffix) <==> Fits(name, suffix)
  {
  }

  lemma TrimmedUnderscore(name: string)
    requires Slug(name) && name != []
    ensures Trimmed(name + "_") == name
  {
    var s := name + "_";
    assert s[0] == name[0] && Plain(name[0]) && !Sep(s[0]);
    assert TrimStart(s) == s;
    assert s[..|s| - 1] == name && Sep(s[|s| - 1]);
    assert Plain(name[|name| - 1]) && !Sep(name[|name| - 1]);
    assert TrimEnd(s) == TrimEnd(name) == name;
  }

  /** From 127 characters on the number is cut off: a slug of 127 gets its own name back, … */
  lemma SuffixIsCutOff(name: string, suffix: nat)
    requires Slug(name) && |name| >= MAX_TOOL_NAME - 1
    ensures Suffixed(name, suffix) == if |name| == MAX_TOOL_NAME - 1 then name else Trimmed(name[..MAX_TOOL_NAME])
  {
    var numbered := Numbered(name, suffix);
    if |name| == MAX_TOOL_NAME - 1 {
      assert numbered[..MAX_TOOL_NAME] == name + "_";
      TrimmedUnderscore(name);
    } else {
      assert numbered[..MAX_TOOL_NAME] == name[..MAX_TOOL_NAME];
    }
  }

  /** … so that trying numbers is of any use exactly for slugs of at most 126 characters. */
  lemma NumbersDifferIff(name: string)
    requires Slug(name)
    ensures (exists j: nat, k: nat :: Suffixed(name, j) != Suffixed(name, k)) <==> |name| <= MAX_TOOL_NAME - 2
  {
    if |name| <= MAX_TOOL_NAME - 2 {
      assert |Decimal(1)| == 1 && |Decimal(2)| == 1;
      CutIffTooLong(name, 1);
      CutIffTooLong(name, 2);
      if Numbered(name, 1) == Numbered(name, 2) { NumberedInjective(name, 1, 2); }
      assert Suffixed(name, 1) != Suffixed(name, 2);
    } else {
      forall j: nat, k: nat ensures Suffixed(name, j) == Suffixed(name, k) {
        SuffixIsCutOff(name, j);
        SuffixIsCutOff(name, k);
      }
    }
  }

  /** The search for a second tool called by a slug of 127 characters has no end: the one name it
      tries is the candidate itself, which is always taken. */
  lemma SearchNeverEnds(name: string, taken: set<string>, suffix: nat)
    requires Slug(name) && |name| == MAX_TOOL_NAME - 1 && name in taken
    ensures Suffixed(name, suffix) in taken
  {
    SuffixIsCutOff(name, suffix);
  }

  // ---------------------------------------------------------------- names that are nearly too long

  /** How many digits fit behind a name. */
  function Room(name: string): nat
    requires |name| <= MAX_TOOL_NAME - 2
  {
    MAX_TOOL_NAME - 1 - |name|
  }

  /** The number that the first `d` digits of `k` make. */
  function Leading(k: nat, d: nat): (m: nat)
    requires d >= 1
    ensures |Decimal(m)| <= d && (k > 0 ==> m > 0)
    ensures |Decimal(k)| >= d ==> |Decimal(m)| == d
  {
    if |Decimal(k)| <= d then k else Leading(k / 10, d)
  }

  lemma {:induction false} LeadingDigits(k: nat, d: nat)
    requires d >= 1 && |Decimal(k)| >= d
    ensures Decimal(Leading(k, d)) == Decimal(k)[..d]
  {
    if |Decimal(k)| > d {
      LeadingDigits(k / 10, d);
      assert Decimal(k)[..d] == Decimal(k / 10)[..d];
    } else {
      assert Decimal(k)[..d] == Decimal(k);
    }
  }

  lemma {:induction false} DigitsArePlain(k: nat)
    ensures forall i :: 0 <= i < |Decimal(k)| ==> !Sep(Decimal(k)[i])
  {
    if k >= 10 { DigitsArePlain(k / 10); }
  }

  lemma NumberedIsTrimmed(name: string, m: nat)
    requires Slug(name) && name != []
    ensures Trimmed(Numbered(name, m)) == Numbered(name, m)
  {
    var s := Numbered(name, m);
    DigitsArePlain(m);
    assert s[0] == name[0] && Plain(name[0]) && !Sep(s[0]);
    assert s[|s| - 1] == Decimal(m)[|Decimal(m)| - 1];
    assert TrimStart(s) == s && TrimEnd(s) == s;
  }

  lemma FrontOfSum(a: string, b: string, d: nat)
    requires d <= |b|
    ensures (a + b)[..|a| + d] == a + b[..d]
  {
  }

  /** A number with too many digits is tried as its first digits. */
  lemma SuffixedLeading(name: string, k: nat)
    requires Slug(name) && name != [] && |name| <= MAX_TOOL_NAME - 2
    ensures Suffixed(name, k) == Numbered(name, Leading(k, Room(name)))
  {
    if |Decimal(k)| > Room(name) {
      LeadingDigits(k, Room(name));
      CutNumber(name, k, Leading(k, Room(name)), Room(name));
    }
  }

  lemma CutNumber(name: string, k: nat, m: nat, d: nat)
    requires Slug(name) && name != [] && |name| + 1 + d == MAX_TOOL_NAME
    requires |Decimal(k)| > d && Decimal(m) == Decimal(k)[..d]
    ensures Suffixed(name, k) == Numbered(name, m)
  {
    FrontOfSum(name + "_", Decimal(k), d);
    NumberedIsTrimmed(name, m);
  }

  /** Whether the search from `start` on ever tries `m`. */
  predicate Tried(name: string, start: nat, m: nat)
    requires |name| <= MAX_TOOL_NAME - 2
  {
    |Decimal(m)| <= Room(name) && (start <= m || (m > 0 && |Decimal(m)| == Room(name)))
  }

  /** The first number from `start` on that begins with the digits of `m`. */
  function Grown(m: nat, start: nat): (k: nat)
    requires m > 0
    ensures start <= k && (m < start ==> k < 10 * start) && (start <= m ==> k == m)
    decreases start - m
  {
    if start <= m then m else Grown(10 * m, start)
  }

  lemma {:induction false} GrownLeading(m: nat, start: nat, d: nat)
    requires m > 0 && d >= 1 && |Decimal(m)| >= d
    ensures Leading(Grown(m, start), d) == Leading(m, d)
    decreases start - m
  {
    if m < start {
      assert Decimal(10 * m) == Decimal(m) + [DigitChar(0)];
      GrownLeading(10 * m, start, d);
    }
  }

  lemma {:induction false} ManyDigits(m: nat, d: nat)
    requires m >= Pow10(d)
    ensures |Decimal(m)| > d
  {
    if d > 0 {
      assert m / 10 >= Pow10(d - 1);
      ManyDigits(m / 10, d - 1);
    }
  }

  /** What the search tries are the numbers that fit and lie ahead, and all those that fill the room. */
  lemma TriedIff(name: string, start: nat, m: nat)
    requires Slug(name) && 118 <= |name| <= MAX_TOOL_NAME - 2 && 10 * start < 0x1_0000_0000
    ensures Tried(name, start, m) <==>
      exists k: nat :: start <= k < 0x1_0000_0000 && Suffixed(name, k) == Numbered(name, m)
  {
    var d := Room(name);
    if Tried(name, start, m) {
      var k := if start <= m then m else Grown(m, start);
      if start > m { GrownLeading(m, start, d); }
      if m >= 1_000_000_000 { PowerOfNine(); ManyDigits(m, 9); }
      SuffixedLeading(name, k);
      assert start <= k < 0x1_0000_0000 && Suffixed(name, k) == Numbered(name, m);
    }
    if k: nat :| start <= k < 0x1_0000_0000 && Suffixed(name, k) == Numbered(name, m) {
      SuffixedLeading(name, k);
      NumberedInjective(name, m, Leading(k, d));
    }
  }

  lemma PowerOfNine()
    ensures Pow10(9) == 1_000_000_000
  {
    assert Pow10(3) == 1_000 && Pow10(6) == 1_000_000;
  }

  /** For slugs of 118 to 126 characters: the suffix search ends, at some `u32`, if and only if a
      number that it tries is free. */
  lemma SearchEndsIff(name: string, start: nat, taken: set<string>)
    requires Slug(name) && 118 <= |name| <= MAX_TOOL_NAME - 2 && 10 * start < 0x1_0000_0000
    ensures (exists k: nat :: start <= k < 0x1_0000_0000 && Suffixed(name, k) !in taken)
       <==> (exists m: nat :: Tried(name, start, m) && Numbered(name, m) !in taken)
  {
    if k: nat :| start <= k < 0x1_0000_0000 && Suffixed(name, k) !in taken {
      SuffixedLeading(name, k);
      TriedIff(name, start, Leading(k, Room(name)));
    }
    if m: nat :| Tried(name, start, m) && Numbered(name, m) !in taken {
      TriedIff(name, start, m);
    }
  }

  /** It does when fewer names are taken than numbers fill the room: 9 for 126 characters, 90 for 125,
      and so on. */
  lemma RoomSuffices(name: string, start: nat, taken: set<string>)
    requires Slug(name) && 118 <= |name| <= MAX_TOOL_NAME - 2 && 10 * start < 0x1_0000_0000
    requires |taken| < 9 * Pow10(Room(name) - 1)
    ensures exists k: nat :: start <= k < 0x1_0000_0000 && Suffixed(name, k) !in taken
  {
    var d := Room(name);
    var low := Pow10(d - 1);
    var m := FirstFree(name, low, taken);
    assert low <= m < Pow10(d);
    ManyDigits(m, d - 1);
    DecimalLength(m, d);
    assert Tried(name, start, m);
    SearchEndsIff(name, start, taken);
  }

  lemma {:induction false} SuffixesPrefix(name: string, m: nat, n: nat, taken: set<string>)
    requires m <= n
    ensures Suffixes(name, n, taken)[..m] == Suffixes(name, m, taken)
  {
    if m < n { SuffixesPrefix(name, m, n - 1, taken); }
  }

  lemma NamesOfAppend(r: seq<string>, x: string)
    ensures NamesOf(r + [x]) == NamesOf(r) + {x}
  {
    assert (r + [x])[|r|] == x;
    forall y | y in NamesOf(r) ensures y in r + [x] {
      var i :| 0 <= i < |r| && r[i] == y;
      assert (r + [x])[i] == y;
    }
  }

  lemma {:induction false} AtMostLength(r: seq<string>)
    ensures |NamesOf(r)| <= |r|
  {
    if r != [] {
      var n := |r| - 1;
      AtMostLength(r[..n]);
      assert r == r[..n] + [r[n]];
      NamesOfAppend(r[..n], r[n]);
    }
  }

  ghost predicate Distinct(xs: seq<nat>) {
    forall i, j :: 0 <= i < j < |xs| ==> xs[i] != xs[j]
  }

  /** `result` once `names` have been written at the places of the members 1, 2, … */
  function Written(initial: seq<string>, ordered: seq<nat>, names: seq<string>): (result: seq<string>)
    requires |names| < |ordered| && forall n :: 0 <= n < |ordered| ==> ordered[n] < |initial|
    ensures |result| == |initial|
  {
    var k := |names|;
    if k == 0 then initial else Written(initial, ordered, names[..k - 1])[ordered[k] := names[k - 1]]
  }

  lemma {:induction false} WrittenAt(initial: seq<string>, ordered: seq<nat>, names: seq<string>, m: nat)
    requires |names| < |ordered| && forall n :: 0 <= n < |ordered| ==> ordered[n] < |initial|
    requires Distinct(ordered) && m <= |names|
    ensures Written(initial, ordered, names)[ordered[m]] == if m == 0 then initial[ordered[0]] else names[m - 1]
  {
    var k := |names|;
    if 0 < k && m < k {
      WrittenAt(initial, ordered, names[..k - 1], m);
      assert ordered[m] != ordered[k];
    } else if k == 0 {
      assert m == 0;
    }
  }

  lemma {:induction false} NotWritten(initial: seq<string>, ordered: seq<nat>, names: seq<string>, i: nat)
    requires |names| < |ordered| && forall n :: 0 <= n < |ordered| ==> ordered[n] < |initial|
    requires i < |initial| && i !in ordered
    ensures Written(initial, ordered, names)[i] == initial[i]
  {
    if names != [] { NotWritten(initial, ordered, names[..|names| - 1], i); }
  }

  lemma UnionBound(before: set<string>, r: seq<string>)
    ensures |before + NamesOf(r)| <= |before| + |r|
  {
    AtMostLength(r);
  }

  lemma WrittenStep(initial: seq<string>, ordered: seq<nat>, names: seq<string>, x: string)
    requires |names| + 1 < |ordered| && forall n :: 0 <= n < |ordered| ==> ordered[n] < |initial|
    ensures Written(initial, ordered, names + [x]) == Written(initial, ordered, names)[ordered[|names| + 1] := x]
  {
    assert (names + [x])[..|names|] == names;
  }

  /** The number of one member, when `done` were given to those before it. */
  method NumberMember(name: string, n: nat, taken: set<string>, ghost before: set<string>, ghost done: seq<string>,
                      ghost bound: nat)
    returns (candidate: string)
    requires n > 0 && done == Suffixes(name, n - 1, before) && taken == before + NamesOf(done)
    requires n + 1 + |taken| <= bound < 0x1_0000_0000 && Fits(name, bound)
    ensures Suffixes(name, n, before) == done + [candidate]
    ensures taken + {candidate} == before + NamesOf(done + [candidate])
  {
    candidate := FreeName(name, n + 1, taken, bound);
    NamesOfAppend(done, candidate);
  }

  /** The middle loop: every member of the group but the first is numbered. */
  method NumberGroup(name: string, ordered: seq<nat>, before: set<string>, initial: seq<string>, ghost bound: nat)
    returns (result: seq<string>, taken: set<string>)
    requires |before| + 2 * |ordered| <= bound < 0x1_0000_0000 && Fits(name, bound)
    requires ordered != [] && forall n :: 0 <= n < |ordered| ==> ordered[n] < |initial|
    ensures result == Written(initial, ordered, Suffixes(name, |ordered| - 1, before))
    ensures taken == before + NamesOf(Suffixes(name, |ordered| - 1, before))
  {
    result, taken := initial, before;
    ghost var done: seq<string> := [];
    for n := 1 to |ordered|
      invariant |done| == n - 1 && done == Suffixes(name, n - 1, before)
      invariant result == Written(initial, ordered, done)
      invariant taken == before + NamesOf(done)
    {
      UnionBound(before, done);
      var candidate := NumberMember(name, n, taken, before, done, bound);
      WrittenStep(initial, ordered, done, candidate);
      done := done + [candidate];
      taken := taken + {candidate};
      result := result[ordered[n] := candidate];
    }
  }

  /** The indices whose group is among `names`. */
  function Touched(c: seq<string>, names: seq<string>): set<nat> {
    set i: nat | i < |c| && c[i] in names
  }

  lemma {:induction false} BelowLength(s: set<nat>, n: nat)
    requires forall i :: i in s ==> i < n
    ensures |s| <= n
  {
    if n == 0 {
      assert s == {};
    } else {
      BelowLength(s - {n - 1}, n - 1);
      assert |s| <= |s - {n - 1}| + 1;
    }
  }

  lemma TouchedSplit(c: seq<string>, rest: seq<string>, last: string)
    requires last !in rest
    ensures |Touched(c, rest + [last])| == |Touched(c, rest)| + |Members(c, last)|
  {
    assert Touched(c, rest + [last]) == Touched(c, rest) + Members(c, last);
    assert Touched(c, rest) !! Members(c, last);
  }

  lemma {:induction false} TakenGrowth(c: seq<string>, names: seq<string>)
    requires Increasing(names, StrBefore)
    ensures |TakenAfter(c, names)| <= |NamesOf(c)| + |Touched(c, names)|
  {
    if names != [] {
      var n := |names| - 1;
      var rest, last := names[..n], names[n];
      TakenGrowth(c, rest);
      var taken := TakenAfter(c, rest);
      UnionBound(taken, Suffixes(last, Renamed(c, last), taken));
      NextName(names, n);
      assert last !in rest;
      assert names == rest + [last];
      TouchedSplit(c, rest, last);
    }
  }

  /** Never more names are taken than twice the number of tools. */
  lemma TakenBound(c: seq<string>, names: seq<string>)
    requires Increasing(names, StrBefore)
    ensures |TakenAfter(c, names)| <= 2 * |c|
  {
    BelowLength(Touched(c, names), |c|);
    AtMostLength(c);
    TakenGrowth(c, names);
  }

  lemma SettledStays(c: seq<string>, keys: seq<Key>, names: seq<string>, g: nat, was: seq<string>, now: seq<string>)
    requires |keys| == |c| == |was| == |now| && g < |names|
    requires Settled(c, keys, names, g, was)
    requires forall i :: 0 <= i < |c| && c[i] == names[g] ==> now[i] == was[i]
    ensures Settled(c, keys, names, g, now)
  {
  }

  lemma GroupIsDistinct(c: seq<string>, keys: seq<Key>, name: string)
    requires |keys| == |c|
    ensures Distinct(Group(c, keys, name))
  {
    var group := Group(c, keys, name);
    ByKeyIsOrder(keys, Members(c, name));
    forall i, j | 0 <= i < j < |group| ensures group[i] != group[j] {
      assert group[i] in Members(c, name) && ByKey(keys)(group[i], group[j]);
    }
  }

  /** Writing the suffixes settles the group and touches no other. */
  lemma WrittenSettles(c: seq<string>, keys: seq<Key>, names: seq<string>, g: nat, was: seq<string>)
    requires |keys| == |c| == |was| && g < |names| && Members(c, names[g]) != {}
    requires forall i :: 0 <= i < |c| && c[i] == names[g] ==> was[i] == c[i]
    ensures var group := Group(c, keys, names[g]);
      var now := Written(was, group, Suffixes(names[g], Renamed(c, names[g]), TakenAfter(c, names[..g])));
      && Settled(c, keys, names, g, now)
      && forall i :: 0 <= i < |c| && c[i] != names[g] ==> now[i] == was[i]
  {
    var group := Group(c, keys, names[g]);
    var suffixes := Suffixes(names[g], Renamed(c, names[g]), TakenAfter(c, names[..g]));
    var now := Written(was, group, suffixes);
    GroupIsDistinct(c, keys, names[g]);
    forall n | 0 <= n < |group| ensures now[group[n]] == NameOf(c, names, g, n) {
      WrittenAt(was, group, suffixes, n);
    }
    forall i | 0 <= i < |c| && c[i] != names[g] ensures now[i] == was[i] {
      NotWritten(was, group, suffixes, i);
    }
  }

  function IndicesOf(xs: seq<nat>): set<nat> { set i | i in xs }

  lemma IndicesPrefix(xs: seq<nat>, i: nat)
    ensures IndicesOf(xs) <= IndicesOf(xs + [i])
  {
    forall x | x in xs ensures x in xs + [i] {
      var k :| 0 <= k < |xs| && xs[k] == x;
      assert (xs + [i])[k] == x;
    }
  }

  lemma NextName(names: seq<string>, g: nat)
    requires Increasing(names, StrBefore) && g < |names|
    ensures names[..g + 1] == names[..g] + [names[g]]
    ensures forall h :: 0 <= h < g ==> names[h] != names[g]
  {
    forall h | 0 <= h < g ensures names[h] != names[g] {
      assert StrBefore(names[h], names[g]);
      StrIrreflexive(names[g]);
    }
  }

  ghost predicate GroupsAll(c: seq<string>, groups: map<string, seq<nat>>) {
    && groups.Keys == NamesOf(c)
    && forall name :: name in groups ==>
         IndicesOf(groups[name]) == Members(c, name) && |groups[name]| == |Members(c, name)|
  }

  lemma MembersGrow(c: seq<string>, name: string)
    ensures Members(c + [name], name) == Members(c, name) + {|c|}
    ensures forall other :: other != name ==> Members(c + [name], other) == Members(c, other)
  {
  }

  lemma IndicesAppend(xs: seq<nat>, i: nat)
    ensures IndicesOf(xs + [i]) == IndicesOf(xs) + {i}
  {
    assert (xs + [i])[|xs|] == i;
    IndicesPrefix(xs, i);
  }

  lemma GroupsGrow(c: seq<string>, groups: map<string, seq<nat>>, name: string)
    requires GroupsAll(c, groups)
    ensures var idxs := if name in groups then groups[name] else [];
      GroupsAll(c + [name], groups[name := idxs + [|c|]])
  {
    var idxs := if name in groups then groups[name] else [];
    NamesOfAppend(c, name);
    MembersGrow(c, name);
    IndicesAppend(idxs, |c|);
    assert IndicesOf(idxs) == Members(c, name) && |idxs| == |Members(c, name)| by {
      assert name !in NamesOf(c) ==> Members(c, name) == {};
    }
    assert |Members(c, name) + {|c|}| == |Members(c, name)| + 1;
  }

  /** The first loop: the indices of every name, in increasing order. */
  method GroupByName(c: seq<string>) returns (groups: map<string, seq<nat>>)
    ensures GroupsAll(c, groups)
  {
    groups := map[];
    for i := 0 to |c|
      invariant GroupsAll(c[..i], groups)
    {
      GroupsGrow(c[..i], groups, c[i]);
      assert c[..i + 1] == c[..i] + [c[i]];
      var idxs := if c[i] in groups then groups[c[i]] else [];
      groups := groups[c[i] := idxs + [i]];
    }
    assert c[..|c|] == c;
  }

  lemma NotYet(c: seq<string>, names: seq<string>, g: nat)
    requires Lists(names, NamesOf(c), StrBefore) && g < |names|
    ensures Members(c, names[g]) != {} && names[g] !in names[..g]
  {
    NextName(names, g);
    assert names[g] in NamesOf(c);
    var i :| 0 <= i < |c| && c[i] == names[g];
    assert i in Members(c, names[g]);
  }

  /** The state of the outer loop once `g` groups are done. */
  ghost predicate GroupsDone(c: seq<string>, keys: seq<Key>, names: seq<string>, g: nat,
                             result: seq<string>, taken: set<string>)
    requires |keys| == |c| && g <= |names|
  {
    && |result| == |c|
    && taken == TakenAfter(c, names[..g])
    && (forall h :: 0 <= h < g ==> Settled(c, keys, names, h, result))
    && (forall i :: 0 <= i < |c| && c[i] !in names[..g] ==> result[i] == c[i])
  }

  lemma OneMoreGroup(c: seq<string>, keys: seq<Key>, names: seq<string>, g: nat,
                     was: seq<string>, taken: set<string>)
    requires |keys| == |c| && g < |names| && Lists(names, NamesOf(c), StrBefore)
    requires GroupsDone(c, keys, names, g, was, taken)
    ensures Members(c, names[g]) != {}
    ensures var suffixes := Suffixes(names[g], Renamed(c, names[g]), taken);
      GroupsDone(c, keys, names, g + 1, Written(was, Group(c, keys, names[g]), suffixes), taken + NamesOf(suffixes))
  {
    NextName(names, g);
    NotYet(c, names, g);
    var suffixes := Suffixes(names[g], Renamed(c, names[g]), taken);
    var now := Written(was, Group(c, keys, names[g]), suffixes);
    WrittenSettles(c, keys, names, g, was);
    forall h | 0 <= h < g ensures Settled(c, keys, names, h, now) {
      SettledStays(c, keys, names, h, was, now);
    }
  }

  /** One turn of the outer loop. */
  method SettleGroup(c: seq<string>, keys: seq<Key>, names: seq<string>, g: nat, idxs: seq<nat>,
                     was: seq<string>, takenWas: set<string>)
    returns (result: seq<string>, taken: set<string>)
    requires |keys| == |c| && 4 * |c| < 0x1_0000_0000 && g < |names| && Lists(names, NamesOf(c), StrBefore)
    requires Fits(names[g], 4 * |c|)
    requires IndicesOf(idxs) == Members(c, names[g]) && |idxs| == |Members(c, names[g])|
    requires GroupsDone(c, keys, names, g, was, takenWas)
    ensures GroupsDone(c, keys, names, g + 1, result, taken)
  {
    OneMoreGroup(c, keys, names, g, was, takenWas);
    result, taken := was, takenWas;
    if |idxs| == 1 { return; }
    ByKeyIsOrder(keys, Members(c, names[g]));
    var ordered := InOrder(IndicesOf(idxs), ByKey(keys));
    TakenBound(c, names[..g]);
    BelowLength(Members(c, names[g]), |c|);
    result, taken := NumberGroup(names[g], ordered, takenWas, was, 4 * |c|);
  }

  lemma NamesFit(c: seq<string>, names: seq<string>, g: nat, bound: nat)
    requires Lists(names, NamesOf(c), StrBefore) && g < |names|
    requires forall i :: 0 <= i < |c| ==> Fits(c[i], bound)
    ensures Fits(names[g], bound) && names[g] in NamesOf(c)
  {
    assert names[g] in names && names[g] in NamesOf(c);
  }

  /** Takes fewer than 2^30 names with room for the numbers: see `ShortNamesFit`. */
  method Uniquify(c: seq<string>, keys: seq<Key>) returns (result: seq<string>)
    requires |keys| == |c| && 4 * |c| < 0x1_0000_0000
    requires forall i :: 0 <= i < |c| ==> Fits(c[i], 4 * |c|)
    ensures Assigned(c, keys, result)
  {
    var groups := GroupByName(c);
    result := c;
    var taken := NamesOf(c);
    var names := NamesInOrder(c);
    for g := 0 to |names|
      invariant GroupsDone(c, keys, names, g, result, taken)
    {
      NamesFit(c, names, g, 4 * |c|);
      result, taken := SettleGroup(c, keys, names, g, groups[names[g]], result, taken);
    }
  }
}
