/** How a tool name is spelled: which characters of its source it has, and where its underscores stand. */
module NameSpelling {
  import opened CandidateName
  import opened Names
  import opened Options

  // ---------------------------------------------------------------- the spelling of a text

  /** An ASCII character that is no letter and no digit. */
  predicate Mark(c: char) { c as int < 128 && !WordChar(c) }

  predicate NoWordIn(s: string, i: nat, j: nat) {
    j <= |s| && forall k :: i <= k < j ==> !WordChar(s[k])
  }

  /** Behind the last letter or digit among the first `n` characters there is a mark. */
  ghost predicate Gap(s: string, n: nat)
    requires n <= |s|
  {
    exists k: nat :: k < n && Mark(s[k]) && NoWordIn(s, k + 1, n)
  }

  /** A word begins at `n`: there is a mark in front of it, or it is a capital right behind a lower-case
      letter or a digit. */
  ghost predicate Parted(s: string, n: nat)
    requires n < |s|
  {
    Gap(s, n) || (Upper(s[n]) && n > 0 && (Lower(s[n - 1]) || Digit(s[n - 1])))
  }

  /** The letters and digits of a text in lower case, with an underscore wherever a word begins behind
      another. */
  ghost function Spelled(s: string): string {
    if s == [] then []
    else
      var n := |s| - 1;
      var before := Spelled(s[..n]);
      if !WordChar(s[n]) then before
      else before + (if before != [] && Parted(s, n) then "_" else []) + [ToLower(s[n])]
  }

  // ---------------------------------------------------------------- the loops compute it

  lemma CollapsedAppend(s: string, c: char)
    ensures Collapsed(s + [c]) ==
      Collapsed(s) + if !Sep(c) then [c] else if s != [] && Sep(s[|s| - 1]) then [] else "_"
  {
    assert (s + [c])[..|s|] == s;
  }

  lemma CleanedAppend(s: string, t: string)
    ensures CleanedAll(s + t) == CleanedAll(s) + CleanedAll(t)
  {
  }

  function EndsInSep(s: string): bool { s != [] && Sep(s[|s| - 1]) }

  /** The output of the loops so far, without the separators in front. */
  function Kept(cleaned: string): string { TrimStart(Collapsed(cleaned)) }

  /** What the loops have after `n` characters: the spelling so far, and an underscore when a separator
      is waiting. */
  ghost predicate SpelledSoFar(s: string, n: nat)
    requires n <= |s|
  {
    Holds(CleanedAll(Snake(s, n)), Spelled(s[..n]), Gap(s, n))
  }

  ghost predicate Holds(cleaned: string, spelled: string, gap: bool) {
    EndsInSep(cleaned) == gap && Kept(cleaned) == spelled + if spelled != [] && gap then "_" else []
  }

  lemma GapStep(s: string, n: nat)
    requires n < |s|
    ensures Gap(s, n + 1) <==> Mark(s[n]) || (!WordChar(s[n]) && Gap(s, n))
  {
    if Mark(s[n]) { assert NoWordIn(s, n + 1, n + 1); }
    if Gap(s, n + 1) {
      var k: nat :| k < n + 1 && Mark(s[k]) && NoWordIn(s, k + 1, n + 1);
      if k < n { assert NoWordIn(s, k + 1, n); }
    }
    if !WordChar(s[n]) && Gap(s, n) {
      var k: nat :| k < n && Mark(s[k]) && NoWordIn(s, k + 1, n);
      assert NoWordIn(s, k + 1, n + 1);
    }
  }

  lemma {:induction false} GapOfPrefix(s: string, m: nat, n: nat)
    requires n <= m <= |s|
    ensures Gap(s[..m], n) <==> Gap(s, n)
  {
    if n > 0 {
      GapOfPrefix(s, m, n - 1);
      GapStep(s, n - 1);
      GapStep(s[..m], n - 1);
    } else {
      assert !Gap(s, 0) && !Gap(s[..m], 0);
    }
  }

  lemma SpelledStep(s: string, n: nat)
    requires n < |s|
    ensures var before := Spelled(s[..n]);
      Spelled(s[..n + 1]) == if !WordChar(s[n]) then before
        else before + (if before != [] && Parted(s, n) then "_" else []) + [ToLower(s[n])]
  {
    assert s[..n + 1][..n] == s[..n];
    GapOfPrefix(s, n + 1, n);
  }

  /** A letter or digit ends the spelling. */
  lemma BehindWord(s: string, n: nat)
    requires 0 < n <= |s| && WordChar(s[n - 1])
    ensures Spelled(s[..n]) != [] && !Gap(s, n)
  {
    SpelledStep(s, n - 1);
    GapStep(s, n - 1);
  }

  lemma {:induction false} TrimAfter(x: string, c: char)
    ensures TrimStart(x + [c]) == TrimStart(x) + if !Sep(c) || TrimStart(x) != [] then [c] else []
    decreases |x|
  {
    if x == [] {
      assert x + [c] == [c];
      TrimOne(c);
    } else if Sep(x[0]) {
      assert (x + [c])[1..] == x[1..] + [c];
      TrimAfter(x[1..], c);
    }
  }

  lemma TrimOne(c: char)
    ensures TrimStart([c]) == if Sep(c) then [] else [c]
  {
    assert [c][1..] == [];
  }

  lemma LetterKept(cleaned: string, c: char)
    requires !Sep(c)
    ensures Kept(cleaned + [c]) == Kept(cleaned) + [c] && !EndsInSep(cleaned + [c])
  {
    CollapsedAppend(cleaned, c);
    TrimAfter(Collapsed(cleaned), c);
  }

  lemma SepKept(cleaned: string, c: char)
    requires Sep(c)
    ensures Kept(cleaned + [c]) == Kept(cleaned) + if Kept(cleaned) == [] || EndsInSep(cleaned) then [] else "_"
    ensures EndsInSep(cleaned + [c])
  {
    CollapsedAppend(cleaned, c);
    if EndsInSep(cleaned) {
      assert Collapsed(cleaned) + [] == Collapsed(cleaned);
    } else {
      TrimAfter(Collapsed(cleaned), '_');
    }
  }

  /** One more letter, behind an underscore if one is due. */
  lemma LetterHolds(cleaned: string, spelled: string, gap: bool, c: char)
    requires Holds(cleaned, spelled, gap) && !Sep(c)
    ensures Holds(cleaned + [c], spelled + (if spelled != [] && gap then "_" else []) + [c], false)
  {
    LetterKept(cleaned, c);
    var more := spelled + (if spelled != [] && gap then "_" else []) + [c];
    assert more + [] == more;
  }

  lemma SepHolds(cleaned: string, spelled: string, gap: bool, c: char)
    requires Holds(cleaned, spelled, gap) && Sep(c)
    ensures Holds(cleaned + [c], spelled, true)
  {
    SepKept(cleaned, c);
    if spelled == [] || gap {
      assert Kept(cleaned) + [] == Kept(cleaned);
    } else {
      assert spelled + [] == spelled;
    }
  }

  /** What the loops clean for one more character. */
  lemma CleanedStep(s: string, n: nat)
    requires n < |s|
    ensures CleanedAll(Snake(s, n + 1)) == CleanedAll(Snake(s, n)) + CleanedAll(SnakePiece(s, n))
  {
    CleanedAppend(Snake(s, n), SnakePiece(s, n));
  }

  lemma OneCleaned(c: char)
    ensures CleanedAll([c]) == [Cleaned(c)]
  {
  }

  /** A character that is no letter and no digit. */
  lemma OtherSpelled(s: string, n: nat)
    requires n < |s| && SpelledSoFar(s, n) && !WordChar(s[n])
    ensures SpelledSoFar(s, n + 1)
  {
    SpelledStep(s, n);
    GapStep(s, n);
    CleanedStep(s, n);
    var cleaned := CleanedAll(Snake(s, n));
    if Mark(s[n]) {
      OneCleaned(s[n]);
      SepHolds(cleaned, Spelled(s[..n]), Gap(s, n), Cleaned(s[n]));
    } else {
      assert cleaned + CleanedAll([]) == cleaned;
    }
  }

  /** A capital right behind a lower-case letter or a digit. */
  predicate CamelWord(s: string, n: nat)
    requires n < |s|
  {
    Upper(s[n]) && n > 0 && (Lower(s[n - 1]) || Digit(s[n - 1]))
  }

  lemma CamelStep(s: string, n: nat)
    requires n < |s| && CamelWord(s, n)
    ensures Spelled(s[..n]) != [] && !Gap(s, n) && !Gap(s, n + 1)
    ensures Spelled(s[..n + 1]) == Spelled(s[..n]) + "_" + [ToLower(s[n])]
  {
    SpelledStep(s, n);
    GapStep(s, n);
    BehindWord(s, n);
  }

  lemma CamelPiece(s: string, n: nat)
    requires n < |s| && CamelWord(s, n)
    ensures CleanedAll(SnakePiece(s, n)) == ['_', ToLower(s[n])] && !Sep(ToLower(s[n]))
  {
    assert SnakePiece(s, n) == ['_', ToLower(s[n])];
  }

  /** Two characters of output at once. */
  lemma CamelHolds(cleaned: string, spelled: string, c: char)
    requires Holds(cleaned, spelled, false) && spelled != [] && !Sep(c)
    ensures Holds(cleaned + ['_', c], spelled + "_" + [c], false)
  {
    SepHolds(cleaned, spelled, false, '_');
    LetterHolds(cleaned + ['_'], spelled, true, c);
    assert cleaned + ['_', c] == (cleaned + ['_']) + [c];
  }

  lemma CamelSpelled(s: string, n: nat)
    requires n < |s| && SpelledSoFar(s, n) && CamelWord(s, n)
    ensures SpelledSoFar(s, n + 1)
  {
    CamelStep(s, n);
    CleanedStep(s, n);
    CamelPiece(s, n);
    CamelHolds(CleanedAll(Snake(s, n)), Spelled(s[..n]), ToLower(s[n]));
  }

  /** A letter or digit that is no such capital. */
  predicate PlainWord(s: string, n: nat)
    requires n < |s|
  {
    WordChar(s[n]) && !CamelWord(s, n)
  }

  lemma PieceCleaned(s: string, n: nat)
    requires n < |s| && PlainWord(s, n)
    ensures CleanedAll(SnakePiece(s, n)) == [ToLower(s[n])] && !Sep(ToLower(s[n]))
  {
    OneCleaned(ToLower(s[n]));
    assert SnakePiece(s, n) == [ToLower(s[n])];
  }

  lemma PlainStep(s: string, n: nat)
    requires n < |s| && PlainWord(s, n)
    ensures Spelled(s[..n + 1])
         == Spelled(s[..n]) + (if Spelled(s[..n]) != [] && Gap(s, n) then "_" else []) + [ToLower(s[n])]
    ensures !Gap(s, n + 1)
  {
    SpelledStep(s, n);
    GapStep(s, n);
  }

  lemma WordSpelled(s: string, n: nat)
    requires n < |s| && SpelledSoFar(s, n) && PlainWord(s, n)
    ensures SpelledSoFar(s, n + 1)
  {
    PlainStep(s, n);
    CleanedStep(s, n);
    PieceCleaned(s, n);
    LetterHolds(CleanedAll(Snake(s, n)), Spelled(s[..n]), Gap(s, n), ToLower(s[n]));
  }

  lemma NothingSpelled(s: string)
    ensures SpelledSoFar(s, 0)
  {
    assert s[..0] == [] && CleanedAll([]) == [] && !Gap(s, 0);
  }

  lemma {:induction false} LoopsSpell(s: string, n: nat)
    requires n <= |s|
    ensures SpelledSoFar(s, n)
  {
    if n == 0 {
      NothingSpelled(s);
    } else {
      LoopsSpell(s, n - 1);
      NextSpelled(s, n - 1);
    }
  }

  lemma NextSpelled(s: string, n: nat)
    requires n < |s| && SpelledSoFar(s, n)
    ensures SpelledSoFar(s, n + 1)
  {
    if !WordChar(s[n]) {
      OtherSpelled(s, n);
    } else if CamelWord(s, n) {
      CamelSpelled(s, n);
    } else {
      WordSpelled(s, n);
    }
  }

  lemma {:induction false} SpelledEndsInWord(s: string)
    ensures Spelled(s) != [] ==> !Sep(Spelled(s)[|Spelled(s)| - 1])
  {
    if s != [] { SpelledEndsInWord(s[..|s| - 1]); }
  }

  /** Camel case, cleaning, collapsing and trimming together spell the text. */
  lemma SluggedIsSpelled(s: string)
    ensures Slugged(s) == Spelled(s)
  {
    LoopsSpell(s, |s|);
    assert s[..|s|] == s;
    SpelledEndsInWord(s);
    TrimmedSpelling(Spelled(s), Gap(s, |s|));
  }

  lemma TrimmedSpelling(spelled: string, gap: bool)
    requires spelled != [] ==> !Sep(spelled[|spelled| - 1])
    ensures TrimEnd(spelled + if spelled != [] && gap then "_" else []) == spelled
  {
    if spelled != [] && gap {
      TrimUnderscore(spelled);
    } else {
      assert spelled + [] == spelled;
    }
  }

  lemma TrimUnderscore(x: string)
    requires x != [] && !Sep(x[|x| - 1])
    ensures TrimEnd(x + "_") == x
  {
    var t := x + "_";
    assert t[|t| - 1] == '_' && t[..|t| - 1] == x;
    assert TrimEnd(t) == TrimEnd(x);
  }

  // ---------------------------------------------------------------- texts that are spelled alike

  /** Two characters that are alike for a spelling. */
  predicate Alike(c: char, d: char) {
    c == d || (Mark(c) && Mark(d))
  }

  predicate AllAlike(s: string, t: string) {
    |s| == |t| && forall i :: 0 <= i < |s| ==> Alike(s[i], t[i])
  }

  lemma {:induction false} GapAlike(s: string, t: string, n: nat)
    requires AllAlike(s, t) && n <= |s|
    ensures Gap(s, n) <==> Gap(t, n)
  {
    if n > 0 {
      GapAlike(s, t, n - 1);
      GapStep(s, n - 1);
      GapStep(t, n - 1);
    } else {
      assert !Gap(s, 0) && !Gap(t, 0);
    }
  }

  lemma {:induction false} SpelledAlike(s: string, t: string, n: nat)
    requires AllAlike(s, t) && n <= |s|
    ensures Spelled(s[..n]) == Spelled(t[..n])
  {
    if n == 0 {
      assert s[..0] == t[..0];
    } else {
      SpelledAlike(s, t, n - 1);
      AlikeStep(s, t, n - 1);
    }
  }

  lemma AlikeStep(s: string, t: string, n: nat)
    requires AllAlike(s, t) && n < |s| && Spelled(s[..n]) == Spelled(t[..n])
    ensures Spelled(s[..n + 1]) == Spelled(t[..n + 1])
  {
    GapAlike(s, t, n);
    SpelledStep(s, n);
    SpelledStep(t, n);
  }

  lemma SameSpelling(s: string, t: string)
    requires AllAlike(s, t)
    ensures Spelled(s) == Spelled(t)
  {
    SpelledAlike(s, t, |s|);
    assert s[..|s|] == s && t[..|t|] == t;
  }

  lemma DropFirstStep(s: string, rest: string, n: nat)
    requires 0 < n < |s| && rest == s[1..]
    requires Spelled(s[1..n]) == Spelled(s[..n])
    requires Spelled(s[..n]) != [] ==> (Gap(rest, n - 1) <==> Gap(s, n))
    ensures Spelled(s[1..n + 1]) == Spelled(s[..n + 1])
    ensures Spelled(s[..n + 1]) != [] ==> (Gap(rest, n) <==> Gap(s, n + 1))
  {
    assert rest[..n] == s[1..n + 1] && rest[..n - 1] == s[1..n] && rest[n - 1] == s[n];
    SpelledStep(s, n);
    SpelledStep(rest, n - 1);
    GapStep(s, n);
    GapStep(rest, n - 1);
  }

  /** Nothing in front of the first letter or digit matters. */
  lemma {:induction false} DropFirst(s: string, n: nat)
    requires 0 < n <= |s| && !WordChar(s[0])
    ensures Spelled(s[1..n]) == Spelled(s[..n])
    ensures Spelled(s[..n]) != [] ==> (Gap(s[1..], n - 1) <==> Gap(s, n))
  {
    if n == 1 {
      assert s[1..1] == [] && s[..1][..0] == [];
    } else {
      DropFirst(s, n - 1);
      DropFirstStep(s, s[1..], n - 1);
    }
  }

  lemma DropFront(s: string)
    requires s != [] && !WordChar(s[0])
    ensures Spelled(s[1..]) == Spelled(s)
  {
    DropFirst(s, |s|);
    assert s[1..|s|] == s[1..] && s[..|s|] == s;
  }

  lemma WhiteIsNoWord(c: char)
    requires White(c)
    ensures !WordChar(c)
  {
  }

  lemma {:induction false} TrimWhiteSpelled(s: string)
    ensures Spelled(TrimWhite(s)) == Spelled(s)
  {
    if s != [] {
      if White(s[0]) {
        WhiteIsNoWord(s[0]);
        DropFront(s);
        TrimWhiteSpelled(s[1..]);
      } else if White(s[|s| - 1]) {
        WhiteIsNoWord(s[|s| - 1]);
        TrimWhiteSpelled(s[..|s| - 1]);
      }
    }
  }

  lemma {:induction false} DropSlashesSpelled(s: string)
    ensures Spelled(DropSlashes(s)) == Spelled(s)
  {
    if s != [] && s[0] == '/' {
      DropFront(s);
      DropSlashesSpelled(s[1..]);
    }
  }

  // ---------------------------------------------------------------- the name

  /** The spelling, cut to 64 characters; an underscore at the end goes as well. */
  function Short(spelled: string): string {
    if |spelled| <= 64 then spelled else if spelled[63] == '_' then spelled[..63] else spelled[..64]
  }

  lemma TrimEndOne(x: string)
    requires x != [] && Sep(x[|x| - 1])
    ensures TrimEnd(x) == TrimEnd(x[..|x| - 1])
  {
  }

  lemma TrimmedOne(x: string)
    requires |x| > 1 && !Sep(x[0]) && x[|x| - 1] == '_' && !Sep(x[|x| - 2])
    ensures Trimmed(x) == x[..|x| - 1]
  {
    TrimEndOne(x);
  }

  lemma SlugCut(t: string, n: nat)
    requires Slug(t) && 1 < n < |t|
    ensures Trimmed(t[..n]) == if t[n - 1] == '_' then t[..n - 1] else t[..n]
  {
    var cut := t[..n];
    assert cut[0] == t[0] && cut[n - 1] == t[n - 1] && cut[n - 2] == t[n - 2] && cut[..n - 1] == t[..n - 1];
    if t[n - 1] == '_' {
      assert t[n - 2] != '_';
      TrimmedOne(cut);
    }
  }

  lemma CutWhen(t: string, cut: string)
    requires |t| > 64 && cut == Trimmed(t[..64]) && cut == if t[63] == '_' then t[..63] else t[..64]
    ensures Cut(t) == cut == Short(t)
  {
  }

  lemma CutIsShort(t: string)
    requires Slug(t)
    ensures Cut(t) == Short(t)
  {
    if |t| > 64 {
      SlugCut(t, 64);
      CutWhen(t, Trimmed(t[..64]));
    }
  }

  /** The normal form of a text is its spelling, cut. */
  lemma NormalFormIsSpelled(source: string, isOperationId: bool)
    ensures NormalizeRaw(source, isOperationId) == Short(Spelled(source))
  {
    var s := if isOperationId then OpIdSource(source) else source;
    assert AllAlike(s, source);
    SameSpelling(s, source);
    SluggedIsSpelled(s);
    SluggedShape(s);
    CutIsShort(Slugged(s));
  }

  /** The words and prefixes that no tool may have for a name. */
  predicate Taken(name: string) {
    name == "initialize" || name == "ping" || name == "shutdown" || name == "tools_list" || name == "tools_call"
    || name == "resources_list" || name == "prompts_list" || name == "rpc" || name == "rpc.internal"
    || "mcp." <= name || "mcp_" <= name
  }

  lemma ReservedIff(name: string)
    ensures IsReserved(name) <==> name == "" || Taken(name)
  {
  }

  /** The name of a tool whose source is spelled so. */
  function ToolName(spelled: string): string {
    var raw := Short(spelled);
    if raw == "" then "api_op" else if Taken(raw) then "api_" + raw else raw
  }

  lemma FinishedIsToolName(source: string, isOperationId: bool)
    ensures Finish(NormalizeRaw(source, isOperationId)) == ToolName(Spelled(source))
  {
    NormalFormIsSpelled(source, isOperationId);
    NormalFormIsSlug(source, isOperationId);
    ReservedIff(NormalizeRaw(source, isOperationId));
  }

  /** `c` is the first sentence or line of `d`, without the white space around `d`, up to 80 characters. */
  ghost predicate IsClip(d: string, c: string) {
    exists t :: IsTrimmed(d, t) && IsFirstPart(t, c)
  }

  ghost predicate IsTrimmed(d: string, t: string) {
    exists i: nat, j: nat :: TrimmedAt(d, i, j) && t == d[i..j]
  }

  predicate TrimmedAt(d: string, i: nat, j: nat) {
    && i <= j <= |d| && (forall k :: 0 <= k < i ==> White(d[k])) && (forall k :: j <= k < |d| ==> White(d[k]))
    && (i < j ==> !White(d[i]) && !White(d[j - 1]))
  }

  predicate IsFirstPart(t: string, c: string) {
    && c <= t && |c| <= 80 && '.' !in c && '\n' !in c
    && (|c| == 80 || |c| == |t| || t[|c|] == '.' || t[|c|] == '\n')
  }

  lemma TrimmedBehind(d: string, i: nat, j: nat)
    requires d != [] && White(d[0]) && TrimmedAt(d[1..], i, j)
    ensures TrimmedAt(d, i + 1, j + 1) && d[1..][i..j] == d[i + 1..j + 1]
  {
    assert forall k :: 1 <= k < |d| ==> d[k] == d[1..][k - 1];
  }

  lemma TrimmedBefore(d: string, i: nat, j: nat)
    requires d != [] && White(d[|d| - 1]) && TrimmedAt(d[..|d| - 1], i, j)
    ensures TrimmedAt(d, i, j) && d[..|d| - 1][i..j] == d[i..j]
  {
    assert forall k :: 0 <= k < |d| - 1 ==> d[k] == d[..|d| - 1][k];
  }

  lemma {:induction false} TrimWhiteIs(d: string) returns (i: nat, j: nat)
    ensures TrimmedAt(d, i, j) && TrimWhite(d) == d[i..j]
    decreases |d|
  {
    if d == [] {
      i, j := 0, 0;
    } else if White(d[0]) {
      i, j := TrimWhiteIs(d[1..]);
      TrimmedBehind(d, i, j);
      i, j := i + 1, j + 1;
    } else if White(d[|d| - 1]) {
      i, j := TrimWhiteIs(d[..|d| - 1]);
      TrimmedBefore(d, i, j);
    } else {
      i, j := 0, |d|;
    }
  }

  lemma {:induction false} FirstPartIs(t: string)
    ensures var f := FirstPart(t);
      f <= t && '.' !in f && '\n' !in f && (|f| == |t| || t[|f|] == '.' || t[|f|] == '\n')
  {
    if t != [] && t[0] != '.' && t[0] != '\n' {
      FirstPartIs(t[1..]);
      assert t == [t[0]] + t[1..];
    }
  }

  lemma ClippedIsClip(d: string)
    ensures IsClip(d, Clipped(d))
  {
    var i, j := TrimWhiteIs(d);
    var t := TrimWhite(d);
    assert IsTrimmed(d, t);
    FirstPartIs(t);
    var f := FirstPart(t);
    if |f| > 80 { assert f[..80] <= t; }
    assert IsFirstPart(t, Clipped(d));
  }

  /** A second slash behind a slash makes no difference. */
  lemma {:induction false} SecondSlash(x: string, y: string)
    ensures var s, t := x + "//" + y, x + "/" + y;
      Spelled(s) == Spelled(t) && (Gap(s, |s|) <==> Gap(t, |t|))
    decreases |y|
  {
    var s, t := x + "//" + y, x + "/" + y;
    if y == [] {
      assert s[..|x| + 1] == t == x + "/" && s[|x| + 1] == t[|x|] == '/';
      assert s[..|x| + 2] == s && t[..|x| + 1] == t;
      SpelledStep(s, |x| + 1);
      GapStep(s, |x| + 1);
      GapStep(t, |x|);
    } else {
      var z, n := y[..|y| - 1], |y| - 1;
      SecondSlash(x, z);
      assert s[..|s| - 1] == x + "//" + z && t[..|t| - 1] == x + "/" + z;
      SlashStep(s, t, x + "//" + z, x + "/" + z);
    }
  }

  /** The same last character behind two texts that are spelled alike and end alike. */
  lemma SlashStep(s: string, t: string, u: string, v: string)
    requires u != [] && v != [] && s != [] && t != [] && s[..|s| - 1] == u && t[..|t| - 1] == v
    requires u[|u| - 1] == v[|v| - 1] && s[|s| - 1] == t[|t| - 1]
    requires Spelled(u) == Spelled(v) && (Gap(u, |u|) <==> Gap(v, |v|))
    ensures Spelled(s) == Spelled(t) && (Gap(s, |s|) <==> Gap(t, |t|))
  {
    var m, n := |s| - 1, |t| - 1;
    assert s[..m + 1] == s && t[..n + 1] == t && s[m - 1] == u[m - 1] && t[n - 1] == v[n - 1];
    GapOfPrefix(s, m, m);
    GapOfPrefix(t, n, n);
    SpelledStep(s, m);
    SpelledStep(t, n);
    GapStep(s, m);
    GapStep(t, n);
  }

  lemma {:induction false} SlashesSpelled(x: string, path: string)
    ensures Spelled(x + "/" + DropSlashes(path)) == Spelled(x + "/" + path)
    decreases |path|
  {
    if path != [] && path[0] == '/' {
      SlashesSpelled(x, path[1..]);
      SecondSlash(x, path[1..]);
      assert x + "//" + path[1..] == x + "/" + path;
    }
  }

  /** Every capital made small. */
  function Lowered(s: string): (t: string)
    ensures |t| == |s|
    ensures forall i :: 0 <= i < |s| ==> t[i] == if 'A' <= s[i] <= 'Z' then (s[i] as int + 32) as char else s[i]
  {
    seq(|s|, i requires 0 <= i < |s| => ToLower(s[i]))
  }

  lemma FallbackSpelled(verb: string, path: string)
    ensures Spelled(MethodPathFallback(verb, path)) == Spelled(Lowered(verb) + "/" + path)
  {
    var a, b := MethodPathFallback(verb, path), Lowered(verb) + "/" + DropSlashes(path);
    assert AllAlike(a, b);
    SameSpelling(a, b);
    SlashesSpelled(Lowered(verb), path);
  }

  /** The text that a tool is named after: the operation id, the summary, the clipped description, or
      method and path. */
  ghost predicate IsSourceText(src: NameSource, kind: NameKind, text: string) {
    match kind
    case OperationId => src.operationId == Some(text)
    case Summary => src.summary == Some(text)
    case Description => src.description.Some? && IsClip(src.description.value, text)
    case Fallback => text == Lowered(src.httpMethod) + "/" + src.pathTemplate
  }

  ghost predicate NamedAfter(src: NameSource, tool: NamedTool, text: string) {
    IsSourceText(src, tool.sourceKind, text) && tool.name == ToolName(Spelled(text))
  }

  /** A tool is called as its source text is spelled: the letters and digits of the text in lower case,
      an underscore where a word begins behind another, cut to 64 characters, and with `api_` in front
      of a name that no tool may have. */
  lemma CandidateIsSpelled(src: NameSource)
    ensures exists text :: NamedAfter(src, Candidate(src), text)
  {
    var kind := Candidate(src).sourceKind;
    if kind == OperationId {
      IdSpelled(src);
    } else if kind == Summary {
      SummarySpelled(src);
    } else if kind == Description {
      DescriptionSpelled(src);
    } else {
      PathSpelled(src);
    }
  }

  lemma IdSpelled(src: NameSource)
    requires Candidate(src).sourceKind == OperationId
    ensures src.operationId.Some? && NamedAfter(src, Candidate(src), src.operationId.value)
  {
    TextSpelled(src.operationId.value, true);
  }

  lemma SummarySpelled(src: NameSource)
    requires Candidate(src).sourceKind == Summary
    ensures src.summary.Some? && NamedAfter(src, Candidate(src), src.summary.value)
  {
    TextSpelled(src.summary.value, false);
  }

  lemma DescriptionSpelled(src: NameSource)
    requires Candidate(src).sourceKind == Description
    ensures src.description.Some? && NamedAfter(src, Candidate(src), Clipped(src.description.value))
  {
    ClippedIsClip(src.description.value);
    FinishedIsToolName(Clipped(src.description.value), false);
  }

  lemma PathSpelled(src: NameSource)
    requires Candidate(src).sourceKind == Fallback
    ensures NamedAfter(src, Candidate(src), Lowered(src.httpMethod) + "/" + src.pathTemplate)
  {
    FallbackSpelled(src.httpMethod, src.pathTemplate);
    FinishedIsToolName(MethodPathFallback(src.httpMethod, src.pathTemplate), false);
  }

  lemma TextSpelled(text: string, isOperationId: bool)
    ensures Finish(NormalizeRaw(TrimWhite(text), isOperationId)) == ToolName(Spelled(text))
  {
    FinishedIsToolName(TrimWhite(text), isOperationId);
    TrimWhiteSpelled(text);
  }

  // ---------------------------------------------------------------- letters and underscores apart

  /** The letters and digits of a text, in order and in lower case. */
  function Letters(s: string): string {
    if s == [] then []
    else Letters(s[..|s| - 1]) + if WordChar(s[|s| - 1]) then [ToLower(s[|s| - 1])] else []
  }

  lemma LettersAppend(s: string, c: char)
    ensures Letters(s + [c]) == Letters(s) + if WordChar(c) then [ToLower(c)] else []
  {
    assert (s + [c])[..|s|] == s;
  }

  /** A spelling has exactly the letters and digits of the text. */
  lemma {:induction false} SpelledKeepsLetters(s: string)
    ensures Letters(Spelled(s)) == Letters(s)
  {
    if s != [] {
      var n := |s| - 1;
      var before, c := Spelled(s[..n]), ToLower(s[n]);
      SpelledKeepsLetters(s[..n]);
      if WordChar(s[n]) {
        LettersAppend(before, '_');
        LettersAppend(before + "_", c);
        LettersAppend(before, c);
        assert before + [] + [c] == before + [c];
        assert Letters(before) + [] == Letters(before);
      }
    }
  }
  lemma {:induction false} LettersOfPrefix(s: string, n: nat)
    requires n <= |s|
    ensures Letters(s[..n]) <= Letters(s)
  {
    if n < |s| {
      LettersOfPrefix(s[..|s| - 1], n);
      assert s[..|s| - 1][..n] == s[..n];
    } else {
      assert s[..n] == s;
    }
  }

  /** Cutting a spelling drops letters at its end only, and none when it has at most 64 characters. */
  lemma ShortKeepsLetters(text: string)
    ensures Letters(Short(Spelled(text))) <= Letters(text)
    ensures |Spelled(text)| <= 64 ==> Letters(Short(Spelled(text))) == Letters(text)
  {
    var spelled := Spelled(text);
    SpelledKeepsLetters(text);
    LettersOfPrefix(spelled, |Short(spelled)|);
  }
}
