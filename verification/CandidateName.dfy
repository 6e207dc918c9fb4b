/** Which of its sources a tool is named after. */
module CandidateName {
  import opened Names
  import opened Options

  datatype NameKind = OperationId | Summary | Description | Fallback

  datatype NameSource = NameSource(
    operationId: Option<string>,
    summary: Option<string>,
    description: Option<string>,
    httpMethod: string,
    pathTemplate: string)

  datatype NamedTool = NamedTool(name: string, sourceKind: NameKind)

  /** `char::is_whitespace` */
  predicate White(c: char) {
    var n := c as int;
    || 0x09 <= n <= 0x0D || n == 0x20 || n == 0x85 || n == 0xA0 || n == 0x1680
    || 0x2000 <= n <= 0x200A || n == 0x2028 || n == 0x2029 || n == 0x202F || n == 0x205F || n == 0x3000
  }

  function TrimWhite(s: string): string {
    if s == [] then []
    else if White(s[0]) then TrimWhite(s[1..])
    else if White(s[|s| - 1]) then TrimWhite(s[..|s| - 1])
    else s
  }

  /** The first sentence or line. */
  function FirstPart(s: string): string {
    if s == [] || s[0] == '.' || s[0] == '\n' then [] else [s[0]] + FirstPart(s[1..])
  }

  const CLIP := 80

  /** What of a description the name is made from. */
  function Clipped(description: string): string {
    var first := FirstPart(TrimWhite(description));
    if |first| > CLIP then first[..CLIP] else first
  }

  function PathChar(c: char): char {
    if c == '{' || c == '}' || c == '/' then '_' else c
  }

  function DropSlashes(path: string): string {
    if path != [] && path[0] == '/' then DropSlashes(path[1..]) else path
  }

  function MethodPathFallback(httpMethod: string, path: string): string {
    var rest := DropSlashes(path);
    seq(|httpMethod|, i requires 0 <= i < |httpMethod| => ToLower(httpMethod[i])) + "_"
    + seq(|rest|, i requires 0 <= i < |rest| => PathChar(rest[i]))
  }

  /** The normal form of a source, when there is one and it is not empty. */
  function RawFrom(text: Option<string>, isOperationId: bool): string {
    if text.Some? && TrimWhite(text.value) != [] then NormalizeRaw(TrimWhite(text.value), isOperationId) else []
  }

  function RawFromDescription(text: Option<string>): string {
    if text.Some? && TrimWhite(text.value) != [] then NormalizeRaw(Clipped(text.value), false) else []
  }

  function Candidate(src: NameSource): NamedTool {
    var id := RawFrom(src.operationId, true);
    var summary := RawFrom(src.summary, false);
    var description := RawFromDescription(src.description);
    if id != [] then NamedTool(Finish(id), OperationId)
    else if summary != [] then NamedTool(Finish(summary), Summary)
    else if description != [] then NamedTool(Finish(description), Description)
    else NamedTool(Normalize(MethodPathFallback(src.httpMethod, src.pathTemplate), false), Fallback)
  }

  // ---------------------------------------------------------------- when a source gives a name

  predicate WordChar(c: char) { Upper(c) || Lower(c) || Digit(c) }

  predicate HasWord(s: string) {
    exists i :: 0 <= i < |s| && WordChar(s[i])
  }

  lemma HasWordAppend(s: string, t: string)
    ensures HasWord(s + t) <==> HasWord(s) || HasWord(t)
  {
    if HasWord(s) {
      var i :| 0 <= i < |s| && WordChar(s[i]);
      assert WordChar((s + t)[i]);
    }
    if HasWord(t) {
      var i :| 0 <= i < |t| && WordChar(t[i]);
      assert WordChar((s + t)[|s| + i]);
    }
  }

  lemma {:induction false} SnakeKeepsWords(s: string, n: nat)
    requires n <= |s|
    ensures HasWord(Snake(s, n)) <==> HasWord(s[..n])
  {
    if n > 0 {
      SnakeKeepsWords(s, n - 1);
      assert s[..n] == s[..n - 1] + [s[n - 1]];
      HasWordAppend(s[..n - 1], [s[n - 1]]);
      HasWordAppend(Snake(s, n - 1), SnakePiece(s, n - 1));
      assert WordChar([s[n - 1]][0]) <==> HasWord([s[n - 1]]);
      PieceWord(s, n - 1);
    }
  }

  lemma PieceWord(s: string, i: nat)
    requires i < |s|
    ensures HasWord(SnakePiece(s, i)) <==> WordChar(s[i])
  {
    var piece := SnakePiece(s, i);
    if WordChar(s[i]) { assert WordChar(piece[|piece| - 1]); }
  }

  lemma {:induction false} CollapsedKeepsWords(s: string)
    requires Tidy(s)
    ensures HasWord(Collapsed(s)) <==> HasWord(s)
  {
    if s != [] {
      var n := |s| - 1;
      CollapsedKeepsWords(s[..n]);
      assert s == s[..n] + [s[n]];
      var last := if !Sep(s[n]) then [s[n]] else if n > 0 && Sep(s[n - 1]) then [] else "_";
      HasWordAppend(s[..n], [s[n]]);
      HasWordAppend(Collapsed(s[..n]), last);
      assert WordChar([s[n]][0]) <==> HasWord([s[n]]);
      assert last != [] ==> (WordChar(last[0]) <==> HasWord(last));
    }
  }

  lemma {:induction false} TrimStartKeepsWords(s: string)
    ensures HasWord(TrimStart(s)) <==> HasWord(s)
  {
    if s != [] && Sep(s[0]) {
      assert s == [s[0]] + s[1..];
      HasWordAppend([s[0]], s[1..]);
      TrimStartKeepsWords(s[1..]);
    }
  }

  lemma {:induction false} TrimEndKeepsWords(s: string)
    ensures HasWord(TrimEnd(s)) <==> HasWord(s)
  {
    if s != [] && Sep(s[|s| - 1]) {
      assert s == s[..|s| - 1] + [s[|s| - 1]];
      HasWordAppend(s[..|s| - 1], [s[|s| - 1]]);
      TrimEndKeepsWords(s[..|s| - 1]);
    }
  }

  /** A slug that is not empty starts with a letter or a digit. */
  lemma SlugHasWord(s: string)
    requires Slug(s)
    ensures s != [] <==> HasWord(s)
  {
    if s != [] { assert Plain(s[0]) && WordChar(s[0]); }
  }

  lemma SluggedKeepsWords(s: string)
    ensures HasWord(Slugged(s)) <==> HasWord(s)
  {
    SnakeKeepsWords(s, |s|);
    assert s[..|s|] == s;
    var snake := Snake(s, |s|);
    var cleaned := CleanedAll(snake);
    assert forall i :: 0 <= i < |snake| ==> (WordChar(snake[i]) <==> WordChar(cleaned[i]));
    assert HasWord(cleaned) <==> HasWord(snake);
    CollapsedKeepsWords(cleaned);
    TrimStartKeepsWords(Collapsed(cleaned));
    TrimEndKeepsWords(TrimStart(Collapsed(cleaned)));
  }

  lemma CutKeepsWords(s: string)
    requires Slug(s)
    ensures Cut(s) == [] <==> s == []
  {
    if |s| > MAX_NAME {
      var cut := s[..MAX_NAME];
      assert cut[0] == s[0] && Plain(s[0]);
      TrimEndKeeps(cut, 0);
    }
  }

  /** A text gives no name exactly when it has no ASCII letter and no digit. */
  lemma EmptyIffNoWord(source: string, isOperationId: bool)
    ensures NormalizeRaw(source, isOperationId) == [] <==> !HasWord(source)
  {
    var s := if isOperationId then OpIdSource(source) else source;
    assert forall i :: 0 <= i < |s| ==> (WordChar(s[i]) <==> WordChar(source[i]));
    assert HasWord(s) <==> HasWord(source);
    SluggedKeepsWords(s);
    SluggedShape(s);
    SlugHasWord(Slugged(s));
    CutKeepsWords(Slugged(s));
  }

  lemma {:induction false} TrimWhiteKeepsWords(s: string)
    ensures HasWord(TrimWhite(s)) <==> HasWord(s)
  {
    if s != [] {
      if White(s[0]) {
        assert s == [s[0]] + s[1..];
        HasWordAppend([s[0]], s[1..]);
        TrimWhiteKeepsWords(s[1..]);
      } else if White(s[|s| - 1]) {
        assert s == s[..|s| - 1] + [s[|s| - 1]];
        HasWordAppend(s[..|s| - 1], [s[|s| - 1]]);
        TrimWhiteKeepsWords(s[..|s| - 1]);
      }
    }
  }

  predicate GivesWord(text: Option<string>) {
    text.Some? && HasWord(text.value)
  }

  lemma RawFromWord(text: Option<string>, isOperationId: bool)
    ensures RawFrom(text, isOperationId) != [] <==> GivesWord(text)
  {
    if text.Some? {
      TrimWhiteKeepsWords(text.value);
      EmptyIffNoWord(TrimWhite(text.value), isOperationId);
    }
  }

  predicate DescriptionGivesWord(text: Option<string>) {
    text.Some? && HasWord(Clipped(text.value))
  }

  lemma RawFromDescriptionWord(text: Option<string>)
    ensures RawFromDescription(text) != [] <==> DescriptionGivesWord(text)
  {
    if text.Some? { EmptyIffNoWord(Clipped(text.value), false); }
  }

  /** The tool is named after the first of operation id, summary, and the clipped description
      that holds an ASCII letter or digit, and after method and path when none does. */
  lemma CandidateIsFirstUsable(src: NameSource)
    ensures var kind := Candidate(src).sourceKind;
      && (kind == OperationId <==> GivesWord(src.operationId))
      && (kind == Summary <==> !GivesWord(src.operationId) && GivesWord(src.summary))
      && (kind == Description <==>
            !GivesWord(src.operationId) && !GivesWord(src.summary) && DescriptionGivesWord(src.description))
  {
    RawFromWord(src.operationId, true);
    RawFromWord(src.summary, false);
    RawFromDescriptionWord(src.description);
  }

  /** Every tool gets a slug of 1 to 68 characters that is not reserved, whatever its sources say. */
  lemma CandidateIsGood(src: NameSource)
    ensures var name := Candidate(src).name;
      Slug(name) && 1 <= |name| <= 68 && !IsReserved(name)
  {
    var id := RawFrom(src.operationId, true);
    var summary := RawFrom(src.summary, false);
    var description := RawFromDescription(src.description);
    if id != [] {
      NormalizedName(TrimWhite(src.operationId.value), true);
    } else if summary != [] {
      NormalizedName(TrimWhite(src.summary.value), false);
    } else if description != [] {
      NormalizedName(Clipped(src.description.value), false);
    } else {
      NormalizedName(MethodPathFallback(src.httpMethod, src.pathTemplate), false);
    }
  }
}
