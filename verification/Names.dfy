/** How a tool name is made out of an operation id, a summary, a description or the path. */
module Names {

  // ---------------------------------------------------------------- characters

  predicate Upper(c: char) { 'A' <= c <= 'Z' }
  predicate Lower(c: char) { 'a' <= c <= 'z' }
  predicate Digit(c: char) { '0' <= c <= '9' }
  predicate Ascii(c: char) { c as int < 128 }
  predicate Sep(c: char) { c == '_' || c == '-' || c == '.' }

  function ToLower(c: char): char {
    if Upper(c) then (c as int + 32) as char else c
  }

  /** The only characters of a finished name. */
  predicate Plain(c: char) { Lower(c) || Digit(c) || c == '_' }

  ghost predicate NoDouble(s: string) {
    forall i, j :: 0 <= i < |s| && j == i + 1 < |s| ==> !(s[i] == '_' && s[j] == '_')
  }

  /** Lower-case words and numbers joined by single underscores, or nothing at all. */
  ghost predicate Slug(s: string) {
    && (forall i :: 0 <= i < |s| ==> Plain(s[i]))
    && NoDouble(s)
    && (s != [] ==> s[0] != '_' && s[|s| - 1] != '_')
  }

  // ---------------------------------------------------------------- camel case

  /** What `camel_to_snake` writes for the character at `i`. */
  function SnakePiece(s: string, i: nat): string
    requires i < |s|
  {
    if Upper(s[i]) then
      (if i > 0 && (Lower(s[i - 1]) || Digit(s[i - 1])) then "_" else []) + [ToLower(s[i])]
    else if Ascii(s[i]) then [s[i]]
    else []
  }

  function Snake(s: string, n: nat): string
    requires n <= |s|
  {
    if n == 0 then [] else Snake(s, n - 1) + SnakePiece(s, n - 1)
  }

  method CamelToSnake(s: string) returns (out: string)
    ensures out == Snake(s, |s|)
  {
    out := [];
    for i := 0 to |s|
      invariant out == Snake(s, i)
    {
      var ch := s[i];
      if Upper(ch) {
        if i > 0 {
          var prev := s[i - 1];
          if Lower(prev) || Digit(prev) { out := out + "_"; }
        }
        out := out + [ToLower(ch)];
      } else if Ascii(ch) {
        out := out + [ch];
      }
    }
  }

  // ---------------------------------------------------------------- separators

  function Cleaned(c: char): char {
    if Upper(c) || Lower(c) || Digit(c) || Sep(c) then ToLower(c) else '_'
  }

  function CleanedAll(s: string): (t: string)
    ensures |t| == |s|
    ensures forall i :: 0 <= i < |s| ==> t[i] == Cleaned(s[i])
  {
    seq(|s|, i requires 0 <= i < |s| => Cleaned(s[i]))
  }

  /** Every run of separators becomes one underscore. */
  function Collapsed(s: string): string {
    if s == [] then []
    else
      var n := |s| - 1;
      Collapsed(s[..n]) +
      if !Sep(s[n]) then [s[n]] else if n > 0 && Sep(s[n - 1]) then [] else "_"
  }

  method CollapseSeparators(s: string) returns (out: string)
    ensures out == Collapsed(s)
  {
    out := [];
    var lastSep := false;
    for i := 0 to |s|
      invariant out == Collapsed(s[..i])
      invariant lastSep <==> i > 0 && Sep(s[i - 1])
    {
      assert s[..i + 1][..i] == s[..i];
      var ch := s[i];
      if Sep(ch) {
        if !lastSep { out := out + "_"; }
        lastSep := true;
      } else {
        lastSep := false;
        out := out + [ch];
      }
    }
    assert s[..|s|] == s;
  }

  function TrimStart(s: string): (t: string)
    ensures |t| <= |s| && t == s[|s| - |t|..]
    ensures t != [] ==> !Sep(t[0])
    ensures s != [] && !Sep(s[0]) ==> t == s
  {
    if s == [] || !Sep(s[0]) then s else TrimStart(s[1..])
  }

  function TrimEnd(s: string): (t: string)
    ensures |t| <= |s| && t == s[..|t|]
    ensures t != [] ==> !Sep(t[|t| - 1])
    ensures s != [] && !Sep(s[|s| - 1]) ==> t == s
  {
    if s == [] || !Sep(s[|s| - 1]) then s else TrimEnd(s[..|s| - 1])
  }

  /** `trim_separators` */
  function Trimmed(s: string): string { TrimEnd(TrimStart(s)) }

  // ---------------------------------------------------------------- normal form

  const MAX_NAME := 64
  const MAX_TOOL_NAME := 128

  function OpIdSource(s: string): (t: string)
    ensures |t| == |s|
  {
    seq(|s|, i requires 0 <= i < |s| => if s[i] == '/' || s[i] == '.' then '_' else s[i])
  }

  /** Case, alphabet, runs of separators and the ends, in this order. */
  function Slugged(s: string): string {
    Trimmed(Collapsed(CleanedAll(Snake(s, |s|))))
  }

  /** `truncate_64`, for what is longer. */
  function Cut(s: string): string {
    if |s| > MAX_NAME then Trimmed(s[..MAX_NAME]) else s
  }

  function NormalizeRaw(source: string, isOperationId: bool): string {
    Cut(Slugged(if isOperationId then OpIdSource(source) else source))
  }

  lemma {:induction false} SnakeIsIdentityOn(s: string, n: nat)
    requires n <= |s| && forall i :: 0 <= i < |s| ==> Plain(s[i])
    ensures Snake(s, n) == s[..n]
  {
    if n > 0 { SnakeIsIdentityOn(s, n - 1); }
  }

  /** After cleaning only lower-case letters, digits and separators are left. */
  predicate Tidy(s: string) {
    forall i :: 0 <= i < |s| ==> Lower(s[i]) || Digit(s[i]) || Sep(s[i])
  }

  lemma {:induction false} CollapsedShape(s: string)
    requires Tidy(s)
    ensures var t := Collapsed(s);
      && (forall i :: 0 <= i < |t| ==> Plain(t[i]))
      && NoDouble(t)
      && (s == [] <==> t == [])
      && (s != [] ==> (t[|t| - 1] == '_' <==> Sep(s[|s| - 1])))
  {
    if s != [] {
      CollapsedShape(s[..|s| - 1]);
    }
  }

  lemma {:induction false} CollapsedIsIdentityOn(s: string)
    requires (forall i :: 0 <= i < |s| ==> Plain(s[i])) && NoDouble(s)
    ensures Collapsed(s) == s
  {
    if s != [] {
      CollapsedIsIdentityOn(s[..|s| - 1]);
      var n := |s| - 1;
      assert s == s[..n] + [s[n]];
      assert n > 0 && Sep(s[n]) ==> !Sep(s[n - 1]);
    }
  }

  /** A piece of such a text is such a text. */
  lemma PieceShape(s: string, i: nat, j: nat)
    requires i <= j <= |s| && (forall k :: 0 <= k < |s| ==> Plain(s[k])) && NoDouble(s)
    ensures (forall k :: 0 <= k < j - i ==> Plain(s[i..j][k])) && NoDouble(s[i..j])
  {
    var t := s[i..j];
    forall k, l | 0 <= k < |t| && l == k + 1 < |t| ensures !(t[k] == '_' && t[l] == '_') {
      assert t[k] == s[i + k] && t[l] == s[i + l];
    }
  }

  /** What is left after trimming is a piece with no separator at its ends. */
  lemma TrimmedPiece(s: string) returns (i: nat, j: nat)
    ensures i <= j <= |s| && Trimmed(s) == s[i..j]
    ensures i < j ==> !Sep(s[i]) && !Sep(s[j - 1])
    ensures s != [] && !Sep(s[0]) && !Sep(s[|s| - 1]) ==> i == 0 && j == |s|
  {
    var a := TrimStart(s);
    var b := TrimEnd(a);
    i := |s| - |a|;
    j := i + |b|;
    assert s[i..][..|b|] == s[i..j];
  }

  lemma TrimmedShape(s: string)
    requires (forall i :: 0 <= i < |s| ==> Plain(s[i])) && NoDouble(s)
    ensures Slug(Trimmed(s)) && |Trimmed(s)| <= |s|
    ensures Slug(s) ==> Trimmed(s) == s
  {
    var i, j := TrimmedPiece(s);
    PieceShape(s, i, j);
    if s == [] {
      assert s[i..j] == s;
    } else if !Sep(s[0]) && !Sep(s[|s| - 1]) {
      assert s[i..j] == s;
    }
  }

  lemma SluggedShape(s: string)
    ensures Slug(Slugged(s))
  {
    var cleaned := CleanedAll(Snake(s, |s|));
    CollapsedShape(cleaned);
    TrimmedShape(Collapsed(cleaned));
  }

  lemma SluggedIsIdentityOn(s: string)
    requires Slug(s)
    ensures Slugged(s) == s
  {
    SnakeIsIdentityOn(s, |s|);
    assert CleanedAll(s) == s;
    CollapsedIsIdentityOn(s);
    TrimmedShape(s);
  }

  lemma CutShape(s: string)
    requires Slug(s)
    ensures Slug(Cut(s)) && |Cut(s)| <= MAX_NAME
  {
    if |s| > MAX_NAME { TrimmedShape(s[..MAX_NAME]); }
  }

  lemma OpIdSourceOnSlug(s: string)
    requires Slug(s)
    ensures OpIdSource(s) == s
  {
  }

  /** A normal name is a slug of at most 64 characters, whatever it is made from. */
  lemma NormalFormIsSlug(source: string, isOperationId: bool)
    ensures Slug(NormalizeRaw(source, isOperationId))
    ensures |NormalizeRaw(source, isOperationId)| <= MAX_NAME
  {
    var s := if isOperationId then OpIdSource(source) else source;
    SluggedShape(s);
    CutShape(Slugged(s));
  }

  /** The names that normalising leaves alone are exactly the slugs of at most 64 characters;
      with `NormalFormIsSlug`, normalising twice is normalising once. */
  lemma FixedIffSlug(s: string, isOperationId: bool)
    ensures NormalizeRaw(s, isOperationId) == s <==> Slug(s) && |s| <= MAX_NAME
  {
    NormalFormIsSlug(s, isOperationId);
    if Slug(s) {
      OpIdSourceOnSlug(s);
      SluggedIsIdentityOn(s);
    }
  }

  lemma NormalizeTwice(source: string, first: bool, second: bool)
    ensures NormalizeRaw(NormalizeRaw(source, first), second) == NormalizeRaw(source, first)
  {
    NormalFormIsSlug(source, first);
    FixedIffSlug(NormalizeRaw(source, first), second);
  }

  /** The loops of `normalize_raw`, one after the other. */
  method NormalizeRawLoop(source: string, isOperationId: bool) returns (out: string)
    ensures out == NormalizeRaw(source, isOperationId)
  {
    var s := source;
    if isOperationId { s := OpIdSource(s); }
    s := CamelToSnake(s);
    out := [];
    for i := 0 to |s|
      invariant out == CleanedAll(s[..i])
    {
      var ch := s[i];
      if Upper(ch) || Lower(ch) || Digit(ch) || Sep(ch) {
        out := out + [ToLower(ch)];
      } else {
        out := out + ['_'];
      }
    }
    assert s[..|s|] == s;
    out := CollapseSeparators(out);
    out := Trimmed(out);
    if |out| > MAX_NAME { out := Trimmed(out[..MAX_NAME]); }
  }

  // ---------------------------------------------------------------- reserved names

  const RESERVED: set<string> := {
    "initialize", "ping", "shutdown", "tools_list", "tools_call", "resources_list",
    "prompts_list", "rpc", "rpc.internal"}

  predicate IsReserved(s: string) {
    s == [] || s in RESERVED || "mcp." <= s || "mcp_" <= s
  }

  /** `finish_reserved` */
  function Finish(out: string): string {
    if !IsReserved(out) then out
    else
      var renamed := if out == [] then "api_op" else "api_" + out;
      if |renamed| > MAX_TOOL_NAME then Trimmed(renamed[..MAX_TOOL_NAME]) else renamed
  }

  function Normalize(source: string, isOperationId: bool): string {
    Finish(NormalizeRaw(source, isOperationId))
  }

  /** No reserved name or prefix starts with an `a`. */
  lemma ApiIsNotReserved(s: string)
    requires s != [] && s[0] == 'a'
    ensures !IsReserved(s)
  {
    assert forall r :: r in RESERVED ==> r[0] != 'a';
    assert "mcp."[0] == "mcp_"[0] == 'm';
  }

  lemma ApiSlug(s: string)
    requires Slug(s) && s != []
    ensures Slug("api_" + s)
  {
    var t := "api_" + s;
    forall i, j | 0 <= i < j < |t| && j == i + 1 ensures !(t[i] == '_' && t[j] == '_') {
      if i >= 4 { assert t[i] == s[i - 4] && t[j] == s[j - 4]; }
    }
    assert t[|t| - 1] == s[|s| - 1];
  }

  /** Whatever comes in, the tool name is a slug of 1 to 68 characters that is not reserved. */
  lemma FinishedName(raw: string)
    requires Slug(raw) && |raw| <= MAX_NAME
    ensures var name := Finish(raw);
      Slug(name) && 1 <= |name| <= 68 && !IsReserved(name) && (name == raw || "api_" <= name)
  {
    if raw == [] {
      assert Slug("api_op");
      assert "api_" <= "api_op";
      ApiIsNotReserved("api_op");
    } else if IsReserved(raw) {
      ApiSlug(raw);
      ApiIsNotReserved("api_" + raw);
    }
  }

  lemma NormalizedName(source: string, isOperationId: bool)
    ensures var name := Normalize(source, isOperationId);
      Slug(name) && 1 <= |name| <= 68 && !IsReserved(name)
  {
    NormalFormIsSlug(source, isOperationId);
    FinishedName(NormalizeRaw(source, isOperationId));
  }

  /** A finished name is normalised to itself exactly when the reserved prefix has not made it
      longer than 64 characters. */
  lemma NormalizedTwice(source: string, first: bool, second: bool)
    ensures var name := Normalize(source, first);
      Normalize(name, second) == name <==> |name| <= MAX_NAME
  {
    var name := Normalize(source, first);
    NormalizedName(source, first);
    if |name| <= MAX_NAME {
      FixedIffSlug(name, second);
    } else {
      NormalFormIsSlug(source, first);
      FinishedName(NormalizeRaw(source, first));
      assert "api_" <= name;
      LongApiName(name, second);
    }
  }

  lemma {:induction false} TrimEndKeeps(s: string, k: nat)
    requires k < |s| && !Sep(s[k])
    ensures k < |TrimEnd(s)|
  {
    if Sep(s[|s| - 1]) { TrimEndKeeps(s[..|s| - 1], k); }
  }

  lemma CutKeepsHead(name: string)
    requires |name| > MAX_NAME && name[0] == 'a'
    ensures 0 < |Cut(name)| <= MAX_NAME && Cut(name)[0] == 'a'
  {
    var cut := name[..MAX_NAME];
    assert cut[0] == 'a';
    TrimEndKeeps(cut, 0);
  }

  /** Normalising a longer name cuts it, and the cut name still starts with `a`. */
  lemma LongApiName(name: string, isOperationId: bool)
    requires Slug(name) && |name| > MAX_NAME && name[0] == 'a'
    ensures |Normalize(name, isOperationId)| <= MAX_NAME
  {
    OpIdSourceOnSlug(name);
    SluggedIsIdentityOn(name);
    CutKeepsHead(name);
    ApiIsNotReserved(Cut(name));
  }
}
