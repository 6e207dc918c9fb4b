/** Exactly when a rendered path determines the arguments in it: `PathDetermines` for the paths that
    `render` really returns, which hold no argument with `/` or `..`. */
module RenderedPaths {
  import opened Base64
  import opened Percent
  import opened PathRender
  import opened PathReading
  import opened PathDetermines
  import opened Text

  lemma {:induction false} PlainStart(s: string)
    requires '%' !in s
    ensures EncodedStart(s) <==> AllAlphaNum(s)
  {
    if s != [] && AlphaNum(s[0]) {
      PlainStart(s[1..]);
      assert forall k :: 0 < k < |s| ==> s[k] == s[1..][k - 1];
    }
  }

  /** Every argument is bound under its own name, as `lower_parameters` binds them. */
  predicate PlainBindings(bindings: seq<ArgBinding>) {
    forall i :: 0 <= i < |bindings| ==>
      PlainBinding(bindings[i]) && '{' !in bindings[i].wireName && '}' !in bindings[i].wireName
  }

  lemma PlainByWire(bindings: seq<ArgBinding>, args: Args)
    requires PlainBindings(bindings)
    ensures ByWire(bindings, args) == map w | w in Wires(bindings) && w in args :: args[w]
  {
    forall w ensures ArgFor(bindings, w) == w { PlainArgFor(bindings, w); }
  }

  predicate Present(t: seq<Part>, bindings: seq<ArgBinding>, args: Args) {
    && AllSafe(Wires(bindings), args)
    && forall i :: 0 <= i < |t| && t[i].Hole? ==> t[i].name in Wires(bindings)
  }

  predicate CleanPath(path: string) { !Contains(path, "://") && !Contains(path, "..") }

  lemma FilledWith(t: seq<Part>, bindings: seq<ArgBinding>, args: Args)
    requires PlainBindings(bindings) && AllSafe(Wires(bindings), args)
    ensures var filled := Fill(t, Values(Wires(bindings), ByWire(bindings, args)));
      && (AllFilled(filled) <==> Present(t, bindings, args))
      && (Present(t, bindings, args) ==> HolesHave(t, args) && TextOf(filled) == PathOf(t, args))
  {
    PlainByWire(bindings, args);
    var values := Values(Wires(bindings), ByWire(bindings, args));
    forall i | 0 <= i < |t| ensures FillPart(t[i], values).Lit? <==> t[i].Lit? || t[i].name in Wires(bindings) {}
    var filled := Fill(t, values);
    assert AllFilled(filled) <==> forall i :: 0 <= i < |t| ==> filled[i].Lit?;
    if Present(t, bindings, args) { assert filled == Fill(t, Values(args.Keys, args)); }
  }

  /** What is rendered, for plain bindings. */
  lemma RenderedIff(t: seq<Part>, bindings: seq<ArgBinding>, args: Args)
    requires WellFormed(t) && PlainBindings(bindings)
    ensures Present(t, bindings, args) ==> HolesHave(t, args)
    ensures var r := Rendered(TextOf(t), bindings, args);
      && (r.Ok? <==> Present(t, bindings, args) && CleanPath(PathOf(t, args)))
      && (r.Ok? ==> r.value == PathOf(t, args))
  {
    RenderedIsSubstitution(t, bindings, args);
    PlainByWire(bindings, args);
    assert AllSafe(Wires(bindings), ByWire(bindings, args)) <==> AllSafe(Wires(bindings), args);
    if AllSafe(Wires(bindings), args) { FilledWith(t, bindings, args); }
  }

  // ---------------------------------------------------------------- harmless arguments

  /** Letters and digits, at least one. */
  predicate Harmless(raw: seq<byte>) {
    raw != [] && forall i :: 0 <= i < |raw| ==> AlphaNum(raw[i] as char)
  }

  predicate AllAlphaNum(s: string) { forall i :: 0 <= i < |s| ==> AlphaNum(s[i]) }

  predicate Word(s: string) { s != [] && AllAlphaNum(s) }

  lemma {:induction false} HarmlessIsWord(raw: seq<byte>)
    requires Harmless(raw)
    ensures Word(PercentEncode(raw))
  {
    if |raw| > 1 { HarmlessIsWord(raw[1..]); } else { assert PercentEncode(raw[1..]) == []; }
  }

  lemma HarmlessIsSafe(raw: seq<byte>)
    requires Harmless(raw)
    ensures !Unsafe(raw)
  {
    var text := AsText(raw);
    forall k, n: string | 0 <= k <= |text| && At(text, k, n) && n != [] ensures AlphaNum(n[0]) {
      assert text[k..][0] == n[0];
    }
  }

  /** A text without letters and digits is not found across a word. */
  lemma FoundBeside(a: string, v: string, b: string, n: string)
    requires Word(v) && n != [] && (forall k :: 0 <= k < |n| ==> !AlphaNum(n[k])) && Contains(a + (v + b), n)
    ensures Contains(a, n) || Contains(b, n)
  {
    var s := a + (v + b);
    var k :| 0 <= k <= |s| && At(s, k, n);
    assert forall p :: k <= p < k + |n| ==> s[p] == s[k..][p - k] == n[p - k];
    var p := if k < |a| then |a| else k;
    assert |a| <= p < |a| + |v| ==> s[p] == v[p - |a|];
    assert k <= p < k + |n| ==> !AlphaNum(s[p]);
    if k + |n| <= |a| {
      assert a[k..][..|n|] == n;
      assert At(a, k, n);
    } else {
      assert s[k..] == b[k - |a| - |v|..];
      assert At(b, k - |a| - |v|, n);
    }
  }

  lemma FoundInside(a: string, b: string, n: string)
    requires Contains(a, n) || Contains(b, n)
    ensures Contains(a + b, n)
  {
    if Contains(a, n) {
      var k :| 0 <= k <= |a| && At(a, k, n);
      assert (a + b)[k..] == a[k..] + b;
      assert At(a + b, k, n);
    } else {
      var k :| 0 <= k <= |b| && At(b, k, n);
      assert (a + b)[|a| + k..] == b[k..];
      assert At(a + b, |a| + k, n);
    }
  }

  /** With harmless arguments, such a text is found only where it is found with any others. */
  lemma {:induction false} FoundAnyway(t: seq<Part>, some: Args, other: Args, n: string)
    requires HolesHave(t, some) && HolesHave(t, other) && AllHarmless(some)
    requires n != [] && (forall k :: 0 <= k < |n| ==> !AlphaNum(n[k])) && Contains(PathOf(t, some), n)
    ensures Contains(PathOf(t, other), n)
    decreases |t|
  {
    var from := FromHole(t);
    LeadThenHole(t, some);
    LeadThenHole(t, other);
    if from != [] {
      PathOfSplit(from, some);
      PathOfSplit(from, other);
      var v, b := PercentEncode(some[from[0].name]), PathOf(from[1..], some);
      HarmlessIsWord(some[from[0].name]);
      FoundBeside(Lead(t), v, b, n);
      if Contains(b, n) {
        FoundAnyway(from[1..], some, other, n);
        FoundInside(PercentEncode(other[from[0].name]), PathOf(from[1..], other), n);
      }
      FoundInside(Lead(t), PathOf(from, other), n);
    }
  }

  lemma NothingNew(t: seq<Part>, some: Args, other: Args, n: string)
    requires HolesHave(t, some) && HolesHave(t, other) && AllHarmless(some)
    requires n != [] && (forall k :: 0 <= k < |n| ==> !AlphaNum(n[k])) && !Contains(PathOf(t, other), n)
    ensures !Contains(PathOf(t, some), n)
  {
    if Contains(PathOf(t, some), n) { FoundAnyway(t, some, other, n); }
  }

  /** If any arguments can be rendered, harmless ones can. */
  lemma HarmlessRenders(t: seq<Part>, bindings: seq<ArgBinding>, args: Args, some: Args)
    requires WellFormed(t) && PlainBindings(bindings) && Rendered(TextOf(t), bindings, args).Ok?
    requires Wires(bindings) <= some.Keys && AllHarmless(some)
    ensures Rendered(TextOf(t), bindings, some).Ok?
  {
    RenderedIff(t, bindings, args);
    forall name | name in some ensures !Unsafe(some[name]) { HarmlessIsSafe(some[name]); }
    assert Present(t, bindings, some);
    RenderedIff(t, bindings, some);
    NothingNew(t, some, args, "..");
    NothingNew(t, some, args, "://");
  }

  // ---------------------------------------------------------------- the exact condition, for rendered paths

  /** Two argument objects that are rendered as one path. */
  predicate OnePath(t: seq<Part>, bindings: seq<ArgBinding>, some: Args, other: Args) {
    var r := Rendered(TextOf(t), bindings, some);
    r.Ok? && r == Rendered(TextOf(t), bindings, other)
  }

  /** A rendered path determines the arguments of all holes. */
  ghost predicate RenderedDetermines(t: seq<Part>, bindings: seq<ArgBinding>) {
    forall some: Args, other: Args :: OnePath(t, bindings, some, other) ==> SameArguments(t, some, other)
  }

  predicate SameArguments(t: seq<Part>, some: Args, other: Args) {
    HolesHave(t, some) && HolesHave(t, other) && SameAtHoles(t, some, other)
  }

  /** Every literal text between two successive holes has a character that is no letter and no digit. */
  predicate MarkedApart(t: seq<Part>) {
    forall i :: 0 <= i < |t| && t[i].Hole? ==> NextMarked(t[i + 1..])
  }

  predicate NextMarked(rest: seq<Part>) {
    FromHole(rest) != [] ==> !AllAlphaNum(Lead(rest))
  }

  /** No literal text between two successive holes has a `%`. */
  predicate NoPercent(t: seq<Part>) {
    forall i :: 0 <= i < |t| && t[i].Hole? ==> NextNoPercent(t[i + 1..])
  }

  predicate NextNoPercent(rest: seq<Part>) {
    FromHole(rest) != [] ==> '%' !in Lead(rest)
  }

  lemma MarkedIffApart(t: seq<Part>)
    requires NoPercent(t)
    ensures MarkedApart(t) <==> HolesApart(t)
  {
    forall i | 0 <= i < |t| && t[i].Hole? ensures NextMarked(t[i + 1..]) <==> NextApart(t[i + 1..]) {
      assert NextNoPercent(t[i + 1..]);
      if FromHole(t[i + 1..]) != [] { PlainStart(Lead(t[i + 1..])); }
    }
  }

  predicate AllHarmless(args: Args) { forall n :: n in args ==> Harmless(args[n]) }

  lemma MadeHarmless(args: Args, e: seq<byte>, q: seq<byte>)
    requires MadeOf(args, e, q) && Harmless(e) && Harmless(q)
    ensures AllHarmless(args)
  {
    assert Harmless(q + e) && Harmless([49] + e) && Harmless([49]);
  }

  /** What completes a text of letters and digits is harmless. */
  lemma CompletedWord(l: string) returns (e: seq<byte>)
    requires AllAlphaNum(l)
    ensures Harmless(e) && PercentEncode(e) == l + PercentEncode([49])
  {
    e := DigitsAreEncoded(l);
    EncodeAppend(e, [49]);
    e := e + [49];
  }

  /** Two harmless argument objects with one path. */
  lemma HarmlessReadings(t: seq<Part>, i: nat) returns (some: Args, other: Args)
    requires i < |t| && t[i].Hole? && !NextMarked(t[i + 1..]) && DistinctHoles(t)
    ensures HolesHave(t, some) && HolesHave(t, other) && PathOf(t, some) == PathOf(t, other)
    ensures some[t[i].name] != other[t[i].name]
    ensures AllHarmless(some) && AllHarmless(other)
  {
    var e := CompletedWord(Lead(t[i + 1..]));
    some, other := TwoReadingsAt(t, i, e, [49]);
    MadeHarmless(some, e, [49]);
    MadeHarmless(other, e, [49]);
  }

  function OnesFor(names: set<string>): Args { map name | name in names :: [49] }

  lemma WithOnes(t: seq<Part>, args: Args, names: set<string>)
    returns (more: Args)
    requires HolesHave(t, args) && AllHarmless(args)
    ensures HolesHave(t, more) && names <= more.Keys && PathOf(t, more) == PathOf(t, args)
    ensures SameAtHoles(t, args, more) && AllHarmless(more)
  {
    more := OnesFor(names) + args;
    assert HolesHave(t, more) && SameAtHoles(t, args, more);
    SamePath(t, args, more);
  }

  lemma HarmlessOnePath(t: seq<Part>, bindings: seq<ArgBinding>, args: Args, a: Args, b: Args)
    requires WellFormed(t) && PlainBindings(bindings) && Rendered(TextOf(t), bindings, args).Ok?
    requires Wires(bindings) <= a.Keys && Wires(bindings) <= b.Keys && AllHarmless(a) && AllHarmless(b)
    requires HolesHave(t, a) && HolesHave(t, b) && PathOf(t, a) == PathOf(t, b)
    ensures OnePath(t, bindings, a, b)
  {
    HarmlessRenders(t, bindings, args, a);
    HarmlessRenders(t, bindings, args, b);
    RenderedIff(t, bindings, a);
    RenderedIff(t, bindings, b);
  }

  lemma RenderedTwice(t: seq<Part>, bindings: seq<ArgBinding>, args: Args, i: nat)
    requires WellFormed(t) && PlainBindings(bindings) && DistinctHoles(t) && Rendered(TextOf(t), bindings, args).Ok?
    requires i < |t| && t[i].Hole? && !NextMarked(t[i + 1..])
    ensures !RenderedDetermines(t, bindings)
  {
    var a, b := HarmlessReadings(t, i);
    var some := WithOnes(t, a, Wires(bindings));
    var other := WithOnes(t, b, Wires(bindings));
    HarmlessOnePath(t, bindings, args, some, other);
    assert !SameArguments(t, some, other);
  }

  lemma MarkedOnePath(t: seq<Part>, bindings: seq<ArgBinding>, some: Args, other: Args)
    requires WellFormed(t) && PlainBindings(bindings) && HolesApart(t) && OnePath(t, bindings, some, other)
    ensures SameArguments(t, some, other)
  {
    RenderedIff(t, bindings, some);
    RenderedIff(t, bindings, other);
    ApartDetermines(t, some, other);
  }

  /** For a template that some arguments can be rendered in: the path determines the arguments of all
      holes if and only if every literal text between two successive holes has a character that is
      no letter and no digit. */
  lemma RenderedDeterminesIffMarked(t: seq<Part>, bindings: seq<ArgBinding>, args: Args)
    requires WellFormed(t) && PlainBindings(bindings) && DistinctHoles(t) && NoPercent(t)
    requires Rendered(TextOf(t), bindings, args).Ok?
    ensures RenderedDetermines(t, bindings) <==> MarkedApart(t)
  {
    MarkedIffApart(t);
    if MarkedApart(t) {
      forall some: Args, other: Args | OnePath(t, bindings, some, other) ensures SameArguments(t, some, other) {
        MarkedOnePath(t, bindings, some, other);
      }
    } else {
      var i :| 0 <= i < |t| && t[i].Hole? && !NextMarked(t[i + 1..]);
      RenderedTwice(t, bindings, args, i);
    }
  }

  // ---------------------------------------------------------------- an example

  /** `/{a}x{b}` */
  function LetterBetween(): seq<Part> { [Lit("/"), Hole("a"), Lit("x"), Hole("b")] }

  lemma LetterBetweenPath(args: Args)
    requires "a" in args && "b" in args
    ensures PathOf(LetterBetween(), args) == "/" + (PercentEncode(args["a"]) + ("x" + PercentEncode(args["b"])))
  {
    var t := LetterBetween();
    assert t[1..] == [Hole("a"), Lit("x"), Hole("b")] && t[1..][1..] == [Lit("x"), Hole("b")];
    assert t[2..] == [Lit("x"), Hole("b")] && t[2..][1..] == [Hole("b")] && [Hole("b")][1..] == [];
    PathOfSplit(t, args);
    PathOfSplit(t[1..], args);
    PathOfSplit(t[2..], args);
    PathOfSplit([Hole("b")], args);
    assert PercentEncode(args["b"]) + PathOf([], args) == PercentEncode(args["b"]);
  }

  lemma LetterBetweenShape(t: seq<Part>, bindings: seq<ArgBinding>)
    requires t == LetterBetween() && bindings == [ArgBinding("a", "a"), ArgBinding("b", "b")]
    ensures WellFormed(t) && PlainBindings(bindings) && Wires(bindings) == {"a", "b"}
    ensures forall i :: 0 <= i < |t| && t[i].Hole? ==> t[i].name in Wires(bindings)
  {
    assert bindings[0].wireName == "a" && bindings[1].wireName == "b";
  }

  lemma AllLettersSafe(names: set<string>, args: Args)
    requires names == args.Keys && forall n :: n in args ==> args[n] == [] || args[n] == [120]
    ensures AllSafe(names, args)
  {
    forall n | n in args ensures !Unsafe(args[n]) { OneLetterIsSafe(args[n]); }
  }

  lemma SafeAndCleanRenders(t: seq<Part>, bindings: seq<ArgBinding>, args: Args, path: string)
    requires WellFormed(t) && PlainBindings(bindings) && AllSafe(Wires(bindings), args)
    requires forall i :: 0 <= i < |t| && t[i].Hole? ==> t[i].name in Wires(bindings)
    requires HolesHave(t, args) && PathOf(t, args) == path && CleanPath(path)
    ensures Rendered(TextOf(t), bindings, args) == Ok(path)
  {
    RenderedIff(t, bindings, args);
  }

  lemma LetterX(x: seq<byte>)
    requires x == [120]
    ensures PercentEncode(x) == "x" && PercentEncode(x[..0]) == ""
  {
    assert PercentEncode(x[1..]) == [];
  }

  /** In `/{a}x{b}` an empty text and `x` give the same path as `x` and an empty text: `/xx`. */
  lemma LetterBetweenIsAmbiguous(x: seq<byte>)
    requires x == [120]
    ensures
      var t, bindings := LetterBetween(), [ArgBinding("a", "a"), ArgBinding("b", "b")];
      && Rendered(TextOf(t), bindings, map["a" := [], "b" := x]) == Ok("/xx")
      && Rendered(TextOf(t), bindings, map["a" := x, "b" := []]) == Ok("/xx")
  {
    var t, bindings := LetterBetween(), [ArgBinding("a", "a"), ArgBinding("b", "b")];
    var some: Args := map["a" := [], "b" := x];
    var other: Args := map["a" := x, "b" := []];
    LetterX(x);
    LetterBetweenShape(t, bindings);
    LetterBetweenPath(some);
    LetterBetweenPath(other);
    assert "/" + ("" + ("x" + "x")) == "/xx" == "/" + ("x" + ("x" + ""));
    ShortIsClean("/xx");
    AllLettersSafe(Wires(bindings), some);
    AllLettersSafe(Wires(bindings), other);
    SafeAndCleanRenders(t, bindings, some, "/xx");
    SafeAndCleanRenders(t, bindings, other, "/xx");
  }

  lemma OneLetterIsSafe(raw: seq<byte>)
    requires raw == [] || raw == [120]
    ensures !Unsafe(raw)
  {
    if raw == [] {
      assert forall i :: 0 <= i <= 0 ==> !At(AsText(raw), i, "/") && !At(AsText(raw), i, "..");
    } else {
      HarmlessIsSafe(raw);
    }
  }

  lemma ShortIsClean(path: string)
    requires path == "/xx"
    ensures CleanPath(path)
  {
    forall k, n: string | 0 <= k <= |path| && At(path, k, n) && n != [] ensures n[0] in path {
      assert path[k..][0] == n[0];
    }
  }
}
