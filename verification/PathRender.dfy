/** Filling the path template of an execution plan. */
module PathRender {
  import opened Base64
  import opened Percent
  import opened Text

  datatype ProxyError = Schema(what: string) | OpenRedirect
  datatype Result<T> = Ok(value: T) | Err(error: ProxyError)

  datatype ArgBinding = ArgBinding(argName: string, wireName: string)

  /** The text of every argument, in bytes. */
  type Args = map<string, seq<byte>>

  /** Bytes as characters: enough to look for ASCII text in them. */
  function AsText(raw: seq<byte>): string {
    seq(|raw|, i requires 0 <= i < |raw| => raw[i] as char)
  }

  predicate Suspicious(decoded: string) {
    Contains(decoded, "://") || Contains(decoded, "..") || Contains(decoded, "/")
  }

  /** `encode_path_segment` and `reject_open_redirect` for one binding. */
  function Segment(args: Args, b: ArgBinding): Result<string> {
    if b.argName !in args then Err(Schema(b.argName))
    else
      var encoded := PercentEncode(args[b.argName]);
      if Suspicious(AsText(PercentDecode(encoded))) then Err(OpenRedirect) else Ok(encoded)
  }

  function Needle(name: string): (needle: string)
    ensures needle != []
  {
    "{" + name + "}"
  }

  function Step(path: string, b: ArgBinding, encoded: string): string {
    if !Contains(path, Needle(b.wireName)) then Replace(path, Needle(b.argName), encoded)
    else Replace(path, Needle(b.wireName), encoded)
  }

  /** One binding after the other. */
  function Replaced(path: string, bindings: seq<ArgBinding>, args: Args): Result<string>
    decreases bindings
  {
    if bindings == [] then Ok(path)
    else match Segment(args, bindings[0])
      case Err(e) => Err(e)
      case Ok(encoded) => Replaced(Step(path, bindings[0], encoded), bindings[1..], args)
  }

  function Checked(path: string): Result<string> {
    if Contains(path, "{") then Err(Schema("path"))
    else if Contains(path, "://") || Contains(path, "..") then Err(OpenRedirect)
    else Ok(path)
  }

  function Rendered(template: string, bindings: seq<ArgBinding>, args: Args): Result<string> {
    match Replaced(template, bindings, args)
    case Err(e) => Err(e)
    case Ok(path) => Checked(path)
  }

  /** The path loop of `render` and the checks after it. */
  method RenderPath(template: string, bindings: seq<ArgBinding>, args: Args) returns (r: Result<string>)
    ensures r == Rendered(template, bindings, args)
  {
    var path := template;
    for i := 0 to |bindings|
      invariant Replaced(template, bindings, args) == Replaced(path, bindings[i..], args)
    {
      var binding := bindings[i];
      assert bindings[i..][0] == binding && bindings[i..][1..] == bindings[i + 1..];
      var encoded := Segment(args, binding);
      if encoded.Err? { return encoded; }
      var needle := Needle(binding.wireName);
      if !Contains(path, needle) {
        path := Replace(path, Needle(binding.argName), encoded.value);
      } else {
        path := Replace(path, needle, encoded.value);
      }
    }
    r := Checked(path);
  }

  // ---------------------------------------------------------------- templates

  datatype Part = Lit(text: string) | Hole(name: string)

  predicate WellFormed(t: seq<Part>) {
    forall i :: 0 <= i < |t| ==> PartOk(t[i])
  }

  predicate PartOk(p: Part) {
    match p
    case Lit(text) => '{' !in text
    case Hole(name) => '{' !in name && '}' !in name
  }

  function PartText(p: Part): string {
    match p
    case Lit(text) => text
    case Hole(name) => Needle(name)
  }

  function TextOf(t: seq<Part>): string {
    if t == [] then [] else PartText(t[0]) + TextOf(t[1..])
  }

  /** Every hole that has a value gets it, all at once. */
  function Fill(t: seq<Part>, values: map<string, string>): (r: seq<Part>)
    ensures |r| == |t|
    ensures forall i :: 0 <= i < |t| ==> r[i] == FillPart(t[i], values)
  {
    seq(|t|, i requires 0 <= i < |t| => FillPart(t[i], values))
  }

  function FillPart(p: Part, values: map<string, string>): Part {
    if p.Hole? && p.name in values then Lit(values[p.name]) else p
  }

  lemma OtherHole(name: string, other: string, rest: string)
    requires '}' !in name && '}' !in other
    ensures Needle(name) <= Needle(other) + rest ==> name == other
  {
    var needle, s := Needle(name), Needle(other) + rest;
    if |name| < |other| {
      assert s[1 + |name|] == other[|name|] && needle[1 + |name|] == '}';
    } else if |other| < |name| {
      assert needle[1 + |other|] == name[|other|] && s[1 + |other|] == '}';
    } else {
      assert name == needle[1..1 + |name|] && other == s[1..1 + |other|];
    }
  }

  lemma SkipHole(other: string, rest: string, name: string, with: string)
    requires '{' !in other && '}' !in other && '}' !in name && name != other
    ensures Replace(Needle(other) + rest, Needle(name), with) == Needle(other) + Replace(rest, Needle(name), with)
  {
    var s := Needle(other) + rest;
    OtherHole(name, other, rest);
    var tail := other + "}";
    assert '{' !in tail;
    assert s == "{" + (tail + rest);
    ReplaceHead(s, Needle(name), with, "{", tail + rest);
    SkipPiece(tail, rest, Needle(name), with);
    assert "{" + (tail + Replace(rest, Needle(name), with)) == Needle(other) + Replace(rest, Needle(name), with);
  }

  /** Replacing a needle in the text fills the holes of that name, and nothing else. */
  lemma {:induction false} ReplaceFills(t: seq<Part>, name: string, with: string)
    requires WellFormed(t) && '{' !in name && '}' !in name
    ensures Replace(TextOf(t), Needle(name), with) == TextOf(Fill(t, map[name := with]))
  {
    if t != [] {
      ReplaceFills(t[1..], name, with);
      var values := map[name := with];
      assert Fill(t, values)[1..] == Fill(t[1..], values);
      var rest := TextOf(t[1..]);
      assert PartOk(t[0]);
      match t[0]
      case Lit(text) => SkipPiece(text, rest, Needle(name), with);
      case Hole(other) =>
        if other == name {
          ReplaceHead(TextOf(t), Needle(name), with, Needle(name), rest);
        } else {
          SkipHole(other, rest, name, with);
        }
    }
  }

  // ---------------------------------------------------------------- sequential is simultaneous

  predicate PlainBinding(b: ArgBinding) {
    b.argName == b.wireName
  }

  predicate HasHole(t: seq<Part>, name: string) {
    exists i :: 0 <= i < |t| && t[i] == Hole(name)
  }

  /** No wire name has braces; each is that of its argument, as `lower_parameters` makes them, or
      names a hole; and only names that are that of their argument are bound twice. */
  predicate Aimed(t: seq<Part>, bindings: seq<ArgBinding>) {
    && (forall i :: 0 <= i < |bindings| ==> '{' !in bindings[i].wireName && '}' !in bindings[i].wireName)
    && (forall i :: 0 <= i < |bindings| ==> PlainBinding(bindings[i]) || HasHole(t, bindings[i].wireName))
    && (forall i, j :: 0 <= i < j < |bindings| && bindings[i].wireName == bindings[j].wireName
          ==> PlainBinding(bindings[i]) && PlainBinding(bindings[j]))
  }

  function Wires(bindings: seq<ArgBinding>): set<string> {
    set i | 0 <= i < |bindings| :: bindings[i].wireName
  }

  /** The argument behind a wire name. */
  function ArgFor(bindings: seq<ArgBinding>, wire: string): string {
    if bindings == [] then wire
    else if bindings[0].wireName == wire then bindings[0].argName
    else ArgFor(bindings[1..], wire)
  }

  /** The arguments by wire name. */
  function ByWire(bindings: seq<ArgBinding>, args: Args): Args {
    map w | w in Wires(bindings) && ArgFor(bindings, w) in args :: args[ArgFor(bindings, w)]
  }

  /** What every bound hole is filled with. */
  function Values(names: set<string>, args: Args): map<string, string> {
    map name | name in names && name in args :: PercentEncode(args[name])
  }

  /** An argument that may not stand in a path segment. */
  predicate Unsafe(raw: seq<byte>) {
    Contains(AsText(raw), "/") || Contains(AsText(raw), "..")
  }

  predicate AllSafe(names: set<string>, args: Args) {
    forall name :: name in names ==> name in args && !Unsafe(args[name])
  }

  /** The redirect guard looks through the encoding at the argument itself. */
  lemma GuardSeesArgument(raw: seq<byte>)
    ensures Suspicious(AsText(PercentDecode(PercentEncode(raw)))) <==> Unsafe(raw)
  {
    PercentRoundTrip(raw);
    var text := AsText(raw);
    if Contains(text, "://") {
      var i :| 0 <= i <= |text| && At(text, i, "://");
      assert text[i..][1] == '/';
      assert At(text, i + 1, "/");
    }
  }

  lemma SegmentOf(args: Args, b: ArgBinding)
    ensures Segment(args, b).Ok? <==> b.argName in args && !Unsafe(args[b.argName])
    ensures Segment(args, b).Ok? ==> Segment(args, b).value == PercentEncode(args[b.argName])
  {
    if b.argName in args { GuardSeesArgument(args[b.argName]); }
  }

  /** The needle of a hole is found in the text. */
  lemma {:induction false} HoleIsFound(t: seq<Part>, i: nat)
    requires i < |t| && t[i].Hole?
    ensures Contains(TextOf(t), Needle(t[i].name))
  {
    var needle, head, rest := Needle(t[i].name), PartText(t[0]), TextOf(t[1..]);
    if i == 0 {
      assert TextOf(t)[0..] == TextOf(t) && needle <= TextOf(t);
      assert At(TextOf(t), 0, needle);
    } else {
      HoleIsFound(t[1..], i - 1);
      var k :| 0 <= k <= |rest| && At(rest, k, needle);
      assert TextOf(t)[|head| + k..] == rest[k..];
      assert At(TextOf(t), |head| + k, needle);
    }
  }

  lemma StepFills(t: seq<Part>, b: ArgBinding, encoded: string)
    requires WellFormed(t) && '{' !in b.wireName && '}' !in b.wireName
    requires PlainBinding(b) || HasHole(t, b.wireName)
    ensures Step(TextOf(t), b, encoded) == TextOf(Fill(t, map[b.wireName := encoded]))
  {
    if HasHole(t, b.wireName) {
      var i :| 0 <= i < |t| && t[i] == Hole(b.wireName);
      HoleIsFound(t, i);
    }
    ReplaceFills(t, b.wireName, encoded);
  }

  lemma FilledIsWellFormed(t: seq<Part>, names: set<string>, args: Args)
    requires WellFormed(t)
    ensures WellFormed(Fill(t, Values(names, args)))
  {
    var values := Values(names, args);
    forall i | 0 <= i < |t| ensures PartOk(FillPart(t[i], values)) {
      assert PartOk(t[i]);
      if t[i].Hole? && t[i].name in values { EncodedShape(args[t[i].name]); }
    }
  }

  /** Filling one name and then others is filling them together: a value that is in place is
      not looked at again. */
  lemma FillTogether(t: seq<Part>, name: string, value: string, more: map<string, string>)
    ensures Fill(Fill(t, map[name := value]), more) == Fill(t, more[name := value])
  {
  }

  /** The first binding and the others, by wire name. */
  lemma ByWireSplit(t: seq<Part>, bindings: seq<ArgBinding>, args: Args)
    requires bindings != [] && Aimed(t, bindings) && bindings[0].argName in args
    ensures ByWire(bindings, args) == ByWire(bindings[1..], args)[bindings[0].wireName := args[bindings[0].argName]]
  {
    var b, rest := bindings[0], bindings[1..];
    WiresSplit(bindings);
    if b.wireName in Wires(rest) {
      var j :| 0 <= j < |rest| && rest[j].wireName == b.wireName;
      assert bindings[j + 1] == rest[j];
      PlainArgFor(rest, b.wireName);
    }
  }

  lemma {:induction false} PlainArgFor(bindings: seq<ArgBinding>, wire: string)
    requires forall i :: 0 <= i < |bindings| && bindings[i].wireName == wire ==> PlainBinding(bindings[i])
    ensures ArgFor(bindings, wire) == wire
  {
    if bindings != [] && bindings[0].wireName != wire { PlainArgFor(bindings[1..], wire); }
  }

  /** Filling one hole leaves the other bindings aimed. */
  lemma StillAimed(t: seq<Part>, bindings: seq<ArgBinding>, encoded: string)
    requires bindings != [] && Aimed(t, bindings)
    ensures Aimed(Fill(t, map[bindings[0].wireName := encoded]), bindings[1..])
  {
    var b, rest := bindings[0], bindings[1..];
    var filled := Fill(t, map[b.wireName := encoded]);
    forall i | 0 <= i < |rest| && !PlainBinding(rest[i]) ensures HasHole(filled, rest[i].wireName) {
      assert bindings[i + 1] == rest[i] && rest[i].wireName != b.wireName;
      var k :| 0 <= k < |t| && t[k] == Hole(rest[i].wireName);
      assert filled[k] == t[k];
    }
    assert forall i, j :: 0 <= i < j < |rest| ==> rest[i] == bindings[i + 1] && rest[j] == bindings[j + 1];
  }

  lemma FirstArgAgain(t: seq<Part>, bindings: seq<ArgBinding>, args: Args)
    requires bindings != [] && Aimed(t, bindings) && bindings[0].wireName in Wires(bindings[1..])
    ensures ArgFor(bindings[1..], bindings[0].wireName) == bindings[0].argName
  {
    var j :| 0 <= j < |bindings[1..]| && bindings[1..][j].wireName == bindings[0].wireName;
    assert bindings[j + 1] == bindings[1..][j];
    PlainArgFor(bindings[1..], bindings[0].wireName);
  }

  /** What is bound, by wire name: all of it is there and safe exactly when the first is and the rest is. */
  lemma SafeSplit(t: seq<Part>, bindings: seq<ArgBinding>, args: Args)
    requires bindings != [] && Aimed(t, bindings)
    ensures AllSafe(Wires(bindings), ByWire(bindings, args)) <==>
      && bindings[0].argName in args && !Unsafe(args[bindings[0].argName])
      && AllSafe(Wires(bindings[1..]), ByWire(bindings[1..], args))
  {
    var b, rest := bindings[0], bindings[1..];
    WiresSplit(bindings);
    assert ArgFor(bindings, b.wireName) == b.argName;
    if b.argName in args {
      ByWireSplit(t, bindings, args);
      if b.wireName in Wires(rest) { FirstArgAgain(t, bindings, args); }
      SafeWithOne(Wires(rest), ByWire(rest, args), b.wireName, args[b.argName]);
    }
  }

  lemma SafeWithOne(names: set<string>, args: Args, name: string, raw: seq<byte>)
    requires name in names && name in args ==> args[name] == raw
    requires name in names ==> name in args
    ensures AllSafe({name} + names, args[name := raw]) <==> !Unsafe(raw) && AllSafe(names, args)
  {
  }

  lemma OneFilledIsWellFormed(t: seq<Part>, name: string, raw: seq<byte>)
    requires WellFormed(t)
    ensures WellFormed(Fill(t, map[name := PercentEncode(raw)]))
  {
    EncodedShape(raw);
  }

  /** `r` is `t` with all bindings filled in, if all their arguments are there and safe. */
  ghost predicate Fills(t: seq<Part>, bindings: seq<ArgBinding>, args: Args, r: Result<string>) {
    && (r.Ok? <==> AllSafe(Wires(bindings), ByWire(bindings, args)))
    && (r.Ok? ==> r.value == TextOf(Fill(t, Values(Wires(bindings), ByWire(bindings, args)))))
  }

  lemma ValuesSplit(t: seq<Part>, bindings: seq<ArgBinding>, args: Args)
    requires bindings != [] && Aimed(t, bindings) && bindings[0].argName in args
    ensures Values(Wires(bindings), ByWire(bindings, args)) ==
      Values(Wires(bindings[1..]), ByWire(bindings[1..], args))
        [bindings[0].wireName := PercentEncode(args[bindings[0].argName])]
  {
    ByWireSplit(t, bindings, args);
    WiresSplit(bindings);
  }

  lemma FillsFirst(t: seq<Part>, bindings: seq<ArgBinding>, args: Args, encoded: string, r: Result<string>)
    requires bindings != [] && Aimed(t, bindings) && Segment(args, bindings[0]) == Ok(encoded)
    requires Fills(Fill(t, map[bindings[0].wireName := encoded]), bindings[1..], args, r)
    ensures Fills(t, bindings, args, r)
  {
    SegmentOf(args, bindings[0]);
    SafeSplit(t, bindings, args);
    ValuesSplit(t, bindings, args);
    FillTogether(t, bindings[0].wireName, encoded, Values(Wires(bindings[1..]), ByWire(bindings[1..], args)));
  }

  lemma FillsNot(t: seq<Part>, bindings: seq<ArgBinding>, args: Args, e: ProxyError)
    requires bindings != [] && Aimed(t, bindings) && Segment(args, bindings[0]).Err?
    ensures Fills(t, bindings, args, Err(e))
  {
    SegmentOf(args, bindings[0]);
    SafeSplit(t, bindings, args);
  }

  lemma {:induction false} Sequential(t: seq<Part>, bindings: seq<ArgBinding>, args: Args)
    requires WellFormed(t) && Aimed(t, bindings)
    ensures Fills(t, bindings, args, Replaced(TextOf(t), bindings, args))
    decreases bindings
  {
    if bindings == [] {
      assert Fill(t, Values(Wires(bindings), ByWire(bindings, args))) == t;
    } else {
      var b := bindings[0];
      match Segment(args, b) {
        case Err(e) => FillsNot(t, bindings, args, e);
        case Ok(encoded) =>
          SegmentOf(args, b);
          StepFills(t, b, encoded);
          OneFilledIsWellFormed(t, b.wireName, args[b.argName]);
          StillAimed(t, bindings, encoded);
          var filled := Fill(t, map[b.wireName := encoded]);
          Sequential(filled, bindings[1..], args);
          FillsFirst(t, bindings, args, encoded, Replaced(TextOf(filled), bindings[1..], args));
      }
    }
  }

  lemma WiresSplit(bindings: seq<ArgBinding>)
    requires bindings != []
    ensures Wires(bindings) == {bindings[0].wireName} + Wires(bindings[1..])
  {
    forall x | x in Wires(bindings) ensures x in {bindings[0].wireName} + Wires(bindings[1..]) {
      var i :| 0 <= i < |bindings| && bindings[i].wireName == x;
      if i > 0 { assert bindings[1..][i - 1].wireName == x; }
    }
    forall x | x in Wires(bindings[1..]) ensures x in Wires(bindings) {
      var i :| 0 <= i < |bindings[1..]| && bindings[1..][i].wireName == x;
      assert bindings[i + 1].wireName == x;
    }
  }

  predicate AllFilled(t: seq<Part>) {
    forall i :: 0 <= i < |t| ==> t[i].Lit?
  }

  lemma {:induction false} BraceIffHole(t: seq<Part>)
    requires WellFormed(t)
    ensures '{' in TextOf(t) <==> !AllFilled(t)
  {
    if t != [] {
      BraceIffHole(t[1..]);
      assert PartOk(t[0]);
      assert TextOf(t) == PartText(t[0]) + TextOf(t[1..]);
      if t[0].Hole? { assert PartText(t[0])[0] == '{'; }
      assert AllFilled(t) <==> t[0].Lit? && AllFilled(t[1..]);
    }
  }

  lemma ContainsChar(s: string, c: char)
    ensures Contains(s, [c]) <==> c in s
  {
    if c in s {
      var i :| 0 <= i < |s| && s[i] == c;
      assert At(s, i, [c]);
    }
    if Contains(s, [c]) {
      var i :| 0 <= i <= |s| && At(s, i, [c]);
      assert s[i..][0] == c;
    }
  }

  /** `r` is the template with every bound hole filled at once; it is a path exactly when every
      bound argument is present and safe, no hole is left over, and the text has no `://` and
      no `..`. */
  ghost predicate IsSubstitution(t: seq<Part>, names: set<string>, args: Args, r: Result<string>) {
    var filled := Fill(t, Values(names, args));
    && (r.Ok? <==>
          && AllSafe(names, args)
          && AllFilled(filled)
          && !Contains(TextOf(filled), "://") && !Contains(TextOf(filled), ".."))
    && (r.Ok? ==> r.value == TextOf(filled))
  }

  /** For a well-formed template the loop over the bindings is one simultaneous substitution. */
  lemma RenderedIsSubstitution(t: seq<Part>, bindings: seq<ArgBinding>, args: Args)
    requires WellFormed(t) && Aimed(t, bindings)
    ensures IsSubstitution(t, Wires(bindings), ByWire(bindings, args), Rendered(TextOf(t), bindings, args))
  {
    Sequential(t, bindings, args);
    var filled := Fill(t, Values(Wires(bindings), ByWire(bindings, args)));
    FilledIsWellFormed(t, Wires(bindings), ByWire(bindings, args));
    BraceIffHole(filled);
    ContainsChar(TextOf(filled), '{');
  }

  // ---------------------------------------------------------------- which error it is

  /** The argument is missing or not safe. */
  predicate Faulty(b: ArgBinding, args: Args) {
    b.argName !in args || Unsafe(args[b.argName])
  }

  function FaultOf(b: ArgBinding, args: Args): ProxyError {
    if b.argName !in args then Schema(b.argName) else OpenRedirect
  }

  /** Binding `i` is the first with such an argument. */
  predicate FirstFault(bindings: seq<ArgBinding>, args: Args, i: nat) {
    i < |bindings| && Faulty(bindings[i], args) && forall j :: 0 <= j < i ==> !Faulty(bindings[j], args)
  }

  lemma {:induction false} FaultStops(path: string, bindings: seq<ArgBinding>, args: Args, i: nat)
    requires FirstFault(bindings, args, i)
    ensures Replaced(path, bindings, args) == Err(FaultOf(bindings[i], args))
    decreases bindings
  {
    var b, rest := bindings[0], bindings[1..];
    SegmentOf(args, b);
    if i > 0 {
      assert !Faulty(bindings[0], args) && rest[i - 1] == bindings[i];
      assert forall j :: 0 <= j < i - 1 ==> rest[j] == bindings[j + 1];
      FaultStops(Step(path, b, Segment(args, b).value), rest, args, i - 1);
    }
  }

  lemma {:induction false} NoFaultGoesOn(path: string, bindings: seq<ArgBinding>, args: Args)
    requires forall j :: 0 <= j < |bindings| ==> !Faulty(bindings[j], args)
    ensures Replaced(path, bindings, args).Ok?
    decreases bindings
  {
    if bindings != [] {
      SegmentOf(args, bindings[0]);
      NoFaultGoesOn(Step(path, bindings[0], Segment(args, bindings[0]).value), bindings[1..], args);
    }
  }

  /** The first argument that is missing or not safe decides the error and names it; when there is none,
      a hole that is left is an error of the path, and only then a `://` or `..` in the text one. */
  lemma ErrorIsNamed(t: seq<Part>, bindings: seq<ArgBinding>, args: Args)
    requires WellFormed(t) && Aimed(t, bindings)
    ensures forall i: nat :: FirstFault(bindings, args, i) ==>
      Rendered(TextOf(t), bindings, args) == Err(FaultOf(bindings[i], args))
    ensures (forall j :: 0 <= j < |bindings| ==> !Faulty(bindings[j], args)) ==>
      var filled := Fill(t, Values(Wires(bindings), ByWire(bindings, args)));
      && (!AllFilled(filled) ==> Rendered(TextOf(t), bindings, args) == Err(Schema("path")))
      && (AllFilled(filled) && (Contains(TextOf(filled), "://") || Contains(TextOf(filled), "..")) ==>
            Rendered(TextOf(t), bindings, args) == Err(OpenRedirect))
  {
    forall i: nat | FirstFault(bindings, args, i)
      ensures Replaced(TextOf(t), bindings, args) == Err(FaultOf(bindings[i], args))
    {
      FaultStops(TextOf(t), bindings, args, i);
    }
    if forall j :: 0 <= j < |bindings| ==> !Faulty(bindings[j], args) {
      NoFaultGoesOn(TextOf(t), bindings, args);
      Sequential(t, bindings, args);
      var filled := Fill(t, Values(Wires(bindings), ByWire(bindings, args)));
      FilledIsWellFormed(t, Wires(bindings), ByWire(bindings, args));
      BraceIffHole(filled);
      ContainsChar(TextOf(filled), '{');
    }
  }

  lemma SubstitutionIsUnique(t: seq<Part>, names: set<string>, args: Args, r: Result<string>, q: Result<string>)
    requires IsSubstitution(t, names, args, r) && IsSubstitution(t, names, args, q)
    ensures r == q || (r.Err? && q.Err?)
  {
  }

  lemma OrderOfBindingsDoesNotMatter(t: seq<Part>, some: seq<ArgBinding>, other: seq<ArgBinding>, args: Args)
    requires WellFormed(t) && Aimed(t, some) && Aimed(t, other)
    requires multiset(some) == multiset(other)
    ensures var r, q := Rendered(TextOf(t), some, args), Rendered(TextOf(t), other, args);
      r == q || (r.Err? && q.Err?)
  {
    SameWires(some, other);
    SameWires(other, some);
    assert Wires(some) == Wires(other);
    forall w | w in Wires(some) ensures ArgFor(some, w) == ArgFor(other, w) { SameArgFor(t, some, other, w); }
    assert ByWire(some, args) == ByWire(other, args);
    RenderedIsSubstitution(t, some, args);
    RenderedIsSubstitution(t, other, args);
    SubstitutionIsUnique(t, Wires(some), ByWire(some, args), Rendered(TextOf(t), some, args),
      Rendered(TextOf(t), other, args));
  }

  /** A binding says which argument its wire name stands for. */
  lemma {:induction false} ArgForBinding(t: seq<Part>, bindings: seq<ArgBinding>, i: nat)
    requires Aimed(t, bindings) && i < |bindings|
    ensures ArgFor(bindings, bindings[i].wireName) == bindings[i].argName
    decreases bindings
  {
    if i > 0 && bindings[0].wireName != bindings[i].wireName {
      var rest := bindings[1..];
      assert forall j :: 0 <= j < |rest| ==> rest[j] == bindings[j + 1];
      assert Aimed(t, rest);
      ArgForBinding(t, rest, i - 1);
    }
  }

  lemma SameArgFor(t: seq<Part>, some: seq<ArgBinding>, other: seq<ArgBinding>, w: string)
    requires Aimed(t, some) && Aimed(t, other) && multiset(some) == multiset(other) && w in Wires(some)
    ensures ArgFor(some, w) == ArgFor(other, w)
  {
    var i :| 0 <= i < |some| && some[i].wireName == w;
    assert some[i] in multiset(some) && some[i] in other;
    var j :| 0 <= j < |other| && other[j] == some[i];
    ArgForBinding(t, some, i);
    ArgForBinding(t, other, j);
  }

  lemma SameWires(some: seq<ArgBinding>, other: seq<ArgBinding>)
    requires multiset(some) == multiset(other)
    ensures Wires(some) <= Wires(other)
  {
    forall x | x in Wires(some) ensures x in Wires(other) {
      var i :| 0 <= i < |some| && some[i].wireName == x;
      assert some[i] in multiset(some);
      assert some[i] in other;
      var j :| 0 <= j < |other| && other[j] == some[i];
      assert other[j].wireName == x;
    }
  }

  // ---------------------------------------------------------------- segments

  function Slashes(s: string): nat {
    if s == [] then 0 else (if s[0] == '/' then 1 else 0) + Slashes(s[1..])
  }

  lemma {:induction false} SlashesAppend(s: string, t: string)
    ensures Slashes(s + t) == Slashes(s) + Slashes(t)
  {
    if s == [] {
      assert s + t == t;
    } else {
      SlashesAppend(s[1..], t);
      assert (s + t)[1..] == s[1..] + t;
    }
  }

  lemma {:induction false} NoSlashes(s: string)
    requires '/' !in s
    ensures Slashes(s) == 0
  {
    if s != [] {
      assert s[0] in s;
      NoSlashes(s[1..]);
    }
  }

  predicate SlashFreeNames(t: seq<Part>) {
    forall i :: 0 <= i < |t| ==> t[i].Hole? ==> '/' !in t[i].name
  }

  /** No argument adds or removes a path segment. */
  lemma {:induction false} SegmentsAreKept(t: seq<Part>, names: set<string>, args: Args)
    requires SlashFreeNames(t)
    ensures Slashes(TextOf(Fill(t, Values(names, args)))) == Slashes(TextOf(t))
  {
    if t != [] {
      var values := Values(names, args);
      var filled := Fill(t, values);
      SegmentsAreKept(t[1..], names, args);
      assert filled[1..] == Fill(t[1..], values);
      SlashesAppend(PartText(t[0]), TextOf(t[1..]));
      SlashesAppend(PartText(filled[0]), TextOf(filled[1..]));
      if t[0].Hole? {
        NoSlashes(Needle(t[0].name));
        if t[0].name in values {
          EncodedShape(args[t[0].name]);
          NoSlashes(values[t[0].name]);
        }
      }
    }
  }
}
