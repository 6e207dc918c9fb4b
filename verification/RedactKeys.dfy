/** All needles, one pass each, and secrets in JSON values (`map.rs`). */
module RedactKeys {
  import opened Json
  import opened Redact

  const REDACT_KEYS: seq<string> := [
    "authorization", "cookie", "set-cookie", "x-api-key", "x-api_key", "access_token", "refresh_token",
    "password", "secret", "api_key", "apikey", "private_key", "client_secret"]

  /** `str::replace` of one character by another. */
  function MapChar(s: string, from: char, to: char): (r: string)
    ensures |r| == |s| && forall i :: 0 <= i < |s| ==> r[i] == if s[i] == from then to else s[i]
  {
    seq(|s|, i requires 0 <= i < |s| => if s[i] == from then to else s[i])
  }

  /** The key as it is, with underscores, and with hyphens. */
  function Variant(key: string, v: nat): string {
    match v
    case 0 => key
    case 1 => MapChar(key, '-', '_')
    case _ => MapChar(key, '_', '-')
  }

  /** The needles in the order in which the text is searched for them. */
  function NeedlesOf(key: string): seq<string> {
    [Variant(key, 0) + "=", Variant(key, 0) + ":", Variant(key, 1) + "=", Variant(key, 1) + ":",
     Variant(key, 2) + "=", Variant(key, 2) + ":"]
  }

  function Needles(keys: seq<string>): seq<string> {
    if keys == [] then [] else NeedlesOf(keys[0]) + Needles(keys[1..])
  }

  function PassAll(s: string, needles: seq<string>): string
    requires forall i :: 0 <= i < |needles| ==> needles[i] != []
    decreases |needles|
  {
    if needles == [] then s else PassAll(Pass(s, needles[0], 0), needles[1..])
  }

  predicate GoodNeedles(needles: seq<string>) {
    forall i :: 0 <= i < |needles| ==> GoodNeedle(needles[i])
  }

  predicate GoodKey(key: string) {
    forall i :: 0 <= i < |key| ==> KeyChar(key[i])
  }

  lemma KeyNeedles(key: string)
    requires GoodKey(key)
    ensures GoodNeedles(NeedlesOf(key))
  {
  }

  lemma {:induction false} AllNeedlesGood(keys: seq<string>)
    requires forall i :: 0 <= i < |keys| ==> GoodKey(keys[i])
    ensures GoodNeedles(Needles(keys))
  {
    if keys != [] {
      KeyNeedles(keys[0]);
      AllNeedlesGood(keys[1..]);
    }
  }

  lemma KeysAreGood()
    ensures forall i :: 0 <= i < |REDACT_KEYS| ==> GoodKey(REDACT_KEYS[i])
    ensures GoodNeedles(Needles(REDACT_KEYS))
  {
    assert GoodKey("authorization") && GoodKey("cookie") && GoodKey("set-cookie") && GoodKey("x-api-key");
    assert GoodKey("x-api_key") && GoodKey("access_token") && GoodKey("refresh_token") && GoodKey("password");
    assert GoodKey("secret") && GoodKey("api_key") && GoodKey("apikey") && GoodKey("private_key");
    assert GoodKey("client_secret");
    AllNeedlesGood(REDACT_KEYS);
  }

  // ---------------------------------------------------------------- the whole text

  method RedactKey(input: string, key: string, ghost more: seq<string>) returns (out: string)
    requires GoodKey(key) && GoodNeedles(more)
    ensures (KeyNeedles(key); PassAll(input, NeedlesOf(key) + more) == PassAll(out, more))
  {
    KeyNeedles(key);
    out := input;
    var v := 0;
    ghost var needles := NeedlesOf(key);
    assert needles[0..] + more == needles + more;
    while v < 3
      invariant v <= 3
      invariant PassAll(out, needles[2 * v..] + more) == PassAll(input, needles + more)
    {
      assert (needles[2 * v..] + more)[1..] == needles[2 * v + 1..] + more;
      assert (needles[2 * v + 1..] + more)[1..] == needles[2 * v + 2..] + more;
      var variant := Variant(key, v);
      out := RedactAll(out, variant + "=");
      out := RedactAll(out, variant + ":");
      v := v + 1;
    }
    assert needles[6..] + more == more;
  }

  method RedactAllKeys(input: string, keys: seq<string>) returns (out: string)
    requires (forall i :: 0 <= i < |keys| ==> GoodKey(keys[i])) && GoodNeedles(Needles(keys))
    ensures out == PassAll(input, Needles(keys))
  {
    out := input;
    var k := 0;
    assert keys[0..] == keys;
    while k < |keys|
      invariant k <= |keys|
      invariant GoodNeedles(Needles(keys[k..]))
      invariant PassAll(out, Needles(keys[k..])) == PassAll(input, Needles(keys))
    {
      assert keys[k..][0] == keys[k] && keys[k..][1..] == keys[k + 1..];
      AllNeedlesGood(keys[k + 1..]);
      out := RedactKey(out, keys[k], Needles(keys[k + 1..]));
      k := k + 1;
    }
    assert keys[k..] == [];
  }

  /** `redact_text`: one pass per key variant and separator. */
  method RedactText(input: string) returns (out: string)
    ensures out == Redacted(input)
  {
    KeysAreGood();
    out := RedactAllKeys(input, REDACT_KEYS);
  }

  function Redacted(s: string): string {
    KeysAreGood();
    PassAll(s, Needles(REDACT_KEYS))
  }

  ghost predicate AllClean(s: string, needles: seq<string>) {
    forall i :: 0 <= i < |needles| ==> Clean(s, needles[i])
  }

  /** No later pass undoes an earlier one. */
  lemma {:induction false} PassAllCleans(s: string, done: seq<string>, todo: seq<string>)
    requires GoodNeedles(done) && GoodNeedles(todo) && AllClean(s, done)
    ensures AllClean(PassAll(s, todo), done) && AllClean(PassAll(s, todo), todo)
    decreases |todo|
  {
    if todo != [] {
      var t := Pass(s, todo[0], 0);
      PassCleans(s, todo[0], 0);
      forall i | 0 <= i < |done| ensures Clean(t, done[i]) { PassKeepsClean(s, todo[0], done[i], 0); }
      PassAllCleans(t, done + [todo[0]], todo[1..]);
      var out := PassAll(s, todo);
      assert (done + [todo[0]])[|done|] == todo[0];
      forall i | 0 <= i < |done| ensures Clean(out, done[i]) { assert (done + [todo[0]])[i] == done[i]; }
      forall i | 0 <= i < |todo| ensures Clean(out, todo[i]) {
        if i > 0 { assert todo[1..][i - 1] == todo[i]; }
      }
    }
  }

  lemma {:induction false} PassAllOnClean(s: string, needles: seq<string>)
    requires GoodNeedles(needles) && AllClean(s, needles)
    ensures PassAll(s, needles) == s
    decreases |needles|
  {
    if needles != [] {
      PassOnClean(s, needles[0], 0);
      PassAllOnClean(s, needles[1..]);
    }
  }

  /** For every text: each match of any key variant, in any case, is afterwards followed by white
      space only and then the mark, where the value is over. */
  lemma RedactedIsClean(s: string)
    ensures AllClean(Redacted(s), Needles(REDACT_KEYS))
  {
    KeysAreGood();
    PassAllCleans(s, [], Needles(REDACT_KEYS));
  }

  /** Exactly the clean texts are left alone; those without any needle are among them. */
  lemma UnchangedIffClean(s: string)
    ensures Redacted(s) == s <==> AllClean(s, Needles(REDACT_KEYS))
    ensures Redacted(Redacted(s)) == Redacted(s)
  {
    KeysAreGood();
    RedactedIsClean(s);
    PassAllOnClean(Redacted(s), Needles(REDACT_KEYS));
    if AllClean(s, Needles(REDACT_KEYS)) { PassAllOnClean(s, Needles(REDACT_KEYS)); }
  }

  lemma NoNeedleNoChange(s: string)
    requires forall i: nat, k :: 0 <= k < |Needles(REDACT_KEYS)| ==> !MatchAt(s, i, Needles(REDACT_KEYS)[k])
    ensures Redacted(s) == s
  {
    UnchangedIffClean(s);
  }

  // ---------------------------------------------------------------- JSON values

  function LowerAll(s: string): string {
    seq(|s|, i requires 0 <= i < |s| => Lower(s[i]))
  }

  predicate EndsWith(s: string, suffix: string) {
    |suffix| <= |s| && s[|s| - |suffix|..] == suffix
  }

  /** A key is secret by its whole name or by the last parts of it. */
  predicate IsRedactKey(name: string) {
    var normalized := MapChar(LowerAll(name), '_', '-');
    exists i :: 0 <= i < |REDACT_KEYS| &&
      (normalized == MapChar(REDACT_KEYS[i], '_', '-') || EndsWith(normalized, "-" + MapChar(REDACT_KEYS[i], '_', '-')))
  }

  /** A value in which every field named by `secret` is covered and every other string is
      replaced by `text`. */
  function Covered(v: Json, secret: string -> bool, text: string -> string): Json
    decreases v, 0
  {
    match v
    case Object(m) => Object(map k | k in m :: CoveredField(k, m[k], secret, text))
    case Array(items) => Array(seq(|items|, i requires 0 <= i < |items| => Covered(items[i], secret, text)))
    case Str(s) => Str(text(s))
    case _ => v
  }

  function CoveredField(key: string, child: Json, secret: string -> bool, text: string -> string): Json
    decreases child, 1
  {
    if secret(key) then Str(MARK) else Covered(child, secret, text)
  }

  function RedactedValue(v: Json): Json {
    Covered(v, IsRedactKey, Redacted)
  }

  /** `redact_value`, with its two loops. */
  method RedactValue(value: Json) returns (out: Json)
    ensures out == RedactedValue(value)
    decreases value, 1
  {
    match value {
      case Object(_) => out := RedactFields(value);
      case Array(_) => out := RedactItems(value);
      case Str(s) =>
        var text := RedactText(s);
        out := Str(text);
      case _ => out := value;
    }
  }

  /** What becomes of one field. */
  method RedactField(key: string, child: Json) returns (out: Json)
    ensures out == CoveredField(key, child, IsRedactKey, Redacted)
    decreases child, 2
  {
    if IsRedactKey(key) {
      out := Str(MARK);
    } else {
      out := RedactValue(child);
    }
  }

  method RedactFields(value: Json) returns (out: Json)
    requires value.Object?
    ensures out == RedactedValue(value)
    decreases value, 0
  {
    var fields := value.fields;
    var m := fields;
    var keys := m.Keys;
    ghost var covered := RedactedValue(value).fields;
    while keys != {}
      invariant keys <= m.Keys == fields.Keys
      invariant forall k :: k in keys ==> m[k] == fields[k]
      invariant forall k :: k in fields && k !in keys ==> m[k] == covered[k]
      decreases |keys|
    {
      var key :| key in keys;
      var child := RedactField(key, fields[key]);
      m := m[key := child];
      keys := keys - {key};
    }
    assert m == covered;
    out := Object(m);
  }

  method RedactItems(value: Json) returns (out: Json)
    requires value.Array?
    ensures out == RedactedValue(value)
    decreases value, 0
  {
    var items := value.items;
    var done: seq<Json> := [];
    for n := 0 to |items|
      invariant |done| == n && forall i :: 0 <= i < n ==> done[i] == RedactedValue(items[i])
    {
      var item := RedactValue(items[n]);
      done := done + [item];
    }
    out := Array(done);
  }

  /** Nothing secret is left: secret fields hold the mark, all other text is clean. */
  ghost predicate Safe(v: Json, secret: string -> bool, clean: string -> bool) {
    match v
    case Object(m) => forall k :: k in m ==> if secret(k) then m[k] == Str(MARK) else Safe(m[k], secret, clean)
    case Array(items) => forall i :: 0 <= i < |items| ==> Safe(items[i], secret, clean)
    case Str(s) => clean(s)
    case _ => true
  }

  lemma {:induction false} CoveredIsSafe(v: Json, secret: string -> bool, text: string -> string, clean: string -> bool)
    requires forall s :: clean(text(s))
    ensures Safe(Covered(v, secret, text), secret, clean)
    decreases v
  {
    match v {
      case Object(m) =>
        forall k | k in m && !secret(k) ensures Safe(Covered(m[k], secret, text), secret, clean) {
          CoveredIsSafe(m[k], secret, text, clean);
        }
      case Array(items) =>
        var out := Covered(v, secret, text).items;
        assert |out| == |items|;
        forall i | 0 <= i < |items| ensures Safe(out[i], secret, clean) {
          assert out[i] == Covered(items[i], secret, text);
          CoveredIsSafe(items[i], secret, text, clean);
        }
      case _ =>
    }
  }

  lemma {:induction false} SafeIsUnchanged(v: Json, secret: string -> bool, text: string -> string,
                                           clean: string -> bool)
    requires (forall s :: clean(s) ==> text(s) == s) && Safe(v, secret, clean)
    ensures Covered(v, secret, text) == v
    decreases v
  {
    match v {
      case Object(m) =>
        forall k | k in m && !secret(k) ensures Covered(m[k], secret, text) == m[k] {
          SafeIsUnchanged(m[k], secret, text, clean);
        }
        assert Covered(v, secret, text).fields == m;
      case Array(items) =>
        forall i | 0 <= i < |items| ensures Covered(items[i], secret, text) == items[i] {
          SafeIsUnchanged(items[i], secret, text, clean);
        }
        assert Covered(v, secret, text).items == items;
      case _ =>
    }
  }

  ghost function CleanText(): string -> bool {
    (s: string) => AllClean(s, Needles(REDACT_KEYS))
  }

  /** Redacting a value leaves nothing secret in it, and changes it exactly when something was. */
  lemma ValueIsRedacted(v: Json)
    ensures Safe(RedactedValue(v), IsRedactKey, CleanText())
    ensures RedactedValue(v) == v <==> Safe(v, IsRedactKey, CleanText())
  {
    forall s ensures CleanText()(Redacted(s)) { RedactedIsClean(s); }
    CoveredIsSafe(v, IsRedactKey, Redacted, CleanText());
    if Safe(v, IsRedactKey, CleanText()) {
      forall s | CleanText()(s) ensures Redacted(s) == s { UnchangedIffClean(s); }
      SafeIsUnchanged(v, IsRedactKey, Redacted, CleanText());
    }
  }
}
