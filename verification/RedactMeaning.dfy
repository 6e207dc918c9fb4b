/** What redaction promises, said character by character: which names are secret, which places of a text
    are needles, and what becomes of a text and of a JSON value. */
module RedactMeaning {
  import opened Json
  import opened Redact
  import opened RedactKeys
  import opened RedactSpans

  // ---------------------------------------------------------------- characters and keys

  const BLANKS: set<char> := {' ', '\t', '\n', '\r', '\U{000C}'}
  const STOPS: set<char> := {'&', '"', '\'', ',', '\n', '\r', '}'}
  const DASHES: set<char> := {'-', '_'}

  /** `c` is the lower-case letter `d`, or its capital. */
  predicate SameLetter(c: char, d: char) {
    if 'A' <= c <= 'Z' then d as int == c as int + 32 else d == c
  }

  predicate IsKey(key: string) {
    key == "authorization" || key == "cookie" || key == "set-cookie" || key == "x-api-key" || key == "x-api_key"
    || key == "access_token" || key == "refresh_token" || key == "password" || key == "secret" || key == "api_key"
    || key == "apikey" || key == "private_key" || key == "client_secret"
  }

  lemma KeysAre(key: string)
    ensures key in REDACT_KEYS <==> IsKey(key)
  {
    if IsKey(key) {
      assert REDACT_KEYS[0] == "authorization" && REDACT_KEYS[1] == "cookie" && REDACT_KEYS[2] == "set-cookie";
      assert REDACT_KEYS[3] == "x-api-key" && REDACT_KEYS[4] == "x-api_key" && REDACT_KEYS[5] == "access_token";
      assert REDACT_KEYS[6] == "refresh_token" && REDACT_KEYS[7] == "password" && REDACT_KEYS[8] == "secret";
      assert REDACT_KEYS[9] == "api_key" && REDACT_KEYS[10] == "apikey" && REDACT_KEYS[11] == "private_key";
      assert REDACT_KEYS[12] == "client_secret";
    }
  }

  // ---------------------------------------------------------------- secret names

  /** A letter of a name and one of a key, up to capitals; `-` and `_` are as good as each other. */
  predicate SameInName(c: char, d: char) {
    SameLetter(c, d) || (c in DASHES && d in DASHES)
  }

  /** From `start` on the name spells the key. */
  predicate SpelledFrom(name: string, start: nat, key: string) {
    |name| == start + |key| && forall i :: 0 <= i < |key| ==> SameInName(name[start + i], key[i])
  }

  /** The name is a key, or its last part behind a `-` or `_` is one. */
  predicate SecretBy(name: string, start: nat, key: string) {
    SpelledFrom(name, start, key) && (start == 0 || name[start - 1] in DASHES)
  }

  ghost predicate IsSecret(name: string) {
    exists start: nat, key: string :: IsKey(key) && SecretBy(name, start, key)
  }

  function Dashed(s: string): string { MapChar(s, '_', '-') }

  function NormalName(name: string): string { Dashed(LowerAll(name)) }

  lemma SameDashed(c: char, d: char)
    requires KeyChar(d)
    ensures SameInName(c, d) <==> (if Lower(c) == '_' then '-' else Lower(c)) == if d == '_' then '-' else d
  {
  }

  lemma SpelledIffDashed(name: string, start: nat, key: string)
    requires GoodKey(key) && |name| == start + |key|
    ensures SpelledFrom(name, start, key) <==> NormalName(name)[start..] == Dashed(key)
  {
    var n, k := NormalName(name), Dashed(key);
    forall i | 0 <= i < |key| ensures SameInName(name[start + i], key[i]) <==> n[start + i] == k[i] {
      SameDashed(name[start + i], key[i]);
    }
    if SpelledFrom(name, start, key) {
      assert n[start..] == k;
    } else {
      var i :| 0 <= i < |key| && !SameInName(name[start + i], key[i]);
      assert n[start..][i] == n[start + i] != k[i];
    }
  }

  lemma EndsWithKey(name: string, start: nat, key: string)
    requires GoodKey(key) && start > 0 && |name| == start + |key|
    ensures SecretBy(name, start, key) <==> EndsWith(NormalName(name), "-" + Dashed(key))
  {
    var n, tail := NormalName(name), "-" + Dashed(key);
    SpelledIffDashed(name, start, key);
    assert n[start - 1..] == [n[start - 1]] + n[start..];
    assert |n| - |tail| == start - 1;
    assert n[start - 1] == '-' <==> name[start - 1] in DASHES;
    if EndsWith(n, tail) { assert n[start - 1..][0] == '-' && n[start - 1..][1..] == tail[1..] == Dashed(key); }
  }

  lemma SecretByKey(name: string, key: string)
    requires GoodKey(key)
    ensures (exists start: nat :: SecretBy(name, start, key))
      <==> NormalName(name) == Dashed(key) || EndsWith(NormalName(name), "-" + Dashed(key))
  {
    var n := NormalName(name);
    if start: nat :| SecretBy(name, start, key) {
      SpelledIffDashed(name, start, key);
      if start == 0 { assert n[0..] == n; } else { EndsWithKey(name, start, key); }
    }
    if n == Dashed(key) {
      assert n[0..] == n;
      SpelledIffDashed(name, 0, key);
      assert SecretBy(name, 0, key);
    }
    if EndsWith(n, "-" + Dashed(key)) {
      EndsWithKey(name, |name| - |key|, key);
      assert SecretBy(name, |name| - |key|, key);
    }
  }

  /** The names that `is_redact_key` takes for secret, in any capitals. */
  lemma SecretIff(name: string)
    ensures IsRedactKey(name) <==> IsSecret(name)
  {
    KeysAreGood();
    if IsRedactKey(name) {
      var i :| 0 <= i < |REDACT_KEYS| && (NormalName(name) == Dashed(REDACT_KEYS[i])
        || EndsWith(NormalName(name), "-" + Dashed(REDACT_KEYS[i])));
      SecretByKey(name, REDACT_KEYS[i]);
      KeysAre(REDACT_KEYS[i]);
      var start: nat :| SecretBy(name, start, REDACT_KEYS[i]);
    }
    if start: nat, key: string :| IsKey(key) && SecretBy(name, start, key) {
      KeysAre(key);
      var i :| 0 <= i < |REDACT_KEYS| && REDACT_KEYS[i] == key;
      SecretByKey(name, REDACT_KEYS[i]);
    }
  }

  /** `Authorization` is secret, … */
  lemma CapitalsAreSecret(name: string)
    requires name == "Authorization"
    ensures IsSecret(name) && IsRedactKey(name)
  {
    var key := "authorization";
    assert name[0] == 'A' && key[0] == 'a' && name[1..] == key[1..];
    assert forall i :: 1 <= i < |key| ==> name[i] == name[1..][i - 1] == key[i];
    assert IsKey(key) && SecretBy(name, 0, key);
    SecretIff(name);
  }

  /** … and so is `user_password`. */
  lemma LastPartIsSecret(name: string)
    requires name == "user_password"
    ensures IsSecret(name) && IsRedactKey(name)
  {
    var key := "password";
    assert name[4] == '_' && name[5..] == key;
    assert forall i :: 0 <= i < |key| ==> name[5 + i] == name[5..][i] == key[i];
    assert IsKey(key) && SecretBy(name, 5, key);
    SecretIff(name);
  }

  // ---------------------------------------------------------------- needles

  /** A key as it is, with `_` for every `-`, or with `-` for every `_`. */
  predicate Respelled(key: string, word: string) {
    && |word| == |key|
    && (|| (forall i :: 0 <= i < |key| ==> word[i] == key[i])
        || (forall i :: 0 <= i < |key| ==> word[i] == if key[i] == '-' then '_' else key[i])
        || (forall i :: 0 <= i < |key| ==> word[i] == if key[i] == '_' then '-' else key[i]))
  }

  /** A key in one of its spellings, and `=` or `:`. */
  ghost predicate IsNeedle(needle: string) {
    exists key: string, word: string ::
      IsKey(key) && Respelled(key, word) && (needle == word + "=" || needle == word + ":")
  }

  lemma RespelledIff(key: string, word: string)
    ensures Respelled(key, word) <==> word == Variant(key, 0) || word == Variant(key, 1) || word == Variant(key, 2)
  {
    if forall i :: 0 <= i < |key| && |word| == |key| ==> word[i] == key[i] {
      if |word| == |key| { assert word == key; }
    }
  }

  lemma NeedlesOfKey(key: string, n: string)
    ensures n in NeedlesOf(key) <==>
      exists word: string :: Respelled(key, word) && (n == word + "=" || n == word + ":")
  {
    forall v: nat | v < 3 ensures Respelled(key, Variant(key, v)) { RespelledIff(key, Variant(key, v)); }
    var ns := NeedlesOf(key);
    if n in ns {
      var i :| 0 <= i < |ns| && ns[i] == n;
      assert n == Variant(key, i / 2) + "=" || n == Variant(key, i / 2) + ":";
    }
    if word: string :| Respelled(key, word) && (n == word + "=" || n == word + ":") {
      RespelledIff(key, word);
      assert ns[0] == Variant(key, 0) + "=" && ns[1] == Variant(key, 0) + ":";
      assert ns[2] == Variant(key, 1) + "=" && ns[3] == Variant(key, 1) + ":";
      assert ns[4] == Variant(key, 2) + "=" && ns[5] == Variant(key, 2) + ":";
    }
  }

  lemma {:induction false} NeedlesOfKeys(keys: seq<string>, n: string)
    ensures n in Needles(keys) <==> exists i :: 0 <= i < |keys| && n in NeedlesOf(keys[i])
  {
    if keys != [] {
      NeedlesOfKeys(keys[1..], n);
      if n in Needles(keys[1..]) {
        var i :| 0 <= i < |keys[1..]| && n in NeedlesOf(keys[1..][i]);
        assert n in NeedlesOf(keys[i + 1]);
      }
      if i :| 0 <= i < |keys| && n in NeedlesOf(keys[i]) {
        if i > 0 { assert keys[1..][i - 1] == keys[i]; }
      }
    }
  }

  /** The needles of the source, in any order. */
  ghost predicate AreNeedles(needles: seq<string>) {
    forall n :: n in needles <==> IsNeedle(n)
  }

  lemma NeedlesAre(keys: seq<string>)
    requires forall key :: key in keys <==> IsKey(key)
    ensures AreNeedles(Needles(keys))
  {
    forall n ensures n in Needles(keys) <==> IsNeedle(n) { NeedlesAreOf(keys, n); }
  }

  lemma NeedlesAreOf(keys: seq<string>, n: string)
    ensures n in Needles(keys) <==> exists key: string, word: string ::
      key in keys && Respelled(key, word) && (n == word + "=" || n == word + ":")
  {
    NeedlesOfKeys(keys, n);
    forall key ensures n in NeedlesOf(key) <==>
      exists word: string :: Respelled(key, word) && (n == word + "=" || n == word + ":")
    {
      NeedlesOfKey(key, n);
    }
  }

  // ---------------------------------------------------------------- texts

  /** The word stands at `i`, in any capitals. */
  predicate Spells(s: string, i: nat, word: string) {
    i + |word| <= |s| && forall p :: 0 <= p < |word| ==> SameLetter(s[i + p], word[p])
  }

  predicate AllBlank(s: string, x: nat, y: nat) {
    y <= |s| && forall p :: x <= p < y ==> s[p] in BLANKS
  }

  /** A needle and all white space behind it, up to `x`. */
  ghost predicate BehindNeedle(s: string, x: nat) {
    exists i: nat, word: string :: IsNeedle(word) && Spells(s, i, word) && i + |word| <= x && AllBlank(s, i + |word|, x)
  }

  /** What is to be hidden: it begins behind a needle and all white space there, holds no stop
      character, and lasts until the next one or the end. */
  ghost predicate IsHidden(s: string, x: nat, y: nat) {
    && x <= y <= |s| && BehindNeedle(s, x) && (x < |s| ==> s[x] !in BLANKS)
    && (forall p :: x <= p < y ==> s[p] !in STOPS) && (y < |s| ==> s[y] in STOPS)
  }

  predicate MarkAt(t: string, u: nat) {
    u + 10 <= |t| && t[u..u + 10] == "[REDACTED]"
  }

  /** Step by step, `s` from `x` on becomes `t` from `u` on. */
  ghost predicate Becomes(steps: seq<Step>, s: string, x: nat, t: string, u: nat)
    decreases |steps|
  {
    if steps == [] then x == |s| && u == |t|
    else match steps[0]
      case Keep => x < |s| && u < |t| && t[u] == s[x] && Becomes(steps[1..], s, x + 1, t, u + 1)
      case Hide(n) => IsHidden(s, x, x + n) && MarkAt(t, u) && Becomes(steps[1..], s, x + n, t, u + 10)
  }

  /** The text with some of what is to be hidden replaced by the mark, and nothing else changed. */
  ghost predicate HidesNothingElse(s: string, t: string) {
    exists steps :: Becomes(steps, s, 0, t, 0)
  }

  /** Only white space stands between `e` and a mark at `q`, where the value is over. */
  predicate MarkBehind(t: string, e: nat, q: nat) {
    e <= q && AllBlank(t, e, q) && MarkAt(t, q) && (q + 10 < |t| ==> t[q + 10] in STOPS)
  }

  /** Behind every needle there is white space only and then the mark. */
  ghost predicate NothingLeft(t: string) {
    forall i: nat, word: string :: IsNeedle(word) && Spells(t, i, word) ==> Marked(t, i + |word|)
  }

  ghost predicate Marked(t: string, e: nat) { exists q: nat :: MarkBehind(t, e, q) }

  lemma SpellsIff(s: string, i: nat, word: string)
    ensures Spells(s, i, word) <==> MatchAt(s, i, word)
  {
    if MatchAt(s, i, word) {
      forall p | 0 <= p < |word| ensures SameLetter(s[i + p], word[p]) { assert Lower(s[i + p]) == word[i + p - i]; }
    }
  }

  lemma BlankIff(s: string, x: nat, y: nat)
    ensures AllBlank(s, x, y) <==> Spaces(s, x, y)
  {
  }

  lemma BehindIsNeedle(s: string, x: nat, needles: seq<string>)
    requires AreNeedles(needles) && Behind(s, x, needles)
    ensures BehindNeedle(s, x)
  {
    var i: nat, k: nat :| k < |needles| && MatchThenSpace(s, i, needles[k], x);
    SpellsIff(s, i, needles[k]);
    BlankIff(s, i + |needles[k]|, x);
    assert needles[k] in needles && IsNeedle(needles[k]);
  }

  lemma ValueIsHidden(s: string, x: nat, y: nat, needles: seq<string>)
    requires AreNeedles(needles) && IsValue(s, x, y, needles)
    ensures IsHidden(s, x, y)
  {
    BehindIsNeedle(s, x, needles);
  }

  lemma MarkIs(t: string, u: nat)
    ensures StandsAt(t, u, MARK) <==> MarkAt(t, u)
    ensures MarkedAt(t, u) <==> MarkAt(t, u) && (u + 10 < |t| ==> t[u + 10] in STOPS)
  {
    if MarkAt(t, u) {
      assert forall p :: u <= p < u + 10 ==> t[p] == t[u..u + 10][p - u];
    }
  }

  lemma {:induction false} HidesBecomes(steps: seq<Step>, s: string, x: nat, t: string, u: nat, needles: seq<string>)
    requires AreNeedles(needles) && Hides(steps, s, x, t, u, MARK, needles)
    ensures Becomes(steps, s, x, t, u)
    decreases |steps|
  {
    if steps != [] {
      match steps[0] {
        case Keep => HidesBecomes(steps[1..], s, x + 1, t, u + 1, needles);
        case Hide(n) =>
          ValueIsHidden(s, x, x + n, needles);
          MarkIs(t, u);
          HidesBecomes(steps[1..], s, x + n, t, u + 10, needles);
      }
    }
  }

  lemma GuardIff(t: string, e: nat)
    ensures GuardedFrom(t, e) <==> Marked(t, e)
  {
    forall q: nat ensures GuardAt(t, e, q) <==> MarkBehind(t, e, q) {
      MarkIs(t, q);
      BlankIff(t, e, q);
    }
  }

  lemma CleanLeavesNothing(t: string, needles: seq<string>)
    requires AreNeedles(needles) && AllClean(t, needles)
    ensures NothingLeft(t)
  {
    forall i: nat, word: string | IsNeedle(word) && Spells(t, i, word) ensures Marked(t, i + |word|) {
      assert word in needles;
      var k :| 0 <= k < |needles| && needles[k] == word;
      SpellsIff(t, i, word);
      CleanMatch(t, word, i);
      GuardIff(t, i + |word|);
    }
  }

  lemma NothingLeftIsClean(t: string, needles: seq<string>)
    requires AreNeedles(needles) && NothingLeft(t)
    ensures AllClean(t, needles)
  {
    forall k | 0 <= k < |needles| ensures Clean(t, needles[k]) {
      assert needles[k] in needles && IsNeedle(needles[k]);
      forall i: nat | i < |t| && MatchAt(t, i, needles[k]) ensures Guarded(t, i, needles[k]) {
        SpellsIff(t, i, needles[k]);
        GuardIff(t, i + |needles[k]|);
      }
    }
  }

  lemma CleanMatch(t: string, word: string, i: nat)
    requires Clean(t, word) && IsNeedle(word) && MatchAt(t, i, word)
    ensures Guarded(t, i, word)
  {
    assert word != [] && i < |t|;
  }

  /** For every text: behind each needle, in any spelling and capitals, there is afterwards white space
      only and then the mark; values were hidden and nothing else was changed; and a text in which
      nothing is left to hide stays as it is. */
  lemma TextIsRedacted(s: string)
    ensures NothingLeft(Redacted(s)) && HidesNothingElse(s, Redacted(s))
    ensures NothingLeft(s) ==> Redacted(s) == s
  {
    RedactedIsClean(s);
    OnlyValuesAreHidden(s);
    UnchangedIffClean(s);
    forall key ensures key in REDACT_KEYS <==> IsKey(key) { KeysAre(key); }
    NeedlesAre(REDACT_KEYS);
    TextBecomes(s, Redacted(s), Needles(REDACT_KEYS));
  }

  lemma TextBecomes(s: string, t: string, needles: seq<string>)
    requires AreNeedles(needles) && AllClean(t, needles) && OnlyHides(s, t, MARK, needles)
    requires t == s <==> AllClean(s, needles)
    ensures NothingLeft(t) && HidesNothingElse(s, t) && (NothingLeft(s) ==> t == s)
  {
    CleanLeavesNothing(t, needles);
    var steps :| Hides(steps, s, 0, t, 0, MARK, needles);
    HidesBecomes(steps, s, 0, t, 0, needles);
    if NothingLeft(s) { NothingLeftIsClean(s, needles); }
  }

  // ---------------------------------------------------------------- values

  /** What becomes of a JSON value: secret fields hold the mark, other strings are redacted texts, and
      everything else stays. */
  ghost predicate BecomesValue(v: Json, w: Json) {
    match v
    case Object(m) =>
      w.Object? && w.fields.Keys == m.Keys && forall k :: k in m ==>
        if IsSecret(k) then w.fields[k] == Str("[REDACTED]") else BecomesValue(m[k], w.fields[k])
    case Array(items) =>
      w.Array? && |w.items| == |items| && forall i :: 0 <= i < |items| ==> BecomesValue(items[i], w.items[i])
    case Str(s) => w.Str? && NothingLeft(w.s) && HidesNothingElse(s, w.s)
    case _ => w == v
  }

  /** So it is for every JSON value, at every depth. */
  lemma {:induction false} ValueBecomes(v: Json)
    ensures BecomesValue(v, RedactedValue(v))
    decreases v
  {
    match v {
      case Object(m) =>
        var out := RedactedValue(v).fields;
        assert out.Keys == m.Keys;
        forall k | k in m
          ensures if IsSecret(k) then out[k] == Str("[REDACTED]") else BecomesValue(m[k], out[k])
        {
          SecretIff(k);
          assert out[k] == CoveredField(k, m[k], IsRedactKey, Redacted);
          if !IsSecret(k) { ValueBecomes(m[k]); }
        }
      case Array(items) =>
        var out := RedactedValue(v).items;
        assert |out| == |items|;
        forall i | 0 <= i < |items| ensures BecomesValue(items[i], out[i]) {
          assert out[i] == RedactedValue(items[i]);
          ValueBecomes(items[i]);
        }
      case Str(s) => TextIsRedacted(s);
      case _ =>
    }
  }
}
