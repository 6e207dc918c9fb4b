/** Exactly when a filled template determines the arguments in it, whatever its literals. */
module PathDetermines {
  import opened Base64
  import opened Percent
  import opened PathRender
  import opened PathReading

  // ---------------------------------------------------------------- beginnings of encoded text

  predicate UpperHex(c: char) { '0' <= c <= '9' || 'A' <= c <= 'F' }

  /** The two digits behind a `%` that stands for a byte that needs encoding. */
  predicate EncodedByte(c: char, d: char) {
    UpperHex(c) && UpperHex(d) && !AlphaNum((HexValue(c) * 16 + HexValue(d)) as char)
  }

  /** Whether some argument is encoded as a text that begins with `s`. */
  predicate EncodedStart(s: string) {
    if s == [] then true
    else if AlphaNum(s[0]) then EncodedStart(s[1..])
    else if s[0] != '%' then false
    else if |s| == 1 then true
    else if |s| == 2 then UpperHex(s[1])
    else EncodedByte(s[1], s[2]) && EncodedStart(s[3..])
  }

  lemma EncodeAppend(a: seq<byte>, b: seq<byte>)
    ensures PercentEncode(a + b) == PercentEncode(a) + PercentEncode(b)
  {
    if a == [] {
      assert a + b == b;
    } else {
      assert (a + b)[1..] == a[1..] + b;
      EncodeAppend(a[1..], b);
    }
  }

  lemma PrefixAppend(s: string, t: string, u: string)
    ensures t <= u ==> s + t <= s + u
    ensures s + t <= s + u ==> t <= u
  {
    if s + t <= s + u {
      assert t == (s + t)[|s|..] && u == (s + u)[|s|..];
      assert forall i :: 0 <= i < |t| ==> t[i] == (s + t)[|s| + i] == (s + u)[|s| + i];
    }
  }

  /** A hexadecimal digit after which some digit makes a byte that needs encoding. */
  function Completion(c: char): (d: char)
    requires UpperHex(c)
    ensures EncodedByte(c, d)
  {
    if c == '3' then 'A' else if c == '5' || c == '7' then 'B' else '0'
  }

  function ByteOf(c: char, d: char): (b: byte)
    requires EncodedByte(c, d)
    ensures EncodeByte(b) == ['%', c, d]
  {
    HexValue(c) * 16 + HexValue(d)
  }

  lemma {:induction false} StartIsPrefix(s: string) returns (raw: seq<byte>)
    requires EncodedStart(s)
    ensures s <= PercentEncode(raw)
    decreases |s|
  {
    if s == [] {
      raw := [];
    } else if AlphaNum(s[0]) {
      raw := StartIsPrefix(s[1..]);
      PrefixAppend([s[0]], s[1..], PercentEncode(raw));
      raw := [s[0] as byte] + raw;
    } else if |s| < 3 {
      var c := if |s| == 1 then '2' else s[1];
      raw := [ByteOf(c, Completion(c))];
      assert PercentEncode(raw) == EncodeByte(raw[0]) + PercentEncode([]);
    } else {
      raw := StartIsPrefix(s[3..]);
      PrefixAppend(s[..3], s[3..], PercentEncode(raw));
      raw := [ByteOf(s[1], s[2])] + raw;
      assert s == s[..3] + s[3..] && s[..3] == EncodeByte(raw[0]);
    }
  }

  lemma {:induction false} PrefixIsStart(s: string, raw: seq<byte>)
    requires s <= PercentEncode(raw)
    ensures EncodedStart(s)
    decreases |raw|
  {
    if s != [] {
      var head, rest := EncodeByte(raw[0]), PercentEncode(raw[1..]);
      if |s| > |head| {
        assert s[..|head|] == head;
        assert s[|head|..] <= rest by { PrefixAppend(head, s[|head|..], rest); }
        PrefixIsStart(s[|head|..], raw[1..]);
      } else {
        assert s == head[..|s|];
        assert |head| == 1 ==> s[1..] == [];
        assert |s| == 3 ==> s[3..] == [];
      }
      HexPair(raw[0]);
    }
  }

  lemma SuffixOfSum(head: string, rest: string, k: nat)
    requires k <= |head + rest|
    ensures (head + rest)[k..] == if k >= |head| then rest[k - |head|..] else head[k..] + rest
  {
  }

  /** What comes behind any place of an encoded text is itself an encoded text. */
  lemma {:induction false} SuffixIsEncoded(raw: seq<byte>, k: nat) returns (q: seq<byte>)
    requires k <= |PercentEncode(raw)|
    ensures PercentEncode(q) == PercentEncode(raw)[k..]
    decreases |raw|
  {
    if k == 0 {
      q := raw;
    } else {
      var head := EncodeByte(raw[0]);
      SuffixOfSum(head, PercentEncode(raw[1..]), k);
      if k >= |head| {
        q := SuffixIsEncoded(raw[1..], k - |head|);
      } else {
        q := DigitsAreEncoded(head[k..]);
        EncodeAppend(q, raw[1..]);
        q := q + raw[1..];
      }
    }
  }

  lemma {:induction false} DigitsAreEncoded(digits: string) returns (q: seq<byte>)
    requires forall i :: 0 <= i < |digits| ==> AlphaNum(digits[i])
    ensures PercentEncode(q) == digits && |q| == |digits|
    ensures forall i :: 0 <= i < |q| ==> AlphaNum(q[i] as char)
  {
    if digits == [] {
      q := [];
    } else {
      q := DigitsAreEncoded(digits[1..]);
      q := [digits[0] as byte] + q;
      assert digits == [digits[0]] + digits[1..];
    }
  }

  // ---------------------------------------------------------------- templates, from hole to hole

  /** The path determines the arguments of all holes. */
  ghost predicate Determines(t: seq<Part>) {
    forall some: Args, other: Args :: HolesHave(t, some) && HolesHave(t, other) && PathOf(t, some) == PathOf(t, other)
      ==> SameAtHoles(t, some, other)
  }

  predicate SameAtHoles(t: seq<Part>, some: Args, other: Args)
    requires HolesHave(t, some) && HolesHave(t, other)
  {
    forall i :: 0 <= i < |t| && t[i].Hole? ==> some[t[i].name] == other[t[i].name]
  }

  /** No literal text between two successive holes is the beginning of an encoded argument. */
  predicate HolesApart(t: seq<Part>) {
    forall i :: 0 <= i < |t| && t[i].Hole? ==> NextApart(t[i + 1..])
  }

  predicate NextApart(rest: seq<Part>) {
    FromHole(rest) != [] ==> !EncodedStart(Lead(rest))
  }

  predicate DistinctHoles(t: seq<Part>) {
    forall i, j :: 0 <= i < j < |t| && t[i].Hole? && t[j].Hole? ==> t[i].name != t[j].name
  }

  // ---------------------------------------------------------------- sufficient

  /** A text that is a prefix of itself behind an encoded text is a prefix of an encoded text: it
      repeats that one. */
  lemma {:induction false} RepeatIsStart(l: string, d: seq<byte>) returns (raw: seq<byte>)
    requires d != [] && l <= PercentEncode(d) + l
    ensures l <= PercentEncode(raw)
    decreases |l|
  {
    var z := PercentEncode(d);
    if |l| <= |z| {
      raw := d;
      assert l == (z + l)[..|l|] == z[..|l|];
    } else {
      var more := l[|z|..];
      assert l[..|z|] == (z + l)[..|z|] == z;
      assert l == z + more;
      PrefixAppend(z, more, l);
      assert more <= l && l == z + more;
      PrefixAppend(z, more, z + more);
      raw := RepeatIsStart(more, d);
      PrefixAppend(z, more, PercentEncode(raw));
      EncodeAppend(d, raw);
      raw := d + raw;
    }
  }

  lemma EncodedNotEmpty(d: seq<byte>)
    requires d != []
    ensures PercentEncode(d) != []
  {
  }

  /** Of two arguments whose encodings begin one text, one begins the other. */
  lemma {:induction false} EncodingsNest(a: seq<byte>, b: seq<byte>, s: string, t: string)
    requires |a| <= |b| && PercentEncode(a) + s == PercentEncode(b) + t
    ensures a <= b
    decreases |a|
  {
    if a != [] {
      var u, v := PercentEncode(a[1..]) + s, PercentEncode(b[1..]) + t;
      Regrouped(EncodeByte(a[0]), PercentEncode(a[1..]), s);
      Regrouped(EncodeByte(b[0]), PercentEncode(b[1..]), t);
      SameFirstByte(a[0], b[0], u, v);
      EncodingsNest(a[1..], b[1..], s, t);
      assert a == [a[0]] + a[1..] && b == [b[0]] + b[1..];
    }
  }

  lemma Regrouped(x: string, y: string, z: string)
    ensures (x + y) + z == x + (y + z)
  {
  }

  lemma SameFirstByte(a: byte, b: byte, u: string, v: string)
    requires EncodeByte(a) + u == EncodeByte(b) + v
    ensures a == b && u == v
  {
    var x, y := EncodeByte(a), EncodeByte(b);
    assert x[0] == (x + u)[0] == (y + v)[0] == y[0];
    HexPair(a);
    HexPair(b);
    if x[0] == '%' {
      assert x[1] == (x + u)[1] == (y + v)[1] == y[1];
      assert x[2] == (x + u)[2] == (y + v)[2] == y[2];
    }
    assert u == (x + u)[|x|..] && v == (y + v)[|y|..];
  }

  lemma FrontRepeats(x: string, z: string, l: string, s: string, t: string)
    requires x + (l + s) == (x + z) + (l + t)
    ensures l <= z + l
  {
    var u, v := x + (l + s), (x + z) + (l + t);
    forall i | 0 <= i < |l| ensures l[i] == (z + l)[i] {
      assert u[|x| + i] == l[i];
      assert v[|x| + i] == if i < |z| then z[i] else l[i - |z|];
    }
    assert (z + l)[..|l|] == l;
  }

  /** With such a text between them, two encoded arguments cannot be told apart in two ways. */
  lemma FirstIsUnique(a: seq<byte>, b: seq<byte>, l: string, s: string, t: string)
    requires !EncodedStart(l) && PercentEncode(a) + (l + s) == PercentEncode(b) + (l + t) && |a| <= |b|
    ensures a == b
  {
    EncodingsNest(a, b, l + s, l + t);
    if a != b {
      var d := b[|a|..];
      assert b == a + d;
      EncodeAppend(a, d);
      FrontRepeats(PercentEncode(a), PercentEncode(d), l, s, t);
      var raw := RepeatIsStart(l, d);
      PrefixIsStart(l, raw);
    }
  }

  lemma LastIsUnique(a: seq<byte>, b: seq<byte>, l: string)
    requires PercentEncode(a) + l == PercentEncode(b) + l
    ensures a == b
  {
    var x, y := PercentEncode(a), PercentEncode(b);
    assert |x| == |y| && x == (x + l)[..|x|] && y == (y + l)[..|y|];
    PercentRoundTrip(a);
    PercentRoundTrip(b);
  }

  lemma FirstHoleAgrees(t: seq<Part>, some: Args, other: Args)
    requires t != [] && t[0].Hole? && NextApart(t[1..]) && HolesHave(t, some) && HolesHave(t, other)
    requires PathOf(t, some) == PathOf(t, other)
    ensures some[t[0].name] == other[t[0].name]
  {
    var a, b, rest := some[t[0].name], other[t[0].name], t[1..];
    PathOfSplit(t, some);
    PathOfSplit(t, other);
    LeadThenHole(rest, some);
    LeadThenHole(rest, other);
    if FromHole(rest) == [] {
      assert Lead(rest) + PathOf([], some) == Lead(rest) == Lead(rest) + PathOf([], other);
      LastIsUnique(a, b, Lead(rest));
    } else {
      var s, u := PathOf(FromHole(rest), some), PathOf(FromHole(rest), other);
      if |a| <= |b| { FirstIsUnique(a, b, Lead(rest), s, u); } else { FirstIsUnique(b, a, Lead(rest), u, s); }
    }
  }

  /** Two argument objects that give the same path agree on every hole. */
  lemma {:induction false} ApartDetermines(t: seq<Part>, some: Args, other: Args)
    requires HolesApart(t) && HolesHave(t, some) && HolesHave(t, other) && PathOf(t, some) == PathOf(t, other)
    ensures SameAtHoles(t, some, other)
    decreases |t|
  {
    if t != [] {
      var rest := t[1..];
      if t[0].Hole? { FirstHoleAgrees(t, some, other); }
      PathOfSplit(t, some);
      PathOfSplit(t, other);
      var head := if t[0].Hole? then PercentEncode(some[t[0].name]) else t[0].text;
      assert PathOf(rest, some) == PathOf(t, some)[|head|..] && PathOf(rest, other) == PathOf(t, other)[|head|..];
      forall i | 0 <= i < |rest| && rest[i].Hole? ensures NextApart(rest[i + 1..]) {
        assert t[i + 1] == rest[i] && t[i + 2..] == rest[i + 1..];
      }
      ApartDetermines(rest, some, other);
      forall i | 0 <= i < |t| && t[i].Hole? ensures some[t[i].name] == other[t[i].name] {
        if i > 0 { assert t[i] == rest[i - 1]; }
      }
    }
  }

  // ---------------------------------------------------------------- necessary

  predicate HasNoHole(t: seq<Part>, name: string) {
    forall i :: 0 <= i < |t| ==> t[i] != Hole(name)
  }

  /** Only the arguments of the holes matter. */
  lemma {:induction false} SamePath(t: seq<Part>, some: Args, other: Args)
    requires HolesHave(t, some) && HolesHave(t, other) && SameAtHoles(t, some, other)
    ensures PathOf(t, some) == PathOf(t, other)
  {
    if t != [] {
      PathOfSplit(t, some);
      PathOfSplit(t, other);
      assert forall i :: 0 <= i < |t[1..]| ==> t[1..][i] == t[i + 1];
      SamePath(t[1..], some, other);
    }
  }

  lemma OtherArgument(t: seq<Part>, args: Args, name: string, raw: seq<byte>)
    requires HolesHave(t, args) && HasNoHole(t, name)
    ensures HolesHave(t, args[name := raw]) && PathOf(t, args[name := raw]) == PathOf(t, args)
  {
    assert HolesHave(t, args[name := raw]);
    SamePath(t, args, args[name := raw]);
  }

  /** `1` for every hole. */
  function Ones(t: seq<Part>): (args: Args)
    ensures HolesHave(t, args)
    ensures forall name :: name in args ==> args[name] == [49]
  {
    var names := set i | 0 <= i < |t| && t[i].Hole? :: t[i].name;
    map name | name in names :: [49]
  }

  /** Values for the two ends of such a text that read in two ways: with `e` the encoding of a text
      that begins with `l`, and `q` that of what is left of it, `1`, l, q, e is `1`, e, l, q. */
  lemma TwoReadings(l: string, e: seq<byte>, q: seq<byte>, r: string)
    requires PercentEncode(e) == l + PercentEncode(q)
    ensures PercentEncode([49]) + (l + (PercentEncode(q + e) + r))
         == PercentEncode([49] + e) + (l + (PercentEncode(q) + r))
  {
    EncodeAppend(q, e);
    EncodeAppend([49], e);
    Regroup(PercentEncode([49]), l, PercentEncode(q), PercentEncode(e), r);
  }

  lemma Regroup(x: string, l: string, y: string, z: string, r: string)
    requires z == l + y
    ensures x + (l + ((y + z) + r)) == (x + z) + (l + (y + r))
  {
    assert l + ((y + z) + r) == z + (z + r);
    assert l + (y + r) == z + r;
    assert x + (z + (z + r)) == (x + z) + (z + r);
  }

  lemma {:induction false} HoleBehind(t: seq<Part>, i: nat) returns (j: nat)
    requires i <= |t| && FromHole(t[i..]) != []
    ensures i <= j < |t| && t[j] == FromHole(t[i..])[0]
    ensures FromHole(t[i..]) == t[j..]
    decreases |t| - i
  {
    if t[i].Hole? {
      j := i;
    } else {
      assert t[i..][1..] == t[i + 1..];
      j := HoleBehind(t, i + 1);
    }
  }

  lemma HolePath(t: seq<Part>, args: Args)
    requires t != [] && t[0].Hole? && HolesHave(t, args) && FromHole(t[1..]) != []
    ensures HolesHave(FromHole(t[1..])[1..], args) && FromHole(t[1..])[0].name in args
    ensures PathOf(t, args) == PercentEncode(args[t[0].name])
      + (Lead(t[1..]) + (PercentEncode(args[FromHole(t[1..])[0].name]) + PathOf(FromHole(t[1..])[1..], args)))
  {
    PathOfSplit(t, args);
    LeadThenHole(t[1..], args);
    PathOfSplit(FromHole(t[1..]), args);
  }

  /** `1`, or one of the three values made of `e` and `q`. */
  predicate Made(raw: seq<byte>, e: seq<byte>, q: seq<byte>) {
    raw == [49] || raw == q + e || raw == [49] + e || raw == q
  }

  predicate MadeOf(args: Args, e: seq<byte>, q: seq<byte>) {
    forall name :: name in args ==> Made(args[name], e, q)
  }

  /** The two argument objects: one for the first hole `a`, the next hole `b`, and `1` for all others. */
  lemma TwoObjects(ones: Args, a: string, b: string, e: seq<byte>, q: seq<byte>) returns (some: Args, other: Args)
    requires a in ones && b in ones && a != b && forall name :: name in ones ==> ones[name] == [49]
    ensures some == ones[b := q + e] && other == ones[a := [49] + e][b := q]
    ensures MadeOf(some, e, q) && MadeOf(other, e, q)
  {
    some, other := ones[b := q + e], ones[a := [49] + e][b := q];
  }

  /** The first hole and the next one, with the two readings. */
  lemma FirstTwoReadings(t: seq<Part>, e: seq<byte>, q: seq<byte>) returns (some: Args, other: Args)
    requires t != [] && t[0].Hole? && FromHole(t[1..]) != [] && DistinctHoles(t) && e != []
    requires PercentEncode(e) == Lead(t[1..]) + PercentEncode(q)
    ensures HolesHave(t, some) && HolesHave(t, other) && PathOf(t, some) == PathOf(t, other)
    ensures some[t[0].name] != other[t[0].name]
    ensures MadeOf(some, e, q) && MadeOf(other, e, q)
  {
    var j := HoleBehind(t, 1);
    var tail := t[j + 1..];
    assert FromHole(t[1..]) == t[j..] && t[j..][1..] == tail;
    var a, b := t[0].name, t[j].name;
    var ones := Ones(t);
    assert forall i :: 0 <= i < |tail| ==> tail[i] == t[j + 1 + i];
    some, other := TwoObjects(ones, a, b, e, q);
    OtherArgument(tail, ones, b, q + e);
    OtherArgument(tail, ones, a, [49] + e);
    OtherArgument(tail, ones[a := [49] + e], b, q);
    HolePath(t, some);
    HolePath(t, other);
    TwoReadings(Lead(t[1..]), e, q, PathOf(tail, ones));
  }

  lemma {:induction false} TwoReadingsAt(t: seq<Part>, i: nat, e: seq<byte>, q: seq<byte>)
    returns (some: Args, other: Args)
    requires i < |t| && t[i].Hole? && FromHole(t[i + 1..]) != [] && DistinctHoles(t) && e != []
    requires PercentEncode(e) == Lead(t[i + 1..]) + PercentEncode(q)
    ensures HolesHave(t, some) && HolesHave(t, other) && PathOf(t, some) == PathOf(t, other)
    ensures some[t[i].name] != other[t[i].name]
    ensures MadeOf(some, e, q) && MadeOf(other, e, q)
    decreases i
  {
    if i == 0 {
      some, other := FirstTwoReadings(t, e, q);
    } else {
      var rest := t[1..];
      assert rest[i - 1] == t[i] && rest[i..] == t[i + 1..];
      assert forall k :: 0 <= k < |rest| ==> rest[k] == t[k + 1];
      some, other := TwoReadingsAt(rest, i - 1, e, q);
      assert t[0].Hole? ==> t[0].name != t[i].name;
      some, other := BothInFront(t, some, other, e, q, t[i].name);
    }
  }

  /** The two objects still give one path with one more part in front. */
  lemma BothInFront(t: seq<Part>, some: Args, other: Args, e: seq<byte>, q: seq<byte>, name: string)
    returns (more: Args, another: Args)
    requires t != [] && HolesHave(t[1..], some) && HolesHave(t[1..], other)
    requires t[0].Hole? ==> HasNoHole(t[1..], t[0].name) && t[0].name != name
    requires PathOf(t[1..], some) == PathOf(t[1..], other) && MadeOf(some, e, q) && MadeOf(other, e, q)
    requires name in some && name in other && some[name] != other[name]
    ensures HolesHave(t, more) && HolesHave(t, another) && PathOf(t, more) == PathOf(t, another)
    ensures MadeOf(more, e, q) && MadeOf(another, e, q)
    ensures name in more && name in another && more[name] != another[name]
  {
    if t[0].Hole? {
      OneInFront(t, some);
      OneInFront(t, other);
      more, another := some[t[0].name := [49]], other[t[0].name := [49]];
    } else {
      more, another := some, other;
      assert forall i :: 0 <= i < |t[1..]| ==> t[1..][i] == t[i + 1];
      PathOfSplit(t, some);
      PathOfSplit(t, other);
    }
  }

  lemma OneInFront(t: seq<Part>, args: Args)
    requires t != [] && t[0].Hole? && HasNoHole(t[1..], t[0].name) && HolesHave(t[1..], args)
    ensures HolesHave(t, args[t[0].name := [49]])
    ensures PathOf(t, args[t[0].name := [49]]) == PercentEncode([49]) + PathOf(t[1..], args)
    ensures forall e, q :: MadeOf(args, e, q) ==> MadeOf(args[t[0].name := [49]], e, q)
  {
    OtherArgument(t[1..], args, t[0].name, [49]);
    assert forall i :: 0 <= i < |t[1..]| ==> t[1..][i] == t[i + 1];
    PathOfSplit(t, args[t[0].name := [49]]);
  }

  /** Any beginning of an encoded text can be completed. */
  lemma Completed(l: string) returns (e: seq<byte>, q: seq<byte>)
    requires EncodedStart(l)
    ensures e != [] && PercentEncode(e) == l + PercentEncode(q)
  {
    e := StartIsPrefix(l);
    EncodeAppend(e, [49]);
    e := e + [49];
    q := SuffixIsEncoded(e, |l|);
  }

  /** For any template with holes of different names, whatever its literals: the path determines the
      arguments of all holes if and only if no literal text between two successive holes is the
      beginning of an encoded argument. */
  lemma DeterminesIffApart(t: seq<Part>)
    requires DistinctHoles(t)
    ensures Determines(t) <==> HolesApart(t)
  {
    if HolesApart(t) {
      forall some: Args, other: Args
        | HolesHave(t, some) && HolesHave(t, other) && PathOf(t, some) == PathOf(t, other)
        ensures SameAtHoles(t, some, other)
      {
        ApartDetermines(t, some, other);
      }
    } else {
      var i :| 0 <= i < |t| && t[i].Hole? && !NextApart(t[i + 1..]);
      var e, q := Completed(Lead(t[i + 1..]));
      var some, other := TwoReadingsAt(t, i, e, q);
      assert !SameAtHoles(t, some, other);
    }
  }
}
