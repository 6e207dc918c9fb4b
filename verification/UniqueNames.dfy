/** What `Uniquify` is for: names without duplicates that do not depend on the order of the
    tools, with one tool of every group under its own name. */
module UniqueNames {
  import opened FreshNames
  import opened Names
  import opened Ordering
  import opened Uniquify
  import Text

  lemma {:induction false} SuffixIsFree(name: string, n: nat, taken: set<string>, m: nat)
    requires m < n
    ensures var r := Suffixes(name, n, taken);
      && r[m] == Numbered(name, FirstFree(name, m + 2, taken + NamesOf(Suffixes(name, m, taken))))
      && r[m] !in taken
      && forall j :: 0 <= j < m ==> r[j] != r[m]
  {
    var r := Suffixes(name, n, taken);
    SuffixesPrefix(name, m + 1, n, taken);
    SuffixesPrefix(name, m, n, taken);
    assert r[m] == r[..m + 1][m];
    forall j | 0 <= j < m ensures r[j] != r[m] {
      assert r[j] == r[..m][j];
      assert r[j] in NamesOf(Suffixes(name, m, taken));
    }
  }

  lemma TakenStep(c: seq<string>, names: seq<string>, g: nat)
    requires 0 < g <= |names|
    ensures TakenAfter(c, names[..g - 1]) <= TakenAfter(c, names[..g])
  {
    assert names[..g][..g - 1] == names[..g - 1];
  }

  lemma {:induction false} TakenGrows(c: seq<string>, names: seq<string>, g: nat, h: nat)
    requires g <= h <= |names|
    ensures TakenAfter(c, names[..g]) <= TakenAfter(c, names[..h])
    decreases h
  {
    if g < h {
      TakenStep(c, names, h);
      TakenGrows(c, names, g, h - 1);
    }
  }

  lemma AllTaken(c: seq<string>, names: seq<string>, g: nat)
    requires g <= |names|
    ensures NamesOf(c) <= TakenAfter(c, names[..g])
  {
    TakenGrows(c, names, 0, g);
    assert names[..0] == [];
  }

  lemma Place(c: seq<string>, keys: seq<Key>, i: nat) returns (g: nat, n: nat)
    requires |keys| == |c| && i < |c|
    ensures g < |NamesInOrder(c)| && NamesInOrder(c)[g] == c[i]
    ensures n < |Group(c, keys, c[i])| && Group(c, keys, c[i])[n] == i
  {
    assert c[i] in NamesOf(c) && c[i] in NamesInOrder(c);
    assert i in Members(c, c[i]) && i in Group(c, keys, c[i]);
    g :| 0 <= g < |NamesInOrder(c)| && NamesInOrder(c)[g] == c[i];
    n :| 0 <= n < |Group(c, keys, c[i])| && Group(c, keys, c[i])[n] == i;
  }

  /** A number is given only to a name that no tool has, and it joins what is taken. */
  lemma NumberedMember(c: seq<string>, names: seq<string>, g: nat, n: nat)
    requires g < |names| && 0 < n < |Members(c, names[g])|
    ensures NameOf(c, names, g, n) !in NamesOf(c)
    ensures NameOf(c, names, g, n) !in TakenAfter(c, names[..g])
    ensures NameOf(c, names, g, n) in TakenAfter(c, names[..g + 1])
    ensures exists k: nat :: k >= n + 1 && NameOf(c, names, g, n) == Numbered(names[g], k)
  {
    var taken := TakenAfter(c, names[..g]);
    SuffixIsFree(names[g], Renamed(c, names[g]), taken, n - 1);
    AllTaken(c, names, g);
    assert names[..g + 1][..g] == names[..g];
  }

  /** What member `n` of group `g` is called: its own candidate, or a name that joins what is
      taken only when group `g` is done. */
  lemma NamedInGroup(c: seq<string>, names: seq<string>, g: nat, n: nat)
    requires Lists(names, NamesOf(c), StrBefore) && g < |names| && n < |Members(c, names[g])|
    ensures var name := NameOf(c, names, g, n);
      && (n == 0 ==> name == names[g] && name in NamesOf(c))
      && (n > 0 ==> name !in TakenAfter(c, names[..g]) && name in TakenAfter(c, names[..g + 1]))
      && (n > 0 ==> name !in NamesOf(c))
  {
    assert names[g] in NamesOf(c);
    if n > 0 { NumberedMember(c, names, g, n); }
  }

  /** Members of two groups never get the same name. */
  lemma GroupsDiffer(c: seq<string>, names: seq<string>, g: nat, n: nat, h: nat, m: nat)
    requires Lists(names, NamesOf(c), StrBefore)
    requires g < h < |names| && n < |Members(c, names[g])| && m < |Members(c, names[h])|
    ensures NameOf(c, names, g, n) != NameOf(c, names, h, m)
  {
    NamedInGroup(c, names, g, n);
    NamedInGroup(c, names, h, m);
    TakenGrows(c, names, g + 1, h);
    assert names[g] != names[h] by {
      StrIrreflexive(names[g]);
      assert StrBefore(names[g], names[h]);
    }
  }

  /** Nor do two members of one group. */
  lemma MembersDiffer(c: seq<string>, names: seq<string>, g: nat, n: nat, m: nat)
    requires Lists(names, NamesOf(c), StrBefore)
    requires g < |names| && n < m < |Members(c, names[g])|
    ensures NameOf(c, names, g, n) != NameOf(c, names, g, m)
  {
    NamedInGroup(c, names, g, n);
    NamedInGroup(c, names, g, m);
    if n > 0 { SuffixIsFree(names[g], Renamed(c, names[g]), TakenAfter(c, names[..g]), m - 1); }
  }

  /** Two members of any groups, in either order. */
  lemma NamesDiffer(c: seq<string>, names: seq<string>, g: nat, n: nat, h: nat, m: nat)
    requires Lists(names, NamesOf(c), StrBefore) && (g != h || n != m)
    requires g < |names| && h < |names| && n < |Members(c, names[g])| && m < |Members(c, names[h])|
    ensures NameOf(c, names, g, n) != NameOf(c, names, h, m)
  {
    if g < h {
      GroupsDiffer(c, names, g, n, h, m);
    } else if h < g {
      GroupsDiffer(c, names, h, m, g, n);
    } else if n < m {
      MembersDiffer(c, names, g, n, m);
    } else {
      MembersDiffer(c, names, g, m, n);
    }
  }

  /** A tool is called as its place says. */
  lemma NamedAtPlace(c: seq<string>, keys: seq<Key>, result: seq<string>, i: nat) returns (g: nat, n: nat)
    requires |keys| == |c| && Assigned(c, keys, result) && i < |c|
    ensures g < |NamesInOrder(c)| && n < |Members(c, NamesInOrder(c)[g])|
    ensures result[i] == NameOf(c, NamesInOrder(c), g, n)
    ensures n < |Group(c, keys, NamesInOrder(c)[g])| && Group(c, keys, NamesInOrder(c)[g])[n] == i
  {
    g, n := Place(c, keys, i);
    assert Settled(c, keys, NamesInOrder(c), g, result);
  }

  /** No two tools share a name. */
  lemma NamesAreDistinct(c: seq<string>, keys: seq<Key>, result: seq<string>, i: nat, j: nat)
    requires |keys| == |c| && Assigned(c, keys, result) && i < j < |c|
    ensures result[i] != result[j]
  {
    var g, n := NamedAtPlace(c, keys, result, i);
    var h, m := NamedAtPlace(c, keys, result, j);
    NamesDiffer(c, NamesInOrder(c), g, n, h, m);
  }

  /** Of the tools with one candidate name, exactly the first by key, then by position, keeps it;
      every other one gets a number that makes it a name no tool had. A tool whose candidate is
      its own therefore always keeps it. */
  lemma ExactlyTheFirstKeepsItsName(c: seq<string>, keys: seq<Key>, result: seq<string>, i: nat)
    requires |keys| == |c| && Assigned(c, keys, result) && i < |c|
    ensures result[i] == c[i] <==> forall j: nat :: j < |c| && c[j] == c[i] && j != i ==> ByKey(keys)(i, j)
    ensures result[i] != c[i] ==> result[i] !in c && exists k: nat :: k >= 2 && result[i] == Numbered(c[i], k)
  {
    var g, n := Place(c, keys, i);
    var names, group := NamesInOrder(c), Group(c, keys, c[i]);
    assert Settled(c, keys, names, g, result);
    assert result[i] == NameOf(c, names, g, n);
    assert c[i] in NamesOf(c);
    ByKeyIsOrder(keys, Members(c, c[i]));
    if n == 0 {
      forall j: nat | j < |c| && c[j] == c[i] && j != i ensures ByKey(keys)(i, j) {
        assert j in Members(c, c[i]) && j in group;
      }
    } else {
      NumberedMember(c, names, g, n);
      var j := group[0];
      assert j in Members(c, c[i]) && ByKey(keys)(j, i);
      assert !ByKey(keys)(i, j);
    }
  }

  // ---------------------------------------------------------------- the order of the tools

  /** `p` sends every place of the reordered list to its place in the original one. */
  ghost predicate IsPermutation(p: seq<nat>, n: nat) {
    && |p| == n
    && (forall i :: 0 <= i < n ==> p[i] < n)
    && (forall i, j :: 0 <= i < j < n ==> p[i] != p[j])
    && (forall k :: 0 <= k < n ==> k in p)
  }

  ghost predicate DistinctKeys(keys: seq<Key>) {
    forall i, j :: 0 <= i < j < |keys| ==> keys[i] != keys[j]
  }

  function Reordered<T>(p: seq<nat>, xs: seq<T>): (ys: seq<T>)
    requires |p| == |xs| && forall i :: 0 <= i < |p| ==> p[i] < |xs|
    ensures |ys| == |p| && forall i :: 0 <= i < |p| ==> ys[i] == xs[p[i]]
  {
    seq(|p|, i requires 0 <= i < |p| => xs[p[i]])
  }

  lemma SameNames(c: seq<string>, p: seq<nat>)
    requires IsPermutation(p, |c|)
    ensures NamesOf(Reordered(p, c)) == NamesOf(c)
  {
    var d := Reordered(p, c);
    forall x | x in c ensures x in d {
      var k :| 0 <= k < |c| && c[k] == x;
      assert k in p;
      var i :| 0 <= i < |p| && p[i] == k;
      assert d[i] == x;
    }
    forall x | x in d ensures x in c {
      var i :| 0 <= i < |d| && d[i] == x;
      assert c[p[i]] == x;
    }
  }

  /** The group `there` of the reordered list, at the places of the original list. */
  function Seen(there: seq<nat>, p: seq<nat>): (seen: seq<nat>)
    requires forall n :: 0 <= n < |there| ==> there[n] < |p|
    ensures |seen| == |there| && forall n :: 0 <= n < |there| ==> seen[n] == p[there[n]]
  {
    seq(|there|, n requires 0 <= n < |there| => p[there[n]])
  }

  lemma SeenIsIncreasing(c: seq<string>, keys: seq<Key>, p: seq<nat>, name: string)
    requires |keys| == |c| && IsPermutation(p, |c|) && DistinctKeys(keys)
    ensures Increasing(Seen(Group(Reordered(p, c), Reordered(p, keys), name), p), ByKey(keys))
  {
    var d, dkeys := Reordered(p, c), Reordered(p, keys);
    var there := Group(d, dkeys, name);
    var seen := Seen(there, p);
    GroupIsDistinct(d, dkeys, name);
    forall m, n | 0 <= m < n < |seen| ensures ByKey(keys)(seen[m], seen[n]) {
      assert ByKey(dkeys)(there[m], there[n]);
      assert dkeys[there[m]] == keys[seen[m]] && dkeys[there[n]] == keys[seen[n]];
      assert there[m] != there[n] && seen[m] != seen[n];
    }
  }

  lemma SeenHasMembers(c: seq<string>, keys: seq<Key>, p: seq<nat>, name: string, x: nat)
    requires |keys| == |c| && IsPermutation(p, |c|)
    ensures x in Seen(Group(Reordered(p, c), Reordered(p, keys), name), p) <==> x in Members(c, name)
  {
    var d := Reordered(p, c);
    var there := Group(d, Reordered(p, keys), name);
    var seen := Seen(there, p);
    if x in seen {
      var n :| 0 <= n < |seen| && seen[n] == x;
      assert d[there[n]] == name;
    }
    if x in Members(c, name) {
      assert x in p;
      var i :| 0 <= i < |p| && p[i] == x;
      assert i in Members(d, name) && i in there;
      var n :| 0 <= n < |there| && there[n] == i;
      assert seen[n] == x;
    }
  }

  /** A group of the reordered list, seen through `p`, is the group of the original list. */
  lemma SameGroup(c: seq<string>, keys: seq<Key>, p: seq<nat>, name: string)
    requires |keys| == |c| && IsPermutation(p, |c|) && DistinctKeys(keys)
    ensures Seen(Group(Reordered(p, c), Reordered(p, keys), name), p) == Group(c, keys, name)
    ensures |Members(Reordered(p, c), name)| == |Members(c, name)|
  {
    var seen := Seen(Group(Reordered(p, c), Reordered(p, keys), name), p);
    ByKeyIsOrder(keys, Members(c, name));
    SeenIsIncreasing(c, keys, p, name);
    forall x ensures x in seen <==> x in Members(c, name) { SeenHasMembers(c, keys, p, name, x); }
    ListingIsUnique(seen, Group(c, keys, name), Members(c, name), ByKey(keys));
  }

  lemma {:induction false} SameTaken(c: seq<string>, d: seq<string>, names: seq<string>)
    requires NamesOf(c) == NamesOf(d) && forall name :: |Members(c, name)| == |Members(d, name)|
    ensures TakenAfter(c, names) == TakenAfter(d, names)
  {
    if names != [] { SameTaken(c, d, names[..|names| - 1]); }
  }

  lemma SameName(c: seq<string>, d: seq<string>, names: seq<string>, g: nat, n: nat)
    requires g < |names| && n < |Members(c, names[g])| == |Members(d, names[g])|
    requires TakenAfter(c, names[..g]) == TakenAfter(d, names[..g])
    ensures NameOf(c, names, g, n) == NameOf(d, names, g, n)
  {
    assert Renamed(c, names[g]) == Renamed(d, names[g]);
  }

  /** With distinct keys, reordering the tools reorders their names and changes none of them. */
  lemma OrderDoesNotMatter(c: seq<string>, keys: seq<Key>, result: seq<string>, p: seq<nat>, permuted: seq<string>)
    requires |keys| == |c| && IsPermutation(p, |c|) && DistinctKeys(keys)
    requires Assigned(c, keys, result)
    requires Assigned(Reordered(p, c), Reordered(p, keys), permuted)
    ensures permuted == Reordered(p, result)
  {
    var d, dkeys := Reordered(p, c), Reordered(p, keys);
    SameNames(c, p);
    forall name ensures |Members(c, name)| == |Members(d, name)| { SameGroup(c, keys, p, name); }
    StringsAreOrdered(NamesOf(c));
    var names := NamesInOrder(c);
    ListingIsUnique(names, NamesInOrder(d), NamesOf(c), StrBefore);
    forall i | 0 <= i < |d| ensures permuted[i] == result[p[i]] {
      var g, n := Place(d, dkeys, i);
      SameGroup(c, keys, p, d[i]);
      assert Group(c, keys, d[i])[n] == p[i];
      SameTaken(c, d, names[..g]);
      SameName(c, d, names, g, n);
      assert Settled(d, dkeys, names, g, permuted) && Settled(c, keys, names, g, result);
    }
  }

  // ---------------------------------------------------------------- reserved names

  /** Numbering an unreserved slug gives a reserved name for one stem only: `mcp` has nothing to
      fear by itself, but `mcp_2` starts with the prefix that `finish_reserved` keeps out. */
  lemma NumberedIsReservedIffMcp(name: string, k: nat)
    requires Slug(name) && name != [] && !IsReserved(name)
    ensures IsReserved(Numbered(name, k)) <==> name == "mcp"
  {
    var numbered := Numbered(name, k);
    var last := numbered[|numbered| - 1];
    LastDigit(k);
    assert Digit(last);
    assert numbered !in RESERVED by {
      assert forall r :: r in RESERVED ==> !Digit(r[|r| - 1]);
    }
    if name == "mcp" {
      assert numbered[..4] == "mcp_";
    } else {
      NoPrefix(name, k);
    }
  }

  lemma LastDigit(k: nat)
    ensures var s := Text.Decimal(k); Digit(s[|s| - 1])
  {
  }

  lemma NoPrefix(name: string, k: nat)
    requires Slug(name) && name != [] && !IsReserved(name) && name != "mcp"
    ensures !("mcp." <= Numbered(name, k)) && !("mcp_" <= Numbered(name, k))
  {
    var numbered := Numbered(name, k);
    if |name| >= 4 {
      assert name[..4] == numbered[..4];
    } else if |name| == 3 {
      assert name == [name[0], name[1], name[2]];
      assert numbered[..3] == name;
    } else {
      assert numbered[|name|] == '_';
      assert "mcp"[|name|] != '_';
    }
  }

  /** `Uniquify` returns a reserved name exactly where it numbers a tool that was called `mcp`. */
  lemma ReservedOnlyFromMcp(c: seq<string>, keys: seq<Key>, result: seq<string>, i: nat)
    requires |keys| == |c| && Assigned(c, keys, result) && i < |c|
    requires Slug(c[i]) && c[i] != [] && !IsReserved(c[i])
    ensures IsReserved(result[i]) <==> c[i] == "mcp" && result[i] != c[i]
  {
    ExactlyTheFirstKeepsItsName(c, keys, result, i);
    if result[i] != c[i] {
      var k: nat :| k >= 2 && result[i] == Numbered(c[i], k);
      NumberedIsReservedIffMcp(c[i], k);
    }
  }

  /** Two tools called `mcp`: one of them ends up under a reserved name. */
  lemma TwoMcpTools(keys: seq<Key>, result: seq<string>)
    requires |keys| == 2 && Assigned(["mcp", "mcp"], keys, result)
    ensures IsReserved(result[0]) || IsReserved(result[1])
  {
    var c := ["mcp", "mcp"];
    assert Slug("mcp") && !IsReserved("mcp");
    NamesAreDistinct(c, keys, result, 0, 1);
    assert c[0] == c[1] == "mcp";
    ReservedOnlyFromMcp(c, keys, result, 0);
    ReservedOnlyFromMcp(c, keys, result, 1);
  }
}
