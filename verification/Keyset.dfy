/** The order of a listing and the meaning of one page of it, independent of any backend.
    Items are any values with a cursor; a listing has the newest cursor first. */
module Keyset {
  import opened Wrappers
  import opened Uuids
  import opened Domain

  predicate Newer(a: Cursor, b: Cursor)
  {
    a.createdAt > b.createdAt || (a.createdAt == b.createdAt && StrLess(b.id, a.id))
  }

  predicate After(c: Cursor, after: Option<Cursor>)
  {
    CursorMatchesAfter(c.createdAt, c.id, after)
  }

  lemma NewerIsTotal(a: Cursor, b: Cursor)
    ensures a == b || Newer(a, b) || Newer(b, a)
    ensures !Newer(a, a)
  {
    StrLessTotal(a.id, b.id);
    StrLessIrreflexive(a.id);
  }

  lemma NewerIsTransitive(a: Cursor, b: Cursor, c: Cursor)
    requires Newer(a, b) && Newer(b, c)
    ensures Newer(a, c)
  {
    if a.createdAt == b.createdAt == c.createdAt { StrLessTransitive(c.id, b.id, a.id); }
  }

  lemma NewerIsAsymmetric(a: Cursor, b: Cursor)
    requires Newer(a, b)
    ensures !Newer(b, a) && a != b
  {
    NewerIsTotal(a, b);
    if Newer(b, a) { NewerIsTransitive(a, b, a); }
  }

  predicate Descending<T>(s: seq<T>, key: T -> Cursor)
  {
    forall i, j :: 0 <= i < j < |s| ==> Newer(key(s[i]), key(s[j]))
  }

  ghost function Elems<T>(s: seq<T>): set<T> { set x | x in s }

  // No two items share a cursor: true of a store, where ids are unique.
  ghost predicate Apart<T>(s: set<T>, key: T -> Cursor)
  {
    forall x, y :: x in s && y in s && key(x) == key(y) ==> x == y
  }

  ghost function Matching<T>(s: set<T>, key: T -> Cursor, after: Option<Cursor>): (m: set<T>)
    ensures m <= s
  {
    set x | x in s && After(key(x), after)
  }

  ghost predicate IsNewest<T>(x: T, s: set<T>, key: T -> Cursor)
  {
    x in s && forall y :: y in s && y != x ==> Newer(key(x), key(y))
  }

  lemma {:induction false} NewestExists<T>(s: set<T>, key: T -> Cursor)
    requires s != {} && Apart(s, key)
    ensures exists x :: IsNewest(x, s, key)
  {
    var z :| z in s;
    if s == {z} {
      assert IsNewest(z, s, key);
    } else {
      NewestExists(s - {z}, key);
      var x :| IsNewest(x, s - {z}, key);
      NewerIsTotal(key(x), key(z));
      if Newer(key(z), key(x)) {
        forall y | y in s && y != z ensures Newer(key(z), key(y)) {
          if y != x { NewerIsTransitive(key(z), key(x), key(y)); }
        }
        assert IsNewest(z, s, key);
      } else {
        assert IsNewest(x, s, key);
      }
    }
  }

  lemma PutNewest<T>(x: T, rest: seq<T>, s: set<T>, key: T -> Cursor)
    requires IsNewest(x, s, key) && Elems(rest) == s - {x} && Descending(rest, key)
    ensures Elems([x] + rest) == s && Descending([x] + rest, key)
  {
    var l := [x] + rest;
    forall y ensures y in l <==> y in s {
      assert y in l <==> y == x || y in rest;
      assert y in rest <==> y in Elems(rest);
    }
    forall i, j | 0 <= i < j < |l| ensures Newer(key(l[i]), key(l[j])) {
      assert rest[j - 1] in Elems(rest);
      if i > 0 { assert Newer(key(rest[i - 1]), key(rest[j - 1])); }
    }
  }

  // All items, newest first.
  ghost function Listing<T>(s: set<T>, key: T -> Cursor): (l: seq<T>)
    requires Apart(s, key)
    ensures Elems(l) == s && |l| == |s| && Descending(l, key)
  {
    if s == {} then [] else
      NewestExists(s, key);
      var x :| IsNewest(x, s, key);
      var rest := Listing(s - {x}, key);
      PutNewest(x, rest, s, key);
      [x] + rest
  }

  // A page: the first items of the listing past the cursor, and whether more remain.
  ghost function PageOf<T>(s: set<T>, key: T -> Cursor, page: PageInput): Page<T>
    requires Apart(s, key) && page.first >= 0
  {
    Cut(Listing(Matching(s, key, page.after), key), page.first)
  }

  // The first rows, and whether there were more.
  function Cut<T>(rows: seq<T>, first: int): Page<T>
    requires first >= 0
  {
    Page(rows[..Min(first, |rows|)], |rows| > first)
  }

  // One row past the page is enough to cut it.
  lemma CutLimited<T>(rows: seq<T>, first: int)
    requires first >= 0
    ensures Cut(rows[..Min(first + 1, |rows|)], first) == Cut(rows, first)
  {
    assert rows[..Min(first + 1, |rows|)][..Min(first, |rows|)] == rows[..Min(first, |rows|)];
  }

  function Min(a: int, b: int): int { if a < b then a else b }

  lemma ElemsEmpty<T>(s: seq<T>)
    ensures Elems(s) == {} <==> s == []
  {
    if s != [] { assert s[0] in Elems(s); }
  }

  lemma {:induction false} DescendingIsUnique<T>(a: seq<T>, b: seq<T>, key: T -> Cursor)
    requires Descending(a, key) && Descending(b, key)
    requires Elems(a) == Elems(b)
    ensures a == b
  {
    ElemsEmpty(a);
    ElemsEmpty(b);
    if a != [] {
      assert a[0] in Elems(a) && a[0] in b;
      assert b[0] in Elems(b) && b[0] in a;
      var j :| 0 <= j < |b| && b[j] == a[0];
      var i :| 0 <= i < |a| && a[i] == b[0];
      if j > 0 && i > 0 { NewerIsAsymmetric(key(b[0]), key(a[0])); }
      assert a[0] == b[0];
      forall x ensures x in a[1..] <==> x in b[1..] {
        TailElems(a, key, x);
        TailElems(b, key, x);
        assert x in Elems(a) <==> x in Elems(b);
      }
      assert Elems(a[1..]) == Elems(b[1..]);
      DescendingIsUnique(a[1..], b[1..], key);
      assert a == [a[0]] + a[1..] && b == [b[0]] + b[1..];
    }
  }

  lemma TailElems<T>(s: seq<T>, key: T -> Cursor, x: T)
    requires s != [] && Descending(s, key)
    ensures x in s[1..] <==> x in s && x != s[0]
  {
    NewerIsTotal(key(s[0]), key(s[0]));
  }

  // A listing is the only descending sequence with its elements.
  lemma ListingIsUnique<T>(l: seq<T>, s: set<T>, key: T -> Cursor)
    requires Apart(s, key) && Descending(l, key) && Elems(l) == s
    ensures l == Listing(s, key)
  {
    DescendingIsUnique(l, Listing(s, key), key);
  }

  /** What a page promises a reader: newest first, only matching items, as many as asked for or all,
      nothing skipped, and hasNextPage exactly when something was left. */
  ghost predicate IsPage<T>(s: set<T>, key: T -> Cursor, page: PageInput, r: Page<T>)
  {
    && Descending(r.items, key)
    && Elems(r.items) <= Matching(s, key, page.after)
    && |r.items| == Min(page.first, |Matching(s, key, page.after)|)
    && Newest(Matching(s, key, page.after), key, r.items)
    && (r.hasNextPage <==> Elems(r.items) != Matching(s, key, page.after))
  }

  // Nothing newer than a chosen item is passed over.
  ghost predicate Newest<T>(m: set<T>, key: T -> Cursor, items: seq<T>)
  {
    forall x, y :: x in m && x !in items && y in items ==> Newer(key(y), key(x))
  }

  lemma {:induction false} DescendingCount<T>(s: seq<T>, key: T -> Cursor)
    requires Descending(s, key)
    ensures |Elems(s)| == |s|
  {
    if s != [] {
      DescendingCount(s[1..], key);
      forall x ensures x in s[1..] <==> x in s && x != s[0] { TailElems(s, key, x); }
      assert Elems(s) == {s[0]} + Elems(s[1..]);
    }
  }

  // PageOf keeps the promise, and no other page does.
  lemma PageOfMeaning<T>(s: set<T>, key: T -> Cursor, page: PageInput, r: Page<T>)
    requires Apart(s, key) && page.first >= 0
    ensures IsPage(s, key, page, r) <==> r == PageOf(s, key, page)
  {
    var p := PageOf(s, key, page);
    PageOfIsPage(s, key, page);
    if IsPage(s, key, page, r) {
      SamePrefix(Matching(s, key, page.after), key, p.items, r.items);
    }
  }

  lemma PageOfIsPage<T>(s: set<T>, key: T -> Cursor, page: PageInput)
    requires Apart(s, key) && page.first >= 0
    ensures IsPage(s, key, page, PageOf(s, key, page))
  {
    var m := Matching(s, key, page.after);
    var l := Listing(m, key);
    var items := l[..Min(page.first, |l|)];
    forall x, y | x in m && x !in items && y in items ensures Newer(key(y), key(x)) {
      assert x in Elems(l);
      var i :| 0 <= i < |l| && l[i] == x;
      var j :| 0 <= j < |items| && items[j] == y;
      assert i >= |items|;
    }
    forall x | x in items ensures x in m { assert x in Elems(l); }
    DescendingCount(items, key);
    if page.first < |l| {
      assert |Elems(items)| < |m|;
    } else {
      assert items == l;
    }
  }

  // Two newest-first selections of equal size are equal.
  lemma SamePrefix<T>(m: set<T>, key: T -> Cursor, a: seq<T>, b: seq<T>)
    requires Descending(a, key) && Descending(b, key) && |a| == |b|
    requires Elems(a) <= m && Elems(b) <= m
    requires Newest(m, key, a) && Newest(m, key, b)
    ensures a == b
  {
    DescendingCount(a, key);
    DescendingCount(b, key);
    var ea, eb := Elems(a), Elems(b);
    if ea != eb {
      if ea <= eb { SubsetSize(ea, eb); }
      if eb <= ea { SubsetSize(eb, ea); }
      var x :| x in ea && x !in eb;
      var y :| y in eb && y !in ea;
      NewerIsAsymmetric(key(x), key(y));
    }
    DescendingIsUnique(a, b, key);
  }

  lemma SubsetSize<T>(a: set<T>, b: set<T>)
    requires a <= b && |a| == |b|
    ensures a == b
  {
    var c := b - a;
    assert b == a + c;
  }

  // The elements that satisfy keep, in the order of s.
  function Filter<T>(s: seq<T>, keep: T -> bool): seq<T>
  {
    if s == [] then [] else
      var init := Filter(s[..|s| - 1], keep);
      if keep(s[|s| - 1]) then init + [s[|s| - 1]] else init
  }

  lemma FilterStep<T>(s: seq<T>, keep: T -> bool, i: nat)
    requires i < |s|
    ensures Filter(s[..i + 1], keep) == Filter(s[..i], keep) + if keep(s[i]) then [s[i]] else []
  {
    assert s[..i + 1][..i] == s[..i];
  }

  lemma {:induction false} FilterElems<T>(s: seq<T>, keep: T -> bool)
    ensures forall x :: x in Filter(s, keep) ==> x in s && keep(x)
    ensures forall x :: x in s && keep(x) ==> x in Filter(s, keep)
  {
    if s != [] {
      FilterElems(s[..|s| - 1], keep);
      assert s == s[..|s| - 1] + [s[|s| - 1]];
    }
  }

  lemma {:induction false} FilterPrefix<T>(s: seq<T>, keep: T -> bool, i: nat)
    requires i <= |s|
    ensures Filter(s[..i], keep) <= Filter(s, keep)
    decreases |s| - i
  {
    if i < |s| {
      FilterStep(s, keep, i);
      FilterPrefix(s, keep, i + 1);
    } else {
      assert s[..i] == s;
    }
  }

  // Whatever holds of every pair of s in order still holds after filtering.
  lemma {:induction false} FilterPairs<T>(s: seq<T>, keep: T -> bool, rel: (T, T) -> bool)
    requires forall i, j :: 0 <= i < j < |s| ==> rel(s[i], s[j])
    ensures forall i, j :: 0 <= i < j < |Filter(s, keep)| ==> rel(Filter(s, keep)[i], Filter(s, keep)[j])
  {
    if s != [] {
      var init, f := s[..|s| - 1], Filter(s[..|s| - 1], keep);
      FilterPairs(init, keep, rel);
      FilterElems(init, keep);
      forall i | 0 <= i < |f| ensures rel(f[i], s[|s| - 1]) {
        assert f[i] in f;
        var k :| 0 <= k < |init| && init[k] == f[i];
        assert rel(s[k], s[|s| - 1]);
      }
    }
  }

  lemma FilterDescending<T>(s: seq<T>, keep: T -> bool, key: T -> Cursor)
    requires Descending(s, key)
    ensures Descending(Filter(s, keep), key)
  {
    var rel := (a: T, b: T) => Newer(key(a), key(b));
    assert forall i, j :: 0 <= i < j < |s| ==> rel(s[i], s[j]);
    FilterPairs(s, keep, rel);
  }
}
