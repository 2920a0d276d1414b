/** Array helpers the source reaches for: `filter`, and a stable `sort`
    whose comparator orders by a string key. */
module Seqs {
  import opened Wrappers
  import opened Text

  /** `s.filter(p)` */
  function FilterSeq<T>(s: seq<T>, p: T -> bool): (r: seq<T>)
    ensures |r| <= |s|
    ensures forall i :: 0 <= i < |r| ==> p(r[i])
    ensures multiset(r) <= multiset(s)
  {
    if s == [] then []
    else
      assert s == [s[0]] + s[1..];
      if p(s[0]) then [s[0]] + FilterSeq(s[1..], p)
      else FilterSeq(s[1..], p)
  }

  /** An element is kept exactly when it occurs in `s` and passes `p`. */
  lemma {:induction false} FilterSeqMembers<T>(s: seq<T>, p: T -> bool, x: T)
    ensures x in FilterSeq(s, p) <==> x in s && p(x)
  {
    if s != [] {
      FilterSeqMembers(s[1..], p, x);
      assert x in s <==> x == s[0] || x in s[1..];
    }
  }

  /** Filtering keeps the multiplicity of each element that passes. */
  lemma {:induction false} FilterSeqCount<T>(s: seq<T>, p: T -> bool, x: T)
    requires p(x)
    ensures multiset(FilterSeq(s, p))[x] == multiset(s)[x]
  {
    if s != [] {
      FilterSeqCount(s[1..], p, x);
      assert s == [s[0]] + s[1..];
      assert multiset(s) == multiset([s[0]]) + multiset(s[1..]);
      if p(s[0]) {
        var r := FilterSeq(s[1..], p);
        assert multiset([s[0]] + r) == multiset([s[0]]) + multiset(r);
      }
    }
  }

  lemma FilterSeqAppend<T>(a: seq<T>, b: seq<T>, p: T -> bool)
    ensures FilterSeq(a + b, p) == FilterSeq(a, p) + FilterSeq(b, p)
  {
    if a == [] {
      assert a + b == b;
    } else {
      assert (a + b)[0] == a[0];
      assert (a + b)[1..] == a[1..] + b;
      FilterSeqAppend(a[1..], b, p);
    }
  }

  /** Every element's key is at most the next ones' keys. */
  predicate SortedBy<T>(s: seq<T>, key: T -> string) {
    forall i, j :: 0 <= i < j < |s| ==> LexLeq(key(s[i]), key(s[j]))
  }

  /** Inserts `x` before the first element whose key is not below it. */
  function Insert<T>(x: T, s: seq<T>, key: T -> string): (r: seq<T>)
    requires SortedBy(s, key)
    ensures SortedBy(r, key)
    ensures multiset(r) == multiset(s) + multiset{x}
  {
    if s == [] then [x]
    else if LexLeq(key(x), key(s[0])) then
      InsertFront(x, s, key);
      [x] + s
    else
      var rest := Insert(x, s[1..], key);
      LexLeqTotal(key(x), key(s[0]));
      InsertBehind(s[0], rest, s[1..], x, key);
      assert s == [s[0]] + s[1..];
      [s[0]] + rest
  }

  lemma InsertFront<T>(x: T, s: seq<T>, key: T -> string)
    requires SortedBy(s, key) && s != [] && LexLeq(key(x), key(s[0]))
    ensures SortedBy([x] + s, key)
  {
    var r := [x] + s;
    forall i, j | 0 <= i < j < |r| ensures LexLeq(key(r[i]), key(r[j])) {
      if i == 0 && j > 1 {
        LexLeqTransitive(key(x), key(s[0]), key(s[j - 1]));
      }
    }
  }

  lemma InsertBehind<T>(y: T, rest: seq<T>, s: seq<T>, x: T, key: T -> string)
    requires SortedBy(rest, key)
    requires multiset(rest) == multiset(s) + multiset{x}
    requires forall k :: 0 <= k < |s| ==> LexLeq(key(y), key(s[k]))
    requires LexLeq(key(y), key(x))
    ensures SortedBy([y] + rest, key)
  {
    var r := [y] + rest;
    forall i, j | 0 <= i < j < |r| ensures LexLeq(key(r[i]), key(r[j])) {
      if i == 0 {
        var z := rest[j - 1];
        assert z in multiset(rest);
        if z != x {
          assert z in multiset(s);
          var k :| 0 <= k < |s| && s[k] == z;
        }
      }
    }
  }

  /** A stable insertion sort by `key`, the order `Array.prototype.sort`
      yields for a comparator comparing keys. */
  function SortBy<T>(s: seq<T>, key: T -> string): (r: seq<T>)
    ensures SortedBy(r, key)
    ensures multiset(r) == multiset(s)
  {
    if s == [] then []
    else
      assert s == [s[0]] + s[1..];
      Insert(s[0], SortBy(s[1..], key), key)
  }

  predicate NoDup<T(==)>(s: seq<T>) {
    forall i, j :: 0 <= i < j < |s| ==> s[i] != s[j]
  }

  /** `Array.from(new Set(xs))`: each value once, in the order of its first
      occurrence. */
  function Dedup<T(==,!new)>(xs: seq<T>): (r: seq<T>)
    ensures forall x :: x in r <==> x in xs
    ensures NoDup(r)
  {
    if xs == [] then []
    else
      var d := Dedup(xs[..|xs| - 1]);
      var x := xs[|xs| - 1];
      assert forall y :: y in xs <==> y in xs[..|xs| - 1] || y == x by {
        assert xs == xs[..|xs| - 1] + [x];
      }
      if x in d then d else d + [x]
  }

  /** Order of first occurrence: when `r[j]` first shows up in `xs`, every
      earlier `r[i]` has already shown up. */
  lemma {:induction false} DedupOrder<T(!new)>(xs: seq<T>, i: nat, j: nat)
    requires i < j < |Dedup(xs)|
    ensures exists k :: (0 <= k < |xs| && xs[k] == Dedup(xs)[j]
                         && Dedup(xs)[i] in xs[..k] && Dedup(xs)[j] !in xs[..k])
    decreases |xs|
  {
    var n := |xs|;
    var prefix := xs[..n - 1];
    var d := Dedup(prefix);
    var r := Dedup(xs);
    if j < |d| {
      assert r[i] == d[i] && r[j] == d[j];
      DedupOrder(prefix, i, j);
      var k :| 0 <= k < |prefix| && prefix[k] == d[j] && d[i] in prefix[..k] && d[j] !in prefix[..k];
      assert prefix[..k] == xs[..k];
    } else {
      assert r == d + [xs[n - 1]] && j == |d|;
      assert r[i] in d;
      assert xs[..n - 1] == prefix;
    }
  }

  /** `s.map(f)` */
  function MapSeq<A, B>(s: seq<A>, f: A -> B): (r: seq<B>)
    ensures |r| == |s| && forall i :: 0 <= i < |s| ==> r[i] == f(s[i])
  {
    seq(|s|, i requires 0 <= i < |s| => f(s[i]))
  }

  /** `f` maps an element to a kept value, or drops it. */
  function FilterMap<A, B>(s: seq<A>, f: A -> Option<B>): (r: seq<B>)
    ensures |r| <= |s|
  {
    if s == [] then []
    else
      var rest := FilterMap(s[..|s| - 1], f);
      match f(s[|s| - 1])
      case Some(y) => rest + [y]
      case None => rest
  }

  /** One more element of the prefix a loop has consumed, through `FilterMap`. */
  lemma FilterMapSnoc<A, B>(s: seq<A>, i: nat, f: A -> Option<B>)
    requires i < |s|
    ensures f(s[i]).None? ==> FilterMap(s[..i + 1], f) == FilterMap(s[..i], f)
    ensures f(s[i]).Some? ==> FilterMap(s[..i + 1], f) == FilterMap(s[..i], f) + [f(s[i]).value]
  {
    assert s[..i + 1][..i] == s[..i];
  }

  /** A value is kept exactly when some element maps to it. */
  lemma {:induction false} FilterMapMembers<A, B>(s: seq<A>, f: A -> Option<B>, y: B)
    ensures y in FilterMap(s, f) <==> exists i :: 0 <= i < |s| && f(s[i]) == Some(y)
  {
    if s != [] {
      var n := |s|;
      var prefix := s[..n - 1];
      FilterMapMembers(prefix, f, y);
      if exists i :: 0 <= i < n && f(s[i]) == Some(y) {
        var i :| 0 <= i < n && f(s[i]) == Some(y);
        if i < n - 1 {
          assert prefix[i] == s[i];
        }
      }
      if y in FilterMap(prefix, f) {
        var i :| 0 <= i < n - 1 && f(prefix[i]) == Some(y);
        assert s[i] == prefix[i];
      }
    }
  }

  /** When `f` keeps every element, `FilterMap` is a map: one value per
      element, in order. */
  lemma {:induction false} FilterMapAllSome<A, B>(s: seq<A>, f: A -> Option<B>)
    requires forall i :: 0 <= i < |s| ==> f(s[i]).Some?
    ensures |FilterMap(s, f)| == |s|
    ensures forall i :: 0 <= i < |s| ==> FilterMap(s, f)[i] == f(s[i]).value
  {
    if s != [] {
      var n := |s|;
      var prefix := s[..n - 1];
      assert forall i :: 0 <= i < n - 1 ==> prefix[i] == s[i];
      FilterMapAllSome(prefix, f);
    }
  }

  /** Filtering then mapping keeps exactly the images of the passing elements. */
  lemma MapFilterMembers<A, B>(s: seq<A>, p: A -> bool, f: A -> B, y: B)
    ensures y in MapSeq(FilterSeq(s, p), f) <==> exists x :: x in s && p(x) && y == f(x)
  {
    var kept := FilterSeq(s, p);
    if y in MapSeq(kept, f) {
      var i :| 0 <= i < |kept| && MapSeq(kept, f)[i] == y;
      FilterSeqMembers(s, p, kept[i]);
    }
    if x :| x in s && p(x) && y == f(x) {
      FilterSeqMembers(s, p, x);
      var i :| 0 <= i < |kept| && kept[i] == x;
      assert MapSeq(kept, f)[i] == y;
    }
  }

  /** Sorting keeps exactly the elements it was given. */
  lemma SortByMembers<T>(s: seq<T>, key: T -> string, x: T)
    ensures x in SortBy(s, key) <==> x in s
  {
    assert x in SortBy(s, key) <==> x in multiset(SortBy(s, key));
  }

  /** A `Map` filled with `map.set(key(item), item)` for every item in order. */
  function LastWins<V>(items: seq<V>, key: V -> string): map<string, V>
  {
    if items == [] then map[]
    else
      var last := items[|items| - 1];
      LastWins(items[..|items| - 1], key)[key(last) := last]
  }

  /** A key is present exactly when some item has it, and it maps to the last
      such item. */
  lemma {:induction false} LastWinsSpec<V>(items: seq<V>, key: V -> string, k: string)
    ensures k in LastWins(items, key) <==> exists i :: 0 <= i < |items| && key(items[i]) == k
    ensures k in LastWins(items, key) ==>
      exists i :: (0 <= i < |items| && LastWins(items, key)[k] == items[i]
                   && key(items[i]) == k && forall j :: i < j < |items| ==> key(items[j]) != k)
  {
    if items != [] {
      var n := |items|;
      var prefix := items[..n - 1];
      LastWinsSpec(prefix, key, k);
      if key(items[n - 1]) != k {
        if k in LastWins(prefix, key) {
          var i :| 0 <= i < |prefix| && LastWins(prefix, key)[k] == prefix[i]
            && key(prefix[i]) == k && forall j :: i < j < |prefix| ==> key(prefix[j]) != k;
          assert items[i] == prefix[i];
        }
        if exists i :: 0 <= i < n && key(items[i]) == k {
          var i :| 0 <= i < n && key(items[i]) == k;
          assert prefix[i] == items[i];
        }
      }
    }
  }

  /** One more element through `FilterMap` and then `Dedup`: its value is
      appended unless it is already there. */
  lemma DedupFilterMapStep<A, B(!new)>(s: seq<A>, x: A, f: A -> Option<B>)
    ensures f(x).None? ==> Dedup(FilterMap(s + [x], f)) == Dedup(FilterMap(s, f))
    ensures f(x).Some? && f(x).value in Dedup(FilterMap(s, f)) ==>
      Dedup(FilterMap(s + [x], f)) == Dedup(FilterMap(s, f))
    ensures f(x).Some? && f(x).value !in Dedup(FilterMap(s, f)) ==>
      Dedup(FilterMap(s + [x], f)) == Dedup(FilterMap(s, f)) + [f(x).value]
  {
    assert (s + [x])[..|s|] == s;
  }

  /** One more element of the prefix a loop has consumed. */
  lemma TakeSnoc<T>(s: seq<T>, i: nat)
    requires i < |s|
    ensures s[..i + 1] == s[..i] + [s[i]]
  {
  }

  /** Filtering then filter-mapping keeps exactly the values of the passing
      elements. */
  lemma FilterThenFilterMapMembers<A, B>(s: seq<A>, p: A -> bool, f: A -> Option<B>, y: B)
    ensures y in FilterMap(FilterSeq(s, p), f) <==> exists x :: x in s && p(x) && f(x) == Some(y)
  {
    var kept := FilterSeq(s, p);
    FilterMapMembers(kept, f, y);
    if i :| 0 <= i < |kept| && f(kept[i]) == Some(y) {
      assert kept[i] in kept;
      FilterSeqMembers(s, p, kept[i]);
    }
    if x :| x in s && p(x) && f(x) == Some(y) {
      FilterSeqMembers(s, p, x);
      var i :| 0 <= i < |kept| && kept[i] == x;
    }
  }

  /** A non-empty sequence is its front followed by its last element. */
  lemma SplitLast<T>(s: seq<T>)
    requires s != []
    ensures s == s[..|s| - 1] + [s[|s| - 1]]
  {
  }

  /** The prefix a loop has consumed once it is done. */
  lemma TakeAll<T>(s: seq<T>)
    ensures s[..|s|] == s
  {
  }
  lemma {:induction false} NoDupCount<T>(s: seq<T>, x: T)
    requires NoDup(s)
    ensures multiset(s)[x] <= 1
  {
    if s != [] {
      assert s == [s[0]] + s[1..];
      NoDupCount(s[1..], x);
      if x == s[0] {
        assert x !in s[1..];
      }
    }
  }

  lemma TwiceCount<T>(t: seq<T>, i: nat, j: nat)
    requires i < j < |t|
    ensures t[i] == t[j] ==> multiset(t)[t[i]] >= 2
  {
    assert t == t[..j] + [t[j]] + t[j + 1..];
    assert t[..j][i] == t[i];
  }

  /** No duplicates is a property of the multiset of elements. */
  lemma NoDupMultiset<T>(s: seq<T>, t: seq<T>)
    requires NoDup(s) && multiset(s) == multiset(t)
    ensures NoDup(t)
  {
    forall i, j | 0 <= i < j < |t| ensures t[i] != t[j] {
      TwiceCount(t, i, j);
      NoDupCount(s, t[i]);
    }
  }

  /** The elements of `row`, each paired with `m`, in order. */
  function Row<M, F, E>(m: M, row: seq<F>, make: (M, F) -> E): (r: seq<E>)
    ensures |r| == |row|
  {
    if row == [] then []
    else Row(m, row[..|row| - 1], make) + [make(m, row[|row| - 1])]
  }

  /** Nested `forEach` over `ms` and each `fs(m)`, pushing `make(m, f)`. */
  function Pairs<M, F, E>(ms: seq<M>, fs: M -> seq<F>, make: (M, F) -> E): seq<E>
  {
    if ms == [] then []
    else Pairs(ms[..|ms| - 1], fs, make) + Row(ms[|ms| - 1], fs(ms[|ms| - 1]), make)
  }

  /** The number of (m, f) pairs. */
  function PairCount<M, F>(ms: seq<M>, fs: M -> seq<F>): nat
  {
    if ms == [] then 0 else PairCount(ms[..|ms| - 1], fs) + |fs(ms[|ms| - 1])|
  }

  /** One more element of the row a loop has consumed. */
  lemma RowSnoc<M, F, E>(m: M, row: seq<F>, make: (M, F) -> E, j: nat)
    requires j < |row|
    ensures Row(m, row[..j + 1], make) == Row(m, row[..j], make) + [make(m, row[j])]
  {
    assert row[..j + 1][..j] == row[..j];
  }

  /** One more outer element a loop has consumed. */
  lemma PairsSnoc<M, F, E>(ms: seq<M>, fs: M -> seq<F>, make: (M, F) -> E, i: nat)
    requires i < |ms|
    ensures Pairs(ms[..i + 1], fs, make) == Pairs(ms[..i], fs, make) + Row(ms[i], fs(ms[i]), make)
  {
    assert ms[..i + 1][..i] == ms[..i];
  }

  /** Nested `forEach` loops over `ms` and each `fs(m)`, pushing
      `make(m, f)` onto an array. */
  method PushPairs<M, F, E>(ms: seq<M>, fs: M -> seq<F>, make: (M, F) -> E) returns (pushed: seq<E>)
    ensures pushed == Pairs(ms, fs, make)
  {
    pushed := [];
    for i := 0 to |ms|
      invariant pushed == Pairs(ms[..i], fs, make)
    {
      var m := ms[i];
      var row := fs(m);
      for j := 0 to |row|
        invariant pushed == Pairs(ms[..i], fs, make) + Row(m, row[..j], make)
      {
        RowSnoc(m, row, make, j);
        pushed := pushed + [make(m, row[j])];
      }
      TakeAll(row);
      PairsSnoc(ms, fs, make, i);
    }
    TakeAll(ms);
  }

  /** Sorting the pairs' images: as many as there are pairs, sorted, and an
      element is some pair's image. */
  lemma SortedPairsSpec<M, F, E>(ms: seq<M>, fs: M -> seq<F>, make: (M, F) -> E, key: E -> string, e: E)
    ensures |SortBy(Pairs(ms, fs, make), key)| == PairCount(ms, fs)
    ensures SortedBy(SortBy(Pairs(ms, fs, make), key), key)
    ensures e in SortBy(Pairs(ms, fs, make), key) <==>
      exists i, j :: 0 <= i < |ms| && 0 <= j < |fs(ms[i])| && e == make(ms[i], fs(ms[i])[j])
  {
    var pushed := Pairs(ms, fs, make);
    PairsCount(ms, fs, make);
    PairsMembers(ms, fs, make, e);
    SortByMembers(pushed, key, e);
    assert |multiset(SortBy(pushed, key))| == |multiset(pushed)|;
  }

  lemma {:induction false} RowAt<M, F, E>(m: M, row: seq<F>, make: (M, F) -> E, j: nat)
    requires j < |row|
    ensures Row(m, row, make)[j] == make(m, row[j])
  {
    if j < |row| - 1 {
      RowAt(m, row[..|row| - 1], make, j);
    }
  }

  lemma {:induction false} RowMembers<M, F, E>(m: M, row: seq<F>, make: (M, F) -> E, e: E)
    ensures e in Row(m, row, make) <==> exists j :: 0 <= j < |row| && e == make(m, row[j])
  {
    var r := Row(m, row, make);
    if e in r {
      var j :| 0 <= j < |r| && r[j] == e;
      RowAt(m, row, make, j);
    }
    if j :| 0 <= j < |row| && e == make(m, row[j]) {
      RowAt(m, row, make, j);
      assert r[j] == e;
    }
  }

  /** `e` is the image of some (m, f) pair. */
  ghost predicate IsPairImage<M, F, E>(ms: seq<M>, fs: M -> seq<F>, make: (M, F) -> E, e: E) {
    exists i, j :: 0 <= i < |ms| && 0 <= j < |fs(ms[i])| && e == make(ms[i], fs(ms[i])[j])
  }

  /** One entry per pair. */
  lemma {:induction false} PairsCount<M, F, E>(ms: seq<M>, fs: M -> seq<F>, make: (M, F) -> E)
    ensures |Pairs(ms, fs, make)| == PairCount(ms, fs)
  {
    if ms != [] {
      PairsCount(ms[..|ms| - 1], fs, make);
    }
  }

  /** A pair's image comes from the last element or from the ones before. */
  lemma PairImageSnoc<M, F, E>(ms: seq<M>, fs: M -> seq<F>, make: (M, F) -> E, e: E)
    requires ms != []
    ensures IsPairImage(ms, fs, make, e) <==>
      IsPairImage(ms[..|ms| - 1], fs, make, e)
      || e in Row(ms[|ms| - 1], fs(ms[|ms| - 1]), make)
  {
    var n := |ms|;
    var front := ms[..n - 1];
    RowMembers(ms[n - 1], fs(ms[n - 1]), make, e);
    if IsPairImage(ms, fs, make, e) {
      var i, j :| 0 <= i < n && 0 <= j < |fs(ms[i])| && e == make(ms[i], fs(ms[i])[j]);
      if i < n - 1 {
        assert front[i] == ms[i];
      }
    }
    if IsPairImage(front, fs, make, e) {
      var i, j :| 0 <= i < |front| && 0 <= j < |fs(front[i])| && e == make(front[i], fs(front[i])[j]);
      assert ms[i] == front[i];
    }
  }

  /** An entry is some pair's image, and every pair's image is an entry. */
  lemma {:induction false} PairsMembers<M, F, E>(ms: seq<M>, fs: M -> seq<F>, make: (M, F) -> E, e: E)
    ensures e in Pairs(ms, fs, make) <==> IsPairImage(ms, fs, make, e)
  {
    if ms != [] {
      var front := ms[..|ms| - 1];
      var last := ms[|ms| - 1];
      PairsMembers(front, fs, make, e);
      PairImageSnoc(ms, fs, make, e);
      assert Pairs(ms, fs, make) == Pairs(front, fs, make) + Row(last, fs(last), make);
    }
  }
}
