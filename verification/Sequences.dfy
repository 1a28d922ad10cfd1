/** Sums, sorting and filtering of sequences.

    Sums of real terms do not depend on the order of the sequence, and a sum over elements is a sum over
    their keys.  Sort is stable insertion sort by any total preorder; two sorted arrangements of the same
    elements agree when no two different elements tie, which is why a table sorted by account does not
    show in which order its rows were made.  Filter keeps the order of what it keeps, so the elements with
    one property can be compared across two interleavings.  Strings are ordered by code point. */
module Sequences {
  ghost predicate Distinct<T(!new)>(s: seq<T>) {
    forall i, j :: 0 <= i < j < |s| ==> s[i] != s[j]
  }

  function Elements<T>(s: seq<T>): set<T> {
    set x | x in s
  }

  lemma {:induction false} ElementsCount<T(!new)>(s: seq<T>)
    ensures |Elements(s)| <= |s|
  {
    if s != [] {
      var n := |s| - 1;
      ElementsCount(s[..n]);
      assert s == s[..n] + [s[n]];
      assert Elements(s) == Elements(s[..n]) + {s[n]};
    }
  }

  // ---------------------------------------------------------------------------------------------
  // Sums
  // ---------------------------------------------------------------------------------------------

  ghost function Sum<T(!new)>(f: T -> real, s: seq<T>): real {
    if s == [] then 0.0 else Sum(f, s[..|s| - 1]) + f(s[|s| - 1])
  }

  lemma SumAppend<T(!new)>(f: T -> real, s: seq<T>, x: T)
    ensures Sum(f, s + [x]) == Sum(f, s) + f(x)
  {
    assert (s + [x])[..|s|] == s;
  }

  lemma {:induction false} SumConcat<T(!new)>(f: T -> real, a: seq<T>, b: seq<T>)
    ensures Sum(f, a + b) == Sum(f, a) + Sum(f, b)
  {
    if b == [] {
      assert a + b == a;
    } else {
      var n := |b| - 1;
      SumConcat(f, a, b[..n]);
      assert (a + b)[..|a + b| - 1] == a + b[..n];
    }
  }

  lemma SumSplit<T(!new)>(f: T -> real, s: seq<T>, n: nat)
    requires n <= |s|
    ensures Sum(f, s) == Sum(f, s[..n]) + Sum(f, s[n..])
  {
    assert s == s[..n] + s[n..];
    SumConcat(f, s[..n], s[n..]);
  }

  lemma {:induction false} SumPointwise<T(!new)>(f: T -> real, g: T -> real, s: seq<T>)
    requires forall k :: 0 <= k < |s| ==> f(s[k]) == g(s[k])
    ensures Sum(f, s) == Sum(g, s)
  {
    if s != [] {
      SumPointwise(f, g, s[..|s| - 1]);
    }
  }

  function Drop<T>(s: seq<T>, k: nat): (r: seq<T>)
    requires k < |s|
    ensures |r| == |s| - 1
  {
    s[..k] + s[k + 1..]
  }

  lemma DropMultiset<T(!new)>(s: seq<T>, k: nat)
    requires k < |s|
    ensures multiset(s) == multiset(Drop(s, k)) + multiset{s[k]}
  {
    assert s == s[..k] + ([s[k]] + s[k + 1..]);
    assert multiset(s) == multiset(s[..k]) + multiset([s[k]] + s[k + 1..]);
  }

  lemma SumAround<T(!new)>(f: T -> real, front: seq<T>, x: T, back: seq<T>)
    ensures Sum(f, front + [x] + back) == Sum(f, front + back) + f(x)
  {
    SumConcat(f, front + [x], back);
    SumAppend(f, front, x);
    SumConcat(f, front, back);
  }

  lemma SplitAt<T(!new)>(s: seq<T>, k: nat, front: seq<T>, x: T, back: seq<T>)
    requires k < |s| && front == s[..k] && x == s[k] && back == s[k + 1..]
    ensures s == front + [x] + back && Drop(s, k) == front + back
  {
  }

  lemma SumDrop<T(!new)>(f: T -> real, s: seq<T>, k: nat)
    requires k < |s|
    ensures Sum(f, s) == Sum(f, Drop(s, k)) + f(s[k])
  {
    var front, x, back := s[..k], s[k], s[k + 1..];
    SplitAt(s, k, front, x, back);
    SumAround(f, front, x, back);
  }

  lemma SameRest<T(!new)>(a: seq<T>, b: seq<T>, k: nat)
    requires a != [] && k < |b| && multiset(a) == multiset(b) && b[k] == a[|a| - 1]
    ensures multiset(a[..|a| - 1]) == multiset(Drop(b, k))
  {
    var n := |a| - 1;
    DropMultiset(a, n);
    DropMultiset(b, k);
    assert Drop(a, n) == a[..n];
    assert multiset(Drop(a, n)) == multiset(a) - multiset{a[n]};
    assert multiset(Drop(b, k)) == multiset(b) - multiset{b[k]};
  }

  lemma {:induction false} SumPermutation<T(!new)>(f: T -> real, a: seq<T>, b: seq<T>)
    requires multiset(a) == multiset(b)
    ensures Sum(f, a) == Sum(f, b)
  {
    if a == [] {
      assert |multiset(b)| == 0;
    } else {
      var n := |a| - 1;
      assert a[n] in multiset(b);
      var k :| 0 <= k < |b| && b[k] == a[n];
      SameRest(a, b, k);
      SumPermutation(f, a[..n], Drop(b, k));
      SumDrop(f, b, k);
    }
  }

  // ---------------------------------------------------------------------------------------------
  // Sorting
  // ---------------------------------------------------------------------------------------------

  ghost predicate TotalPreorder<T(!new)>(leq: (T, T) -> bool) {
    && (forall x, y :: leq(x, y) || leq(y, x))
    && (forall x, y, z :: leq(x, y) && leq(y, z) ==> leq(x, z))
  }

  ghost predicate SortedBy<T(!new)>(leq: (T, T) -> bool, s: seq<T>) {
    forall i, j :: 0 <= i < j < |s| ==> leq(s[i], s[j])
  }

  function Insert<T>(leq: (T, T) -> bool, x: T, s: seq<T>): seq<T> {
    if s == [] || leq(x, s[0]) then [x] + s else [s[0]] + Insert(leq, x, s[1..])
  }

  /** A stable sort: equal elements keep their order. */
  function Sort<T>(leq: (T, T) -> bool, s: seq<T>): seq<T> {
    if s == [] then [] else Insert(leq, s[0], Sort(leq, s[1..]))
  }

  lemma SortedCons<T(!new)>(leq: (T, T) -> bool, x: T, s: seq<T>)
    requires SortedBy(leq, s) && forall y :: y in s ==> leq(x, y)
    ensures SortedBy(leq, [x] + s)
    ensures multiset([x] + s) == multiset(s) + multiset{x}
  {
  }

  lemma {:induction false} InsertProperties<T(!new)>(leq: (T, T) -> bool, x: T, s: seq<T>)
    requires TotalPreorder(leq) && SortedBy(leq, s)
    ensures SortedBy(leq, Insert(leq, x, s))
    ensures multiset(Insert(leq, x, s)) == multiset(s) + multiset{x}
  {
    if s == [] || leq(x, s[0]) {
      SortedCons(leq, x, s);
    } else {
      var rest := s[1..];
      var inserted := Insert(leq, x, rest);
      InsertProperties(leq, x, rest);
      forall y | y in inserted ensures leq(s[0], y) {
        assert y in multiset(inserted);
      }
      SortedCons(leq, s[0], inserted);
      assert s == [s[0]] + rest;
    }
  }

  lemma {:induction false} SortProperties<T(!new)>(leq: (T, T) -> bool, s: seq<T>)
    requires TotalPreorder(leq)
    ensures SortedBy(leq, Sort(leq, s)) && multiset(Sort(leq, s)) == multiset(s)
    ensures |Sort(leq, s)| == |s|
  {
    if s != [] {
      SortProperties(leq, s[1..]);
      InsertProperties(leq, s[0], Sort(leq, s[1..]));
      assert s == [s[0]] + s[1..];
    }
    assert |multiset(Sort(leq, s))| == |multiset(s)|;
  }

  lemma {:induction false} InsertLast<T(!new)>(leq: (T, T) -> bool, x: T, s: seq<T>)
    requires TotalPreorder(leq) && SortedBy(leq, s) && s != []
    ensures var r := Insert(leq, x, s);
            r != [] && r[|r| - 1] == if leq(x, s[|s| - 1]) then s[|s| - 1] else x
  {
    if !leq(x, s[0]) && |s| > 1 {
      InsertLast(leq, x, s[1..]);
    } else {
      assert leq(s[0], s[|s| - 1]);
    }
  }

  /** Element k is the last of the greatest. */
  predicate LastGreatest<T(!new)>(leq: (T, T) -> bool, s: seq<T>, k: nat) {
    && k < |s|
    && (forall i :: 0 <= i < k ==> leq(s[i], s[k]))
    && (forall i :: k < i < |s| ==> !leq(s[k], s[i]))
  }

  /** The last of the greatest elements comes last. */
  lemma {:induction false} SortLast<T(!new)>(leq: (T, T) -> bool, s: seq<T>) returns (k: nat)
    requires TotalPreorder(leq) && s != []
    ensures LastGreatest(leq, s, k)
    ensures var r := Sort(leq, s); r != [] && r[|r| - 1] == s[k]
  {
    var rest := s[1..];
    if rest == [] {
      k := 0;
    } else {
      var i := SortLast(leq, rest);
      k := LastInserted(leq, s[0], rest, i);
      assert s == [s[0]] + rest;
    }
  }

  lemma LastInserted<T(!new)>(leq: (T, T) -> bool, x: T, rest: seq<T>, i: nat) returns (k: nat)
    requires TotalPreorder(leq) && LastGreatest(leq, rest, i)
    requires var r := Sort(leq, rest); r != [] && r[|r| - 1] == rest[i]
    ensures LastGreatest(leq, [x] + rest, k)
    ensures var r := Insert(leq, x, Sort(leq, rest)); r != [] && r[|r| - 1] == ([x] + rest)[k]
  {
    SortProperties(leq, rest);
    InsertLast(leq, x, Sort(leq, rest));
    k := GreatestCons(leq, x, rest, i);
  }

  lemma GreatestCons<T(!new)>(leq: (T, T) -> bool, x: T, rest: seq<T>, i: nat) returns (k: nat)
    requires TotalPreorder(leq) && LastGreatest(leq, rest, i)
    ensures LastGreatest(leq, [x] + rest, k)
    ensures ([x] + rest)[k] == if leq(x, rest[i]) then rest[i] else x
  {
    k := if leq(x, rest[i]) then i + 1 else 0;
    var s := [x] + rest;
    forall j | 0 <= j < k ensures leq(s[j], s[k]) {
      assert j > 0 ==> s[j] == rest[j - 1];
    }
    forall j | k < j < |s| ensures !leq(s[k], s[j]) {
      assert s[j] == rest[j - 1];
      assert leq(rest[j - 1], rest[i]) || j - 1 > i;
    }
  }

  lemma LeastFirst<T(!new)>(leq: (T, T) -> bool, a: seq<T>, x: T)
    requires SortedBy(leq, a) && x in a && leq(x, x)
    ensures leq(a[0], x)
  {
    var j :| 0 <= j < |a| && a[j] == x;
    assert j == 0 || leq(a[0], a[j]);
  }

  lemma RestMultiset<T(!new)>(a: seq<T>)
    requires a != []
    ensures multiset(a[1..]) == multiset(a) - multiset{a[0]}
  {
    assert a == [a[0]] + a[1..];
  }

  /** Two sorted arrangements of the same elements agree when no two different elements tie. */
  lemma {:induction false} SortedUnique<T(!new)>(leq: (T, T) -> bool, a: seq<T>, b: seq<T>)
    requires TotalPreorder(leq) && SortedBy(leq, a) && SortedBy(leq, b)
    requires multiset(a) == multiset(b)
    requires forall x, y :: x in a && y in a && leq(x, y) && leq(y, x) ==> x == y
    ensures a == b
    decreases |a|
  {
    if a == [] || b == [] {
      assert |multiset(a)| == 0 && |multiset(b)| == 0;
    } else {
      assert a[0] in multiset(b) && b[0] in multiset(a);
      LeastFirst(leq, a, b[0]);
      LeastFirst(leq, b, a[0]);
      RestMultiset(a);
      RestMultiset(b);
      SortedUnique(leq, a[1..], b[1..]);
    }
  }

  // ---------------------------------------------------------------------------------------------
  // The order of strings: by code point, a prefix first
  // ---------------------------------------------------------------------------------------------

  predicate StringLeq(a: string, b: string) {
    if a == [] then true
    else if b == [] then false
    else if a[0] != b[0] then a[0] < b[0]
    else StringLeq(a[1..], b[1..])
  }

  lemma {:induction false} StringLeqTotal(a: string, b: string)
    ensures StringLeq(a, b) || StringLeq(b, a)
    ensures StringLeq(a, b) && StringLeq(b, a) ==> a == b
  {
    if a != [] && b != [] && a[0] == b[0] {
      StringLeqTotal(a[1..], b[1..]);
      assert a == [a[0]] + a[1..] && b == [b[0]] + b[1..];
    }
  }

  lemma {:induction false} StringLeqTransitive(a: string, b: string, c: string)
    requires StringLeq(a, b) && StringLeq(b, c)
    ensures StringLeq(a, c)
  {
    if a != [] && b != [] && c != [] && a[0] == b[0] == c[0] {
      StringLeqTransitive(a[1..], b[1..], c[1..]);
    }
  }

  lemma StringOrder()
    ensures TotalPreorder(StringLeq)
    ensures forall a, b :: StringLeq(a, b) && StringLeq(b, a) ==> a == b
  {
    forall a, b ensures StringLeq(a, b) || StringLeq(b, a)
                ensures StringLeq(a, b) && StringLeq(b, a) ==> a == b {
      StringLeqTotal(a, b);
    }
    forall a, b, c | StringLeq(a, b) && StringLeq(b, c) ensures StringLeq(a, c) {
      StringLeqTransitive(a, b, c);
    }
  }

  // ---------------------------------------------------------------------------------------------
  // Filtering
  // ---------------------------------------------------------------------------------------------

  function Filter<T>(p: T -> bool, s: seq<T>): (r: seq<T>)
    ensures forall k :: 0 <= k < |r| ==> p(r[k]) && r[k] in s
  {
    if s == [] then []
    else
      var n := |s| - 1;
      Filter(p, s[..n]) + (if p(s[n]) then [s[n]] else [])
  }

  lemma {:induction false} FilterCount<T(!new)>(p: T -> bool, s: seq<T>, x: T)
    requires p(x)
    ensures multiset(Filter(p, s))[x] == multiset(s)[x]
  {
    if s != [] {
      var front, y := s[..|s| - 1], s[|s| - 1];
      FilterCount(p, front, x);
      CountNext(p, s, front, y, x);
    }
  }

  lemma CountNext<T(!new)>(p: T -> bool, s: seq<T>, front: seq<T>, y: T, x: T)
    requires s == front + [y] && p(x) && multiset(Filter(p, front))[x] == multiset(front)[x]
    ensures multiset(Filter(p, s))[x] == multiset(s)[x]
  {
    FilterSnoc(p, front, y);
    CountSnoc(front, y, x);
    CountSnoc(Filter(p, front), y, x);
  }

  lemma FilterSnoc<T(!new)>(p: T -> bool, s: seq<T>, y: T)
    ensures Filter(p, s + [y]) == if p(y) then Filter(p, s) + [y] else Filter(p, s)
  {
    assert (s + [y])[..|s|] == s;
  }

  lemma CountSnoc<T(!new)>(s: seq<T>, y: T, x: T)
    ensures multiset(s + [y])[x] == multiset(s)[x] + if x == y then 1 else 0
  {
  }

  lemma {:induction false} FilterConcat<T(!new)>(p: T -> bool, a: seq<T>, b: seq<T>)
    ensures Filter(p, a + b) == Filter(p, a) + Filter(p, b)
  {
    if b == [] {
      assert a + b == a;
    } else {
      var n := |b| - 1;
      FilterConcat(p, a, b[..n]);
      assert (a + b)[..|a + b| - 1] == a + b[..n];
    }
  }

  lemma FilterOne<T(!new)>(p: T -> bool, x: T)
    ensures Filter(p, [x]) == if p(x) then [x] else []
  {
    assert Filter(p, [x][..0]) == [];
  }

  lemma FilterFirst<T(!new)>(p: T -> bool, x: T, s: seq<T>)
    ensures Filter(p, [x] + s) == (if p(x) then [x] else []) + Filter(p, s)
  {
    FilterConcat(p, [x], s);
    FilterOne(p, x);
  }

  /** Elements that tie with one another. */
  function Ties<T(!new)>(leq: (T, T) -> bool, x: T): T -> bool {
    (y: T) => leq(x, y) && leq(y, x)
  }

  lemma {:induction false} InsertStable<T(!new)>(leq: (T, T) -> bool, x: T, s: seq<T>, y: T)
    requires TotalPreorder(leq)
    ensures Filter(Ties(leq, y), Insert(leq, x, s)) == Filter(Ties(leq, y), [x] + s)
  {
    if s != [] && !leq(x, s[0]) {
      var p, rest := Ties(leq, y), s[1..];
      InsertStable(leq, x, rest, y);
      assert s == [s[0]] + rest;
      FilterFirst(p, s[0], Insert(leq, x, rest));
      FilterFirst(p, x, rest);
      FilterFirst(p, x, s);
      FilterFirst(p, s[0], rest);
      assert !(p(x) && p(s[0]));
    }
  }

  /** Sorting leaves elements that tie in the order they had. */
  lemma {:induction false} SortStable<T(!new)>(leq: (T, T) -> bool, s: seq<T>, y: T)
    requires TotalPreorder(leq)
    ensures Filter(Ties(leq, y), Sort(leq, s)) == Filter(Ties(leq, y), s)
  {
    if s != [] {
      var p, rest := Ties(leq, y), s[1..];
      SortStable(leq, rest, y);
      InsertStable(leq, s[0], Sort(leq, rest), y);
      FilterFirst(p, s[0], Sort(leq, rest));
      FilterFirst(p, s[0], rest);
      assert s == [s[0]] + rest;
    }
  }

  function Flatten<T>(lists: seq<seq<T>>): seq<T> {
    if lists == [] then [] else Flatten(lists[..|lists| - 1]) + lists[|lists| - 1]
  }

  lemma FlattenNext<T(!new)>(lists: seq<seq<T>>, k: nat)
    requires k < |lists|
    ensures Flatten(lists[..k + 1]) == Flatten(lists[..k]) + lists[k]
  {
    assert lists[..k + 1][..k] == lists[..k];
  }

  lemma {:induction false} FlattenEmpty<T(!new)>(lists: seq<seq<T>>)
    ensures Flatten(lists) == [] <==> forall k :: 0 <= k < |lists| ==> lists[k] == []
  {
    if lists != [] {
      var n := |lists| - 1;
      FlattenEmpty(lists[..n]);
      assert |Flatten(lists)| == |Flatten(lists[..n])| + |lists[n]|;
      assert forall k :: 0 <= k < n ==> lists[..n][k] == lists[k];
    }
  }

  function Map<T, U>(f: T -> U, s: seq<T>): (r: seq<U>)
    ensures |r| == |s|
    ensures forall k :: 0 <= k < |s| ==> r[k] == f(s[k])
  {
    seq(|s|, (k: nat) requires k < |s| => f(s[k]))
  }

  /** The values of a key over the elements that satisfy p. */
  function Keys<T, U>(p: T -> bool, key: T -> U, s: seq<T>): seq<U> {
    Map(key, Filter(p, s))
  }

  lemma KeysAppend<T(!new), U(!new)>(p: T -> bool, key: T -> U, s: seq<T>, x: T)
    ensures Keys(p, key, s + [x]) == if p(x) then Keys(p, key, s) + [key(x)] else Keys(p, key, s)
  {
    assert (s + [x])[..|s|] == s;
  }

  lemma {:induction false} KeysElements<T(!new), U(!new)>(p: T -> bool, key: T -> U, s: seq<T>, u: U)
    ensures u in Keys(p, key, s) <==> exists k :: 0 <= k < |s| && p(s[k]) && key(s[k]) == u
  {
    if s != [] {
      var n := |s| - 1;
      KeysElements(p, key, s[..n], u);
      KeysAppend(p, key, s[..n], s[n]);
      assert s == s[..n] + [s[n]];
      if k :| 0 <= k < |s| && p(s[k]) && key(s[k]) == u {
        if k < n {
          assert p(s[..n][k]) && key(s[..n][k]) == u;
        }
      }
      if u in Keys(p, key, s[..n]) {
        var k :| 0 <= k < n && p(s[..n][k]) && key(s[..n][k]) == u;
        assert p(s[k]) && key(s[k]) == u;
      }
    }
  }

  /** No two elements that satisfy p share a key. */
  ghost predicate DistinctKeys<T(!new), U(!new)>(p: T -> bool, key: T -> U, s: seq<T>) {
    forall i, k :: 0 <= i < k < |s| && p(s[i]) && p(s[k]) ==> key(s[i]) != key(s[k])
  }

  lemma {:induction false} KeysDistinct<T(!new), U(!new)>(p: T -> bool, key: T -> U, s: seq<T>)
    requires DistinctKeys(p, key, s)
    ensures Distinct(Keys(p, key, s))
  {
    if s != [] {
      var n := |s| - 1;
      KeysDistinct(p, key, s[..n]);
      KeysAppend(p, key, s[..n], s[n]);
      assert s == s[..n] + [s[n]];
      KeysElements(p, key, s[..n], key(s[n]));
    }
  }

  /** A sum over the elements that satisfy p is a sum over their keys. */
  lemma {:induction false} SumOverKeys<T(!new), U(!new)>(
    f: T -> real, p: T -> bool, key: T -> U, g: U -> real, s: seq<T>)
    requires forall k :: 0 <= k < |s| ==> f(s[k]) == if p(s[k]) then g(key(s[k])) else 0.0
    ensures Sum(f, s) == Sum(g, Keys(p, key, s))
  {
    if s != [] {
      var n := |s| - 1;
      SumOverKeys(f, p, key, g, s[..n]);
      KeysAppend(p, key, s[..n], s[n]);
      assert s == s[..n] + [s[n]];
      if p(s[n]) {
        SumAppend(g, Keys(p, key, s[..n]), key(s[n]));
      }
    }
  }

  lemma {:induction false} DistinctCount<T(!new)>(a: seq<T>, x: T)
    requires Distinct(a)
    ensures multiset(a)[x] == if x in a then 1 else 0
  {
    if a != [] {
      DistinctCount(a[1..], x);
      assert a == [a[0]] + a[1..];
    }
  }

  lemma DistinctSame<T(!new)>(a: seq<T>, b: seq<T>)
    requires Distinct(a) && Distinct(b) && forall x :: x in a <==> x in b
    ensures multiset(a) == multiset(b)
  {
    forall x ensures multiset(a)[x] == multiset(b)[x] {
      DistinctCount(a, x);
      DistinctCount(b, x);
    }
  }
}
