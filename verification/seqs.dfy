/** Sequence operations used by the list views: `Array.prototype.filter`, counting, and the
    stable `Array.prototype.sort` with a numeric comparator. */
module Seqs {

  /** `s.filter(p)`: the elements satisfying `p`, in their original order. */
  function Filter<T>(p: T -> bool, s: seq<T>): (r: seq<T>)
    ensures |r| <= |s|
    ensures forall i :: 0 <= i < |r| ==> r[i] in s && p(r[i])
    ensures forall i :: 0 <= i < |s| && p(s[i]) ==> s[i] in r
    ensures multiset(r) <= multiset(s)
    ensures IsSubsequence(r, s)
  {
    if s == [] then []
    else
      var rest := Filter(p, s[1..]);
      FilterStep(p, s, rest);
      if p(s[0]) then [s[0]] + rest else rest
  }

  /** The step of `Filter`: what holds of the filtered tail carries over to the whole. */
  lemma FilterStep<T>(p: T -> bool, s: seq<T>, rest: seq<T>)
    requires s != []
    requires forall i :: 0 <= i < |rest| ==> rest[i] in s[1..] && p(rest[i])
    requires forall i :: 1 <= i < |s| && p(s[i]) ==> s[i] in rest
    requires multiset(rest) <= multiset(s[1..])
    requires IsSubsequence(rest, s[1..])
    ensures var r := if p(s[0]) then [s[0]] + rest else rest;
            && (forall i :: 0 <= i < |r| ==> r[i] in s && p(r[i]))
            && (forall i :: 0 <= i < |s| && p(s[i]) ==> s[i] in r)
            && multiset(r) <= multiset(s)
            && IsSubsequence(r, s)
  {
    assert s == [s[0]] + s[1..];
    var r := if p(s[0]) then [s[0]] + rest else rest;
    forall i | 0 <= i < |r|
      ensures r[i] in s && p(r[i])
    {
      if p(s[0]) && i == 0 {
      } else {
        var j := if p(s[0]) then i - 1 else i;
        assert r[i] == rest[j];
      }
    }
    forall i | 0 <= i < |s| && p(s[i])
      ensures s[i] in r
    {
      if i > 0 {
        assert s[i] in rest;
      }
    }
    if p(s[0]) {
      assert r[1..] == rest;
    }
  }

  /** `s.filter(p).length`. */
  function Count<T>(p: T -> bool, s: seq<T>): (n: nat)
    ensures n <= |s|
    ensures n == |Filter(p, s)|
  {
    |Filter(p, s)|
  }

  /** `s.some(p)` unfolded from the front: some element satisfies `p` exactly when the first
      does or one of the rest does. */
  lemma ExistsCons<T>(p: T -> bool, s: seq<T>)
    requires s != []
    ensures (exists i :: 0 <= i < |s| && p(s[i]))
            <==> p(s[0]) || exists i :: 0 <= i < |s[1..]| && p(s[1..][i])
  {
    if exists i :: 0 <= i < |s[1..]| && p(s[1..][i]) {
      var i :| 0 <= i < |s[1..]| && p(s[1..][i]);
      assert p(s[i + 1]);
    }
    if exists i :: 0 <= i < |s| && p(s[i]) {
      var i :| 0 <= i < |s| && p(s[i]);
      if i > 0 {
        assert p(s[1..][i - 1]);
      }
    }
  }

  /** `r` can be obtained from `s` by deleting elements, keeping the order of the rest. */
  ghost predicate IsSubsequence<T>(r: seq<T>, s: seq<T>)
    decreases |s|
  {
    if r == [] then true
    else if s == [] then false
    else (r[0] == s[0] && IsSubsequence(r[1..], s[1..])) || IsSubsequence(r, s[1..])
  }

  /** Filtering distributes over concatenation. */
  lemma {:induction false} FilterAppend<T>(p: T -> bool, a: seq<T>, b: seq<T>)
    ensures Filter(p, a + b) == Filter(p, a) + Filter(p, b)
  {
    if a == [] {
      assert a + b == b;
    } else {
      assert (a + b)[1..] == a[1..] + b;
      FilterAppend(p, a[1..], b);
    }
  }

  /** Filtering by two predicates in turn is filtering by their conjunction; in particular
      the order in which independent filters run does not matter. */
  lemma {:induction false} FilterFilter<T>(p: T -> bool, q: T -> bool, both: T -> bool, s: seq<T>)
    requires forall x :: both(x) == (p(x) && q(x))
    ensures Filter(q, Filter(p, s)) == Filter(both, s)
  {
    if s != [] {
      FilterFilter(p, q, both, s[1..]);
    }
  }

  /** Filters by predicates that agree everywhere give the same result. */
  lemma {:induction false} FilterExt<T>(p: T -> bool, q: T -> bool, s: seq<T>)
    requires forall x :: p(x) == q(x)
    ensures Filter(p, s) == Filter(q, s)
  {
    if s != [] {
      FilterExt(p, q, s[1..]);
    }
  }

  /** Predicates that agree everywhere count the same elements. */
  lemma CountExt<T>(p: T -> bool, q: T -> bool, s: seq<T>)
    requires forall x :: p(x) == q(x)
    ensures Count(p, s) == Count(q, s)
  {
    FilterExt(p, q, s);
  }

  /** A stage that filters by `p` when `active` and passes everything through otherwise. */
  function Stage<T>(active: bool, p: T -> bool, s: seq<T>): seq<T> {
    if active then Filter(p, s) else s
  }

  /** Four optional filter stages run in turn keep exactly the elements every active stage
      accepts, in their original order. */
  lemma FourStages<T>(a1: bool, p1: T -> bool, a2: bool, p2: T -> bool, a3: bool, p3: T -> bool,
                      a4: bool, p4: T -> bool, all: seq<T>, m: T -> bool)
    requires forall x :: m(x) == ((!a1 || p1(x)) && (!a2 || p2(x)) && (!a3 || p3(x)) && (!a4 || p4(x)))
    ensures Stage(a4, p4, Stage(a3, p3, Stage(a2, p2, Stage(a1, p1, all)))) == Filter(m, all)
  {
    var ok1: T -> bool := x => !a1 || p1(x);
    var ok2: T -> bool := x => !a2 || p2(x);
    var ok3: T -> bool := x => !a3 || p3(x);
    var ok4: T -> bool := x => !a4 || p4(x);
    var ok12: T -> bool := x => ok1(x) && ok2(x);
    var ok123: T -> bool := x => ok12(x) && ok3(x);
    StageAsFilter(a1, p1, ok1, all);
    StageAsFilter(a2, p2, ok2, Filter(ok1, all));
    FilterFilter(ok1, ok2, ok12, all);
    StageAsFilter(a3, p3, ok3, Filter(ok12, all));
    FilterFilter(ok12, ok3, ok123, all);
    StageAsFilter(a4, p4, ok4, Filter(ok123, all));
    FilterFilter(ok123, ok4, m, all);
  }

  /** An optional stage is a filter by "inactive or accepted". */
  lemma StageAsFilter<T>(active: bool, p: T -> bool, ok: T -> bool, s: seq<T>)
    requires forall x :: ok(x) == (!active || p(x))
    ensures Stage(active, p, s) == Filter(ok, s)
  {
    if active {
      FilterExt(p, ok, s);
    } else {
      FilterAll(ok, s);
    }
  }

  /** A filter whose predicate holds of every element keeps the whole sequence. */
  lemma {:induction false} FilterAll<T>(p: T -> bool, s: seq<T>)
    requires forall i :: 0 <= i < |s| ==> p(s[i])
    ensures Filter(p, s) == s
  {
    if s != [] {
      FilterAll(p, s[1..]);
    }
  }

  /** Elements satisfying `p` and elements not satisfying it together make up the whole sequence. */
  lemma {:induction false} CountSplit<T>(p: T -> bool, notP: T -> bool, s: seq<T>)
    requires forall x :: notP(x) == !p(x)
    ensures Count(p, s) + Count(notP, s) == |s|
  {
    if s != [] {
      CountSplit(p, notP, s[1..]);
    }
  }

  /** Keys never decrease from left to right. */
  ghost predicate SortedBy<T>(key: T -> int, s: seq<T>) {
    forall i, j :: 0 <= i < j < |s| ==> key(s[i]) <= key(s[j])
  }

  /** The elements whose key is `k`, in order: the "equal keys" class that a stable sort keeps in order. */
  function KeyClass<T>(key: T -> int, k: int, s: seq<T>): (r: seq<T>)
    ensures |r| <= |s|
  {
    if s == [] then []
    else if key(s[0]) == k then [s[0]] + KeyClass(key, k, s[1..])
    else KeyClass(key, k, s[1..])
  }

  /** Inserts `x` after every element whose key is at most `x`'s key. */
  function Insert<T>(key: T -> int, x: T, s: seq<T>): (r: seq<T>)
    requires SortedBy(key, s)
    ensures SortedBy(key, r)
    ensures multiset(r) == multiset(s) + multiset{x}
    ensures |r| == |s| + 1
  {
    if s == [] then [x]
    else if key(x) < key(s[0]) then [x] + s
    else
      var rest := Insert(key, x, s[1..]);
      InsertHead(key, x, s, rest);
      [s[0]] + rest
  }

  /** The step of `Insert` that keeps the head: the head's key bounds the rest from below. */
  lemma InsertHead<T>(key: T -> int, x: T, s: seq<T>, rest: seq<T>)
    requires s != [] && SortedBy(key, s) && key(s[0]) <= key(x)
    requires SortedBy(key, rest) && multiset(rest) == multiset(s[1..]) + multiset{x}
    ensures SortedBy(key, [s[0]] + rest)
    ensures multiset([s[0]] + rest) == multiset(s) + multiset{x}
  {
    assert s == [s[0]] + s[1..];
    forall i | 0 <= i < |rest|
      ensures key(s[0]) <= key(rest[i])
    {
      assert rest[i] in multiset(rest);
      assert rest[i] == x || rest[i] in s[1..];
    }
  }

  /** Stable ascending sort by an integer key: each element, taken in input order, is inserted
      after all elements already placed whose key does not exceed its own. */
  function SortBy<T>(key: T -> int, s: seq<T>): (r: seq<T>)
    ensures SortedBy(key, r)
    ensures multiset(r) == multiset(s)
    ensures |r| == |s|
  {
    if s == [] then []
    else
      assert s == s[..|s| - 1] + [s[|s| - 1]];
      Insert(key, s[|s| - 1], SortBy(key, s[..|s| - 1]))
  }

  /** A sorted sequence whose every key exceeds `k` has no element with key `k`. */
  lemma {:induction false} KeyClassAbove<T>(key: T -> int, k: int, s: seq<T>)
    requires forall i :: 0 <= i < |s| ==> key(s[i]) > k
    ensures KeyClass(key, k, s) == []
  {
    if s != [] {
      KeyClassAbove(key, k, s[1..]);
    }
  }

  lemma {:induction false} KeyClassAppend<T>(key: T -> int, k: int, a: seq<T>, b: seq<T>)
    ensures KeyClass(key, k, a + b) == KeyClass(key, k, a) + KeyClass(key, k, b)
  {
    if a == [] {
      assert a + b == b;
    } else {
      assert (a + b)[1..] == a[1..] + b;
      KeyClassAppend(key, k, a[1..], b);
    }
  }

  /** Inserting `x` appends it to its own key class and leaves every other class alone. */
  lemma {:induction false} InsertKeyClass<T>(key: T -> int, k: int, x: T, s: seq<T>)
    requires SortedBy(key, s)
    ensures KeyClass(key, k, Insert(key, x, s))
         == KeyClass(key, k, s) + (if key(x) == k then [x] else [])
  {
    if s == [] {
    } else if key(x) < key(s[0]) {
      assert Insert(key, x, s) == [x] + s;
      assert ([x] + s)[1..] == s;
      if key(x) == k {
        KeyClassAbove(key, k, s);
      }
    } else {
      var rest := Insert(key, x, s[1..]);
      assert Insert(key, x, s) == [s[0]] + rest;
      assert ([s[0]] + rest)[1..] == rest;
      InsertKeyClass(key, k, x, s[1..]);
      var head := if key(s[0]) == k then [s[0]] else [];
      assert KeyClass(key, k, [s[0]] + rest) == head + KeyClass(key, k, rest);
      assert KeyClass(key, k, s) == head + KeyClass(key, k, s[1..]);
    }
  }

  /** Stability: elements with equal keys keep their input order. */
  lemma {:induction false} SortByStable<T>(key: T -> int, k: int, s: seq<T>)
    ensures KeyClass(key, k, SortBy(key, s)) == KeyClass(key, k, s)
  {
    if s != [] {
      var init, last := s[..|s| - 1], s[|s| - 1];
      assert s == init + [last];
      var sorted := SortBy(key, init);
      assert SortBy(key, s) == Insert(key, last, sorted);
      SortByStable(key, k, init);
      InsertKeyClass(key, k, last, sorted);
      KeyClassAppend(key, k, init, [last]);
      assert KeyClass(key, k, [last]) == (if key(last) == k then [last] else []);
    }
  }

  /** Sorting the elements that pass a filter: a permutation of exactly those elements,
      sorted, with equal keys in input order. */
  lemma SortFiltered<T>(key: T -> int, p: T -> bool, s: seq<T>, k: int)
    ensures var m := Filter(p, s);
            var r := SortBy(key, m);
            && multiset(r) == multiset(m)
            && (forall i :: 0 <= i < |r| ==> r[i] in s && p(r[i]))
            && (forall i :: 0 <= i < |s| && p(s[i]) ==> s[i] in r)
            && SortedBy(key, r)
            && KeyClass(key, k, r) == KeyClass(key, k, m)
  {
    var m := Filter(p, s);
    var r := SortBy(key, m);
    SortByStable(key, k, m);
    forall i | 0 <= i < |r|
      ensures r[i] in m
    {
      assert r[i] in multiset(r);
    }
    forall i | 0 <= i < |s| && p(s[i])
      ensures s[i] in r
    {
      assert s[i] in multiset(m);
    }
  }

  /** Sorting an already sorted sequence changes nothing. */
  lemma {:induction false} SortBySorted<T>(key: T -> int, s: seq<T>)
    requires SortedBy(key, s)
    ensures SortBy(key, s) == s
  {
    if s != [] {
      var init, last := s[..|s| - 1], s[|s| - 1];
      assert s == init + [last];
      SortBySorted(key, init);
      InsertLast(key, last, init);
    }
  }

  /** An element whose key is at least every key present goes to the end. */
  lemma {:induction false} InsertLast<T>(key: T -> int, x: T, s: seq<T>)
    requires SortedBy(key, s)
    requires forall i :: 0 <= i < |s| ==> key(s[i]) <= key(x)
    ensures Insert(key, x, s) == s + [x]
  {
    if s != [] {
      InsertLast(key, x, s[1..]);
    }
  }
}
