/** Sorting by a strict order.  Library sorts are used through what they
    promise: the result is a permutation in order.  When the order tells
    distinct elements apart there is only one such result, so a full sort and
    the front of a partial sort agree. */
module Sorting {

  ghost predicate StrictOrder<T(!new)>(lt: (T, T) -> bool) {
    && (forall a :: !lt(a, a))
    && (forall a, b, c :: lt(a, b) && lt(b, c) ==> lt(a, c))
    && (forall a, b, c :: lt(a, c) ==> lt(a, b) || lt(b, c))
  }

  ghost predicate TellsApart<T>(lt: (T, T) -> bool, s: seq<T>) {
    forall a, b | a in s && b in s && a != b :: lt(a, b) || lt(b, a)
  }

  predicate Sorted<T>(lt: (T, T) -> bool, s: seq<T>) {
    forall i, j | 0 <= i < j < |s| :: !lt(s[j], s[i])
  }

  /** What `std::partial_sort` promises about its first k positions. */
  predicate FrontSorted<T>(lt: (T, T) -> bool, s: seq<T>, k: nat)
    requires k <= |s|
  {
    Sorted(lt, s[..k]) && forall i, j | 0 <= i < k <= j < |s| :: !lt(s[j], s[i])
  }

  function Insert<T>(lt: (T, T) -> bool, x: T, s: seq<T>): seq<T> {
    if s == [] || lt(x, s[0]) then [x] + s else [s[0]] + Insert(lt, x, s[1..])
  }

  function Sort<T>(lt: (T, T) -> bool, s: seq<T>): (r: seq<T>)
    ensures |r| == |s|
    ensures multiset(r) == multiset(s)
  {
    if s == [] then []
    else
      InsertPermutes(lt, s[0], Sort(lt, s[1..]));
      assert s == [s[0]] + s[1..];
      Insert(lt, s[0], Sort(lt, s[1..]))
  }

  lemma {:induction false} InsertPermutes<T>(lt: (T, T) -> bool, x: T, s: seq<T>)
    ensures multiset(Insert(lt, x, s)) == multiset(s) + multiset{x}
    ensures |Insert(lt, x, s)| == |s| + 1
  {
    if s != [] && !lt(x, s[0]) {
      InsertPermutes(lt, x, s[1..]);
      assert s == [s[0]] + s[1..];
    }
  }

  lemma {:induction false} SameElements<T>(a: seq<T>, b: seq<T>)
    requires multiset(a) == multiset(b)
    ensures |a| == |b|
    ensures forall x :: x in a <==> x in b
  {
    assert |a| == |multiset(a)|;
    assert |b| == |multiset(b)|;
    forall x ensures x in a <==> x in b {
      assert x in a <==> x in multiset(a);
      assert x in b <==> x in multiset(b);
    }
  }

  lemma {:induction false} InsertSorts<T(!new)>(lt: (T, T) -> bool, x: T, s: seq<T>)
    requires StrictOrder(lt) && Sorted(lt, s)
    ensures Sorted(lt, Insert(lt, x, s))
  {
    if s != [] && !lt(x, s[0]) {
      var rest := Insert(lt, x, s[1..]);
      InsertSorts(lt, x, s[1..]);
      InsertPermutes(lt, x, s[1..]);
      SameElements(rest, s[1..] + [x]);
      forall j | 0 <= j < |rest| ensures !lt(rest[j], s[0]) {
        assert rest[j] in s[1..] + [x];
        if rest[j] != x {
          var k :| 0 < k < |s| && s[k] == rest[j];
        }
      }
    } else if s != [] {
      forall j | 0 <= j < |s| ensures !lt(s[j], x) {
        var y, z := s[j], s[0];
        assert lt(y, x) && lt(x, z) ==> lt(y, z);
      }
    }
  }

  lemma {:induction false} SortSorts<T(!new)>(lt: (T, T) -> bool, s: seq<T>)
    requires StrictOrder(lt)
    ensures Sorted(lt, Sort(lt, s))
  {
    if s != [] {
      SortSorts(lt, s[1..]);
      InsertSorts(lt, s[0], Sort(lt, s[1..]));
    }
  }

  /** A sorted permutation is unique when the order tells its elements apart. */
  lemma {:induction false} SortedIsUnique<T(!new)>(lt: (T, T) -> bool, a: seq<T>, b: seq<T>)
    requires StrictOrder(lt) && TellsApart(lt, a)
    requires Sorted(lt, a) && Sorted(lt, b) && multiset(a) == multiset(b)
    ensures a == b
  {
    SameElements(a, b);
    if a != [] {
      SameFirst(lt, a, b);
      SameRest(a, b);
      assert a == [a[0]] + a[1..] && b == [b[0]] + b[1..];
      SortedIsUnique(lt, a[1..], b[1..]);
    }
  }

  lemma {:induction false} SameFirst<T(!new)>(lt: (T, T) -> bool, a: seq<T>, b: seq<T>)
    requires TellsApart(lt, a) && Sorted(lt, a) && Sorted(lt, b) && a != [] && b != [] && a[0] in b && b[0] in a
    ensures a[0] == b[0]
  {
    var i :| 0 <= i < |a| && a[i] == b[0];
    var j :| 0 <= j < |b| && b[j] == a[0];
    assert i > 0 ==> !lt(a[i], a[0]);
    assert j > 0 ==> !lt(b[j], b[0]);
  }

  lemma {:induction false} SameRest<T>(a: seq<T>, b: seq<T>)
    requires multiset(a) == multiset(b) && a != [] && b != [] && a[0] == b[0]
    ensures multiset(a[1..]) == multiset(b[1..])
  {
    assert a == [a[0]] + a[1..] && b == [b[0]] + b[1..];
    assert multiset(a[1..]) == multiset(a) - multiset{a[0]};
    assert multiset(b[1..]) == multiset(b) - multiset{b[0]};
  }

  lemma {:induction false} SortIsTheSortedPermutation<T(!new)>(lt: (T, T) -> bool, s: seq<T>, sorted: seq<T>)
    requires StrictOrder(lt) && TellsApart(lt, s)
    requires Sorted(lt, sorted) && multiset(sorted) == multiset(s)
    ensures sorted == Sort(lt, s)
  {
    SortSorts(lt, s);
    SameElements(s, sorted);
    SortedIsUnique(lt, sorted, Sort(lt, s));
  }

  lemma {:induction false} JoinSorted<T>(lt: (T, T) -> bool, partial: seq<T>, k: nat, back: seq<T>)
    requires k <= |partial| && FrontSorted(lt, partial, k)
    requires Sorted(lt, back) && multiset(back) == multiset(partial[k..])
    ensures Sorted(lt, partial[..k] + back)
    ensures multiset(partial[..k] + back) == multiset(partial)
  {
    SameElements(back, partial[k..]);
    assert partial == partial[..k] + partial[k..];
    var whole := partial[..k] + back;
    forall i, j | 0 <= i < j < |whole| ensures !lt(whole[j], whole[i]) {
      if i < k <= j {
        assert whole[j] in back;
        var m :| k <= m < |partial| && partial[m] == whole[j];
      } else if j < k {
        assert partial[..k][i] == whole[i] && partial[..k][j] == whole[j];
      }
    }
  }

  /** The front of a partial sort is the front of the full sort. */
  lemma {:induction false} PartialSortAgrees<T(!new)>(lt: (T, T) -> bool, s: seq<T>, partial: seq<T>, k: nat)
    requires StrictOrder(lt) && TellsApart(lt, s)
    requires multiset(partial) == multiset(s) && k <= |partial| && FrontSorted(lt, partial, k)
    ensures k <= |s| && partial[..k] == Sort(lt, s)[..k]
  {
    SameElements(s, partial);
    var back := Sort(lt, partial[k..]);
    SortSorts(lt, partial[k..]);
    JoinSorted(lt, partial, k, back);
    SortIsTheSortedPermutation(lt, s, partial[..k] + back);
  }

  /** A partial sort by repeated selection: it meets `std::partial_sort`'s promise. */
  method SelectFront<T(!new)>(lt: (T, T) -> bool, s: seq<T>, k: nat) returns (r: seq<T>)
    requires StrictOrder(lt) && k <= |s|
    ensures multiset(r) == multiset(s) && |r| == |s|
    ensures FrontSorted(lt, r, k)
  {
    r := s;
    for i := 0 to k
      invariant |r| == |s| && multiset(r) == multiset(s)
      invariant FrontSorted(lt, r, i)
    {
      var best := SelectBest(lt, r, i);
      ghost var before := r;
      r := r[i := r[best]][best := r[i]];
      FrontGrows(lt, before, r, i, best);
    }
  }

  method SelectBest<T(!new)>(lt: (T, T) -> bool, s: seq<T>, from: nat) returns (best: nat)
    requires StrictOrder(lt) && from < |s|
    ensures from <= best < |s| && forall m | from <= m < |s| :: !lt(s[m], s[best])
  {
    best := from;
    for j := from + 1 to |s|
      invariant from <= best < j
      invariant forall m | from <= m < j :: !lt(s[m], s[best])
    {
      if lt(s[j], s[best]) {
        ghost var old_best := best;
        best := j;
        forall m | from <= m < j ensures !lt(s[m], s[best]) {
          var x, y, z := s[m], s[j], s[old_best];
          assert lt(x, y) && lt(y, z) ==> lt(x, z);
        }
      }
    }
  }

  lemma {:induction false} FrontGrows<T(!new)>(lt: (T, T) -> bool, before: seq<T>, after: seq<T>, i: nat, best: nat)
    requires i <= best < |before| && FrontSorted(lt, before, i)
    requires forall m | i <= m < |before| :: !lt(before[m], before[best])
    requires after == before[i := before[best]][best := before[i]]
    ensures FrontSorted(lt, after, i + 1) && multiset(after) == multiset(before)
  {
    var front := after[..i + 1];
    forall p, q | 0 <= p < q < |front| ensures !lt(front[q], front[p]) {
      if q < i {
        assert before[..i][p] == after[p] && before[..i][q] == after[q];
      }
    }
    forall p, q | 0 <= p < i + 1 <= q < |after| ensures !lt(after[q], after[p]) {
      if q == best { assert after[q] == before[i]; } else { assert after[q] == before[q]; }
      if p < i { assert after[p] == before[p]; }
    }
  }

  // ----- sorting a list through a view of its elements -----

  function Map<S, T>(f: S -> T, s: seq<S>): seq<T> {
    seq(|s|, k requires 0 <= k < |s| => f(s[k]))
  }

  lemma {:induction false} InsertThroughView<S, T>(f: S -> T, less: (S, S) -> bool, lt: (T, T) -> bool, x: S, s: seq<S>)
    requires forall a, b :: less(a, b) <==> lt(f(a), f(b))
    ensures Map(f, Insert(less, x, s)) == Insert(lt, f(x), Map(f, s))
  {
    if s != [] && !less(x, s[0]) {
      InsertThroughView(f, less, lt, x, s[1..]);
      assert Map(f, s)[1..] == Map(f, s[1..]);
    }
  }

  /** Sorting candidates by their views is sorting the views. */
  lemma {:induction false} SortThroughView<S, T>(f: S -> T, less: (S, S) -> bool, lt: (T, T) -> bool, s: seq<S>)
    requires forall a, b :: less(a, b) <==> lt(f(a), f(b))
    ensures Map(f, Sort(less, s)) == Sort(lt, Map(f, s))
  {
    if s != [] {
      SortThroughView(f, less, lt, s[1..]);
      InsertThroughView(f, less, lt, s[0], Sort(less, s[1..]));
      assert Map(f, s)[1..] == Map(f, s[1..]);
    }
  }

  lemma {:induction false} RemoveAt<T>(s: seq<T>, k: nat)
    requires k < |s|
    ensures multiset(s[..k] + s[k + 1..]) == multiset(s) - multiset{s[k]}
  {
    assert s == s[..k] + [s[k]] + s[k + 1..];
  }

  lemma {:induction false} MapRemoveAt<S, T>(f: S -> T, s: seq<S>, k: nat)
    requires k < |s|
    ensures multiset(Map(f, s)) == multiset(Map(f, s[..k] + s[k + 1..])) + multiset{f(s[k])}
  {
    RemoveAt(Map(f, s), k);
    assert Map(f, s)[k] in Map(f, s);
    assert Map(f, s[..k] + s[k + 1..]) == Map(f, s)[..k] + Map(f, s)[k + 1..];
  }

  lemma {:induction false} MapPermutes<S, T>(f: S -> T, a: seq<S>, b: seq<S>)
    requires multiset(a) == multiset(b)
    ensures multiset(Map(f, a)) == multiset(Map(f, b))
  {
    SameElements(a, b);
    if a != [] {
      assert a[0] in a && a[0] in b;
      var k :| 0 <= k < |b| && b[k] == a[0];
      var restA, restB := a[..0] + a[1..], b[..k] + b[k + 1..];
      assert multiset(restA) == multiset(restB) by {
        RemoveAt(a, 0);
        RemoveAt(b, k);
      }
      MapPermutes(f, restA, restB);
      MapRemoveAt(f, a, 0);
      MapRemoveAt(f, b, k);
    }
  }
}
