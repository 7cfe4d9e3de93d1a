/**
 Ranking the series: `unsortedSeries.sort((a, b) => totalB - totalA)` in
 AnnotatorGraph.tsx. `Array.prototype.sort` is stable, so the order is
 descending total count, and series with equal totals keep their order.
 */
module SeriesSort {
  import opened AnnotationTypes

  /** `data.reduce((accum, current) => accum + current, 0)`: no count exceeds the sum. */
  function Sum(values: seq<nat>): (total: nat)
    ensures forall i :: 0 <= i < |values| ==> values[i] <= total
  {
    if values == [] then 0 else values[0] + Sum(values[1..])
  }

  /** The total count of a series, the sort key: at least each of its counts. */
  function Total(s: Series): (total: nat)
    ensures forall f :: 0 <= f < |s.data| ==> s.data[f] <= total
  {
    Sum(s.data)
  }

  /** A series totals zero exactly when every one of its counts is zero. */
  lemma {:induction false} SumZero(values: seq<nat>)
    ensures Sum(values) == 0 <==> forall i :: 0 <= i < |values| ==> values[i] == 0
  {
    if values != [] {
      SumZero(values[1..]);
      assert forall i :: 1 <= i < |values| ==> values[i] == values[1..][i - 1];
    }
  }

  /** Non-increasing total count, which is what the comparator `totalB - totalA` asks for. */
  predicate SortedByTotal(s: seq<Series>)
  {
    forall i, j :: 0 <= i < j < |s| ==> Total(s[i]) >= Total(s[j])
  }

  /** The series of `s` whose total is `k`, in their order in `s`. */
  function WithTotal(s: seq<Series>, k: nat): (tied: seq<Series>)
    ensures |tied| <= |s|
  {
    if s == [] then []
    else (if Total(s[0]) == k then [s[0]] else []) + WithTotal(s[1..], k)
  }

  /** A series is in the tie group for `k` exactly when it is in `s` and totals `k`. */
  lemma {:induction false} WithTotalMembers(s: seq<Series>, k: nat, x: Series)
    ensures x in WithTotal(s, k) <==> x in s && Total(x) == k
  {
    if s != [] {
      WithTotalMembers(s[1..], k, x);
      assert x in s <==> x == s[0] || x in s[1..];
    }
  }

  /**
   Stability: for every total, the series having that total appear in `s` in
   the same order as in `t`.
   */
  ghost predicate SameTies(s: seq<Series>, t: seq<Series>)
  {
    forall k :: WithTotal(s, k) == WithTotal(t, k)
  }

  lemma {:induction false} WithTotalAppend(s: seq<Series>, t: seq<Series>, k: nat)
    ensures WithTotal(s + t, k) == WithTotal(s, k) + WithTotal(t, k)
  {
    if s != [] {
      assert (s + t)[0] == s[0];
      assert (s + t)[1..] == s[1..] + t;
      WithTotalAppend(s[1..], t, k);
    } else {
      assert s + t == t;
    }
  }

  /** Exchanging two neighbours with different totals changes no tie group. */
  lemma SwapKeepsTies(s: seq<Series>, j: int)
    requires 0 < j < |s|
    requires Total(s[j - 1]) != Total(s[j])
    ensures SameTies(s[j - 1 := s[j]][j := s[j - 1]], s)
  {
    var x, y := s[j - 1], s[j];
    var front, back := s[..j - 1], s[j + 1..];
    assert s == front + ([x, y] + back);
    assert s[j - 1 := y][j := x] == front + ([y, x] + back);
    forall k: nat ensures WithTotal(s[j - 1 := y][j := x], k) == WithTotal(s, k) {
      WithTotalAppend(front, [x, y] + back, k);
      WithTotalAppend(front, [y, x] + back, k);
      assert ([x, y] + back)[1..] == [y] + back;
      assert ([y, x] + back)[1..] == [x] + back;
      assert ([y] + back)[1..] == back;
      assert ([x] + back)[1..] == back;
    }
  }

  /** Every series totals at least as much as the next one, up to position `hi`. */
  ghost predicate SortedUpTo(s: seq<Series>, hi: int)
  {
    forall p :: 0 < p < hi && p < |s| ==> Total(s[p - 1]) >= Total(s[p])
  }

  /** Neighbours in order are enough: the whole sequence is then sorted. */
  lemma {:induction false} SortedFromNeighbours(s: seq<Series>)
    requires SortedUpTo(s, |s|)
    ensures SortedByTotal(s)
  {
    if |s| > 1 {
      SortedFromNeighbours(s[1..]);
      assert Total(s[0]) >= Total(s[1]);
      assert forall j :: 1 <= j < |s| ==> s[j] == s[1..][j - 1];
    }
  }

  /**
   The in-place stable sort: insertion sort by exchanges of neighbours whose
   totals differ, so that series with equal totals never pass each other.
   */
  method SortByTotal(a: array<Series>)
    modifies a
    ensures SortedByTotal(a[..])
    ensures SameTies(a[..], old(a[..]))
    ensures multiset(a[..]) == multiset(old(a[..]))
  {
    var i := 0;
    while i < a.Length
      invariant 0 <= i <= a.Length
      invariant SortedUpTo(a[..], i)
      invariant SameTies(a[..], old(a[..]))
      invariant multiset(a[..]) == multiset(old(a[..]))
    {
      Insert(a, i);
      i := i + 1;
    }
    SortedFromNeighbours(a[..]);
  }

  /**
   The state while `a[i]` moves left to position `j`: the series before `j`
   and those from `j` to `i` are each in order, and the one before `j` totals
   at least as much as the one after `j`.
   */
  ghost predicate Inserting(s: seq<Series>, j: int, i: int)
  {
    && 0 <= j <= i < |s|
    && (forall p :: 0 < p < j ==> Total(s[p - 1]) >= Total(s[p]))
    && (forall p :: j < p <= i ==> Total(s[p - 1]) >= Total(s[p]))
    && (0 < j < i ==> Total(s[j - 1]) >= Total(s[j + 1]))
  }

  /** One exchange moves the inserted series one place left and keeps the state. */
  lemma InsertStep(s: seq<Series>, j: int, i: int)
    requires Inserting(s, j, i) && j > 0 && Total(s[j - 1]) < Total(s[j])
    ensures Inserting(s[j - 1 := s[j]][j := s[j - 1]], j - 1, i)
    ensures SameTies(s[j - 1 := s[j]][j := s[j - 1]], s)
    ensures s[j - 1 := s[j]][j := s[j - 1]][i + 1..] == s[i + 1..]
    ensures multiset(s[j - 1 := s[j]][j := s[j - 1]]) == multiset(s)
  {
    SwapKeepsTies(s, j);
    SwapKeepsRest(s, j, i);
  }

  /** Exchanging two neighbours at or before `i` keeps the series after `i` and the multiset. */
  lemma SwapKeepsRest(s: seq<Series>, j: int, i: int)
    requires 0 < j <= i < |s|
    ensures s[j - 1 := s[j]][j := s[j - 1]][i + 1..] == s[i + 1..]
    ensures multiset(s[j - 1 := s[j]][j := s[j - 1]]) == multiset(s)
  {
    var t := s[j - 1 := s[j]][j := s[j - 1]];
    assert s == s[..j - 1] + [s[j - 1], s[j]] + s[j + 1..];
    assert t == s[..j - 1] + [s[j], s[j - 1]] + s[j + 1..];
  }

  /** Once the inserted series stops, everything up to `i` is in order. */
  lemma InsertDone(s: seq<Series>, j: int, i: int)
    requires Inserting(s, j, i) && (j == 0 || Total(s[j - 1]) >= Total(s[j]))
    ensures SortedUpTo(s, i + 1)
  {
  }

  /** Moves `a[i]` left past every series with a smaller total, so that `a[..i + 1]` is sorted. */
  method Insert(a: array<Series>, i: int)
    requires 0 <= i < a.Length
    requires SortedUpTo(a[..], i)
    modifies a
    ensures SortedUpTo(a[..], i + 1)
    ensures SameTies(a[..], old(a[..]))
    ensures multiset(a[..]) == multiset(old(a[..]))
    ensures a[i + 1..] == old(a[i + 1..])
  {
    var j := i;
    while j > 0 && Total(a[j - 1]) < Total(a[j])
      invariant Inserting(a[..], j, i)
      invariant SameTies(a[..], old(a[..]))
      invariant multiset(a[..]) == multiset(old(a[..]))
      invariant a[i + 1..] == old(a[i + 1..])
    {
      ghost var before := a[..];
      InsertStep(before, j, i);
      a[j - 1], a[j] := a[j], a[j - 1];
      assert a[..] == before[j - 1 := before[j]][j := before[j - 1]];
      SameTiesTrans(a[..], before, old(a[..]));
      j := j - 1;
    }
    InsertDone(a[..], j, i);
  }

  lemma SameTiesTrans(s: seq<Series>, t: seq<Series>, u: seq<Series>)
    requires SameTies(s, t) && SameTies(t, u)
    ensures SameTies(s, u)
  {
  }

  lemma {:induction false} WithTotalHead(s: seq<Series>)
    requires s != []
    ensures WithTotal(s, Total(s[0])) == [s[0]] + WithTotal(s[1..], Total(s[0]))
    ensures forall k :: k != Total(s[0]) ==> WithTotal(s, k) == WithTotal(s[1..], k)
  {
  }

  /** Only the empty sequence has no tie groups. */
  lemma EmptyTies(t: seq<Series>)
    requires SameTies([], t)
    ensures t == []
  {
    if t != [] {
      WithTotalHead(t);
      assert false;
    }
  }

  /**
   Two sorted sequences with the same tie groups start with the same series,
   and what follows has the same tie groups again.
   */
  lemma SortedTiesHead(s: seq<Series>, t: seq<Series>)
    requires s != [] && SortedByTotal(s) && SortedByTotal(t)
    requires SameTies(s, t)
    ensures t != [] && s[0] == t[0]
    ensures SameTies(s[1..], t[1..])
  {
    var k := Total(s[0]);
    WithTotalMembers(s, k, s[0]);
    WithTotalMembers(t, k, s[0]);
    var p :| 0 <= p < |t| && t[p] == s[0];
    var m := Total(t[0]);
    WithTotalMembers(t, m, t[0]);
    WithTotalMembers(s, m, t[0]);
    var q :| 0 <= q < |s| && s[q] == t[0];
    assert k >= m && m >= k;
    WithTotalHead(s);
    WithTotalHead(t);
    assert WithTotal(s, k) == WithTotal(t, k);
    assert WithTotal(s, k)[0] == s[0] && WithTotal(t, k)[0] == t[0];
    forall k' ensures WithTotal(s[1..], k') == WithTotal(t[1..], k') {
      if k' == k {
        assert WithTotal(s[1..], k') == WithTotal(s, k')[1..];
        assert WithTotal(t[1..], k') == WithTotal(t, k')[1..];
      }
    }
  }

  /**
   Sorting is deterministic: two sequences that are both sorted by total and
   have the same tie groups as each other are equal.
   */
  lemma {:induction false} SortedTiesUnique(s: seq<Series>, t: seq<Series>)
    requires SortedByTotal(s) && SortedByTotal(t)
    requires SameTies(s, t)
    ensures s == t
  {
    if s == [] {
      EmptyTies(t);
    } else {
      SortedTiesHead(s, t);
      assert SortedByTotal(s[1..]) && SortedByTotal(t[1..]);
      SortedTiesUnique(s[1..], t[1..]);
      assert s == [s[0]] + s[1..] && t == [t[0]] + t[1..];
    }
  }

  /** A tie group of a sequence without repeats has no repeats. */
  lemma {:induction false} WithTotalDistinct(s: seq<Series>, k: nat)
    requires Distinct(s)
    ensures Distinct(WithTotal(s, k))
  {
    if s != [] {
      assert Distinct(s[1..]);
      WithTotalDistinct(s[1..], k);
      WithTotalMembers(s[1..], k, s[0]);
      assert s[0] !in s[1..];
    }
  }

  /** Prepending a series with total `k` shifts the tie group for `k` by one. */
  lemma TiedCons(s: seq<Series>, k: nat)
    requires s != [] && Total(s[0]) == k
    ensures WithTotal(s, k) == [s[0]] + WithTotal(s[1..], k)
  {
  }

  /** Prepending a series with another total leaves the tie group for `k` as it is. */
  lemma UntiedCons(s: seq<Series>, k: nat)
    requires s != [] && Total(s[0]) != k
    ensures WithTotal(s, k) == WithTotal(s[1..], k)
  {
  }

  /** `a` occurs in `g` at a position before one holding `b`. */
  ghost predicate InOrder(g: seq<Series>, a: Series, b: Series)
  {
    exists p, q :: 0 <= p < q < |g| && g[p] == a && g[q] == b
  }

  lemma InOrderHead(x: Series, g: seq<Series>, b: Series)
    requires b in g
    ensures InOrder([x] + g, x, b)
  {
    var q :| 0 <= q < |g| && g[q] == b;
    assert ([x] + g)[0] == x && ([x] + g)[q + 1] == b;
  }

  lemma InOrderCons(x: Series, g: seq<Series>, a: Series, b: Series)
    requires InOrder(g, a, b)
    ensures InOrder([x] + g, a, b)
  {
    var p, q :| 0 <= p < q < |g| && g[p] == a && g[q] == b;
    assert ([x] + g)[p + 1] == a && ([x] + g)[q + 1] == b;
  }

  /** Two series with total `k` appear in the tie group for `k` in the order they have in `s`. */
  lemma {:induction false} TiedPositions(s: seq<Series>, k: nat, i: int, j: int)
    requires 0 <= i < j < |s| && Total(s[i]) == k && Total(s[j]) == k
    ensures InOrder(WithTotal(s, k), s[i], s[j])
  {
    var tail := s[1..];
    assert s[j] == tail[j - 1];
    var rest := WithTotal(tail, k);
    if i == 0 {
      TiedCons(s, k);
      WithTotalMembers(tail, k, s[j]);
      InOrderHead(s[0], rest, s[j]);
    } else {
      assert s[i] == tail[i - 1];
      TiedPositions(tail, k, i - 1, j - 1);
      if Total(s[0]) == k {
        TiedCons(s, k);
        InOrderCons(s[0], rest, s[i], s[j]);
      } else {
        UntiedCons(s, k);
      }
    }
  }

  /**
   Stability in terms of positions: when `s` has the tie groups of a sequence
   `t` without repeats, two tied series of `s` appear in `t` in the same order.
   */
  lemma TiedKeepOrder(s: seq<Series>, t: seq<Series>, i: int, j: int)
    requires SameTies(s, t) && Distinct(t)
    requires 0 <= i < j < |s| && Total(s[i]) == Total(s[j])
    ensures exists a, b :: 0 <= a < b < |t| && t[a] == s[i] && t[b] == s[j]
  {
    var k := Total(s[i]);
    var group := WithTotal(t, k);
    assert WithTotal(s, k) == group;
    TiedPositions(s, k, i, j);
    var p, q :| 0 <= p < q < |group| && group[p] == s[i] && group[q] == s[j];
    WithTotalDistinct(t, k);
    WithTotalMembers(t, k, s[i]);
    WithTotalMembers(t, k, s[j]);
    var a :| 0 <= a < |t| && t[a] == s[i];
    var b :| 0 <= b < |t| && t[b] == s[j];
    if b < a {
      TiedPositions(t, k, b, a);
      assert false;
    } else if a == b {
      assert false;
    }
  }
}
