/**
  Instructions of a pipeline trace, and sorting them by sequence number.

  `StableSort` is what the viewer's in-place list sort computes; the lemmas characterise it without
  reference to any algorithm.
 */
module PipeviewSort {

  /** The stages with a line of their own between fetch and retire. */
  datatype Stage = Decode | Rename | Dispatch | Issue | Complete

  /** One instruction; a stage that was never reached has tick 0, and `lacks` are the stages for which
      no line has been read at all. */
  datatype Inst = Inst(
    sn: int, pc: string, upc: string, disasm: string,
    fetch: int, decode: int, rename: int, dispatch: int, issue: int, complete: int, retire: int,
    store: int, lacks: set<Stage>)

  /** Put `x` behind everything whose sequence number is not larger. */
  function Insert(x: Inst, s: seq<Inst>): seq<Inst>
  {
    if s == [] then [x]
    else
      var last := s[|s| - 1];
      if last.sn <= x.sn then s + [x] else Insert(x, s[..|s| - 1]) + [last]
  }

  function StableSort(s: seq<Inst>): seq<Inst>
  {
    if s == [] then [] else Insert(s[|s| - 1], StableSort(s[..|s| - 1]))
  }

  ghost predicate Sorted(s: seq<Inst>)
  {
    forall i, j :: 0 <= i < j < |s| ==> s[i].sn <= s[j].sn
  }

  /** The elements of `s` that satisfy `p`, in order. */
  function Filter(p: Inst -> bool, s: seq<Inst>): (r: seq<Inst>)
    ensures |r| <= |s|
  {
    if s == [] then []
    else if p(s[|s| - 1]) then Filter(p, s[..|s| - 1]) + [s[|s| - 1]]
    else Filter(p, s[..|s| - 1])
  }

  lemma {:induction false} FilterAppend(p: Inst -> bool, s: seq<Inst>, t: seq<Inst>)
    ensures Filter(p, s + t) == Filter(p, s) + Filter(p, t)
  {
    if t == [] {
      assert s + t == s;
    } else {
      var n := |t| - 1;
      assert (s + t)[..|s| + n] == s + t[..n];
      FilterAppend(p, s, t[..n]);
    }
  }

  lemma {:induction false} FilterNone(p: Inst -> bool, s: seq<Inst>)
    requires forall x :: x in s ==> !p(x)
    ensures Filter(p, s) == []
  {
    if s != [] {
      FilterNone(p, s[..|s| - 1]);
    }
  }

  lemma {:induction false} FilterMembers(p: Inst -> bool, s: seq<Inst>)
    ensures forall x :: x in Filter(p, s) <==> x in s && p(x)
  {
    if s != [] {
      FilterMembers(p, s[..|s| - 1]);
      assert s == s[..|s| - 1] + [s[|s| - 1]];
    }
  }

  lemma {:induction false} FilterSorted(p: Inst -> bool, s: seq<Inst>)
    requires Sorted(s)
    ensures Sorted(Filter(p, s))
    ensures forall x :: x in Filter(p, s) ==> x in s
  {
    if s != [] {
      var t := s[..|s| - 1];
      FilterSorted(p, t);
      assert forall x :: x in t ==> x.sn <= s[|s| - 1].sn;
    }
  }

  // ---------------------------------------------------------------------------------------------
  // The sort is a permutation, sorted, stable, and the only such rearrangement
  // ---------------------------------------------------------------------------------------------

  lemma {:induction false} InsertPermutes(x: Inst, s: seq<Inst>)
    ensures multiset(Insert(x, s)) == multiset(s) + multiset{x}
  {
    if s != [] && s[|s| - 1].sn > x.sn {
      InsertPermutes(x, s[..|s| - 1]);
      assert s == s[..|s| - 1] + [s[|s| - 1]];
    }
  }

  lemma SortSnoc(s: seq<Inst>, x: Inst)
    ensures StableSort(s + [x]) == Insert(x, StableSort(s))
  {
    assert (s + [x])[..|s|] == s;
  }

  lemma SnocOf(s: seq<Inst>) returns (t: seq<Inst>, x: Inst)
    requires s != []
    ensures s == t + [x] && t == s[..|s| - 1] && x == s[|s| - 1]
  {
    t, x := s[..|s| - 1], s[|s| - 1];
  }

  lemma {:induction false} SortPermutes(s: seq<Inst>)
    ensures multiset(StableSort(s)) == multiset(s)
    decreases |s|
  {
    if s != [] {
      var t, x := SnocOf(s);
      SortPermutes(t);
      SortSnoc(t, x);
      InsertPermutes(x, StableSort(t));
    }
  }

  lemma {:induction false} SortLength(s: seq<Inst>)
    ensures |StableSort(s)| == |s|
  {
    SortPermutes(s);
    assert |multiset(StableSort(s))| == |StableSort(s)| && |multiset(s)| == |s|;
  }

  lemma InsertAtEnd(x: Inst, s: seq<Inst>)
    requires forall y :: y in s ==> y.sn <= x.sn
    ensures Insert(x, s) == s + [x]
  {
    if s != [] {
      assert s[|s| - 1] in s;
    }
  }

  lemma {:induction false} InsertSorted(x: Inst, s: seq<Inst>)
    requires Sorted(s)
    ensures Sorted(Insert(x, s))
    ensures forall y :: y in Insert(x, s) ==> y in s || y == x
  {
    if s != [] && s[|s| - 1].sn > x.sn {
      InsertSorted(x, s[..|s| - 1]);
      var r := Insert(x, s[..|s| - 1]);
      assert forall i :: 0 <= i < |r| ==> r[i] in r;
    }
  }

  lemma {:induction false} SortSorted(s: seq<Inst>)
    ensures Sorted(StableSort(s))
  {
    if s != [] {
      SortSorted(s[..|s| - 1]);
      InsertSorted(s[|s| - 1], StableSort(s[..|s| - 1]));
    }
  }

  lemma {:induction false} SortOfSorted(s: seq<Inst>)
    requires Sorted(s)
    ensures StableSort(s) == s
  {
    if s != [] {
      var t := s[..|s| - 1];
      SortOfSorted(t);
      InsertAtEnd(s[|s| - 1], t);
    }
  }

  lemma FilterSnoc(p: Inst -> bool, s: seq<Inst>, x: Inst)
    ensures Filter(p, s + [x]) == if p(x) then Filter(p, s) + [x] else Filter(p, s)
  {
    assert (s + [x])[..|s|] == s;
  }

  lemma {:induction false} InsertFilter(p: Inst -> bool, x: Inst, s: seq<Inst>)
    requires Sorted(s)
    ensures Filter(p, Insert(x, s)) == if p(x) then Insert(x, Filter(p, s)) else Filter(p, s)
    decreases |s|
  {
    if s == [] {
      FilterSnoc(p, [], x);
    } else {
      var t, last := SnocOf(s);
      if last.sn <= x.sn {
        FilterSnoc(p, s, x);
        FilterSorted(p, s);
        InsertAtEnd(x, Filter(p, s));
      } else {
        InsertSnoc(x, t, last);
        FilterSnoc(p, Insert(x, t), last);
        FilterSnoc(p, t, last);
        InsertFilter(p, x, t);
        InsertSnoc(x, Filter(p, t), last);
      }
    }
  }

  lemma InsertSnoc(x: Inst, s: seq<Inst>, last: Inst)
    requires last.sn > x.sn
    ensures Insert(x, s + [last]) == Insert(x, s) + [last]
  {
    assert (s + [last])[..|s|] == s;
  }

  /** Selecting and sorting commute. */
  lemma {:induction false} SortFilter(p: Inst -> bool, s: seq<Inst>)
    ensures Filter(p, StableSort(s)) == StableSort(Filter(p, s))
    decreases |s|
  {
    if s != [] {
      var t, x := SnocOf(s);
      SortFilter(p, t);
      SortSorted(t);
      SortSnoc(t, x);
      FilterSnoc(p, t, x);
      InsertFilter(p, x, StableSort(t));
      SortSnoc(Filter(p, t), x);
    }
  }

  function Same(n: int): Inst -> bool { (x: Inst) => x.sn == n }

  lemma {:induction false} RunOfSame(s: seq<Inst>, n: int)
    ensures Sorted(Filter(Same(n), s)) && forall x :: x in Filter(Same(n), s) ==> x.sn == n && x in s
  {
    if s != [] {
      RunOfSame(s[..|s| - 1], n);
    }
  }

  /** Stability: among equal sequence numbers the order of arrival is kept. */
  lemma SortKeepsOrder(s: seq<Inst>, n: int)
    ensures Filter(Same(n), StableSort(s)) == Filter(Same(n), s)
  {
    SortFilter(Same(n), s);
    RunOfSame(s, n);
    SortOfSorted(Filter(Same(n), s));
  }

  /** Uniqueness: any sorted sequence that keeps the order of arrival among equals is the stable
      sort. */
  lemma SortIsUnique(s: seq<Inst>, r: seq<Inst>)
    requires Sorted(r) && forall n :: Filter(Same(n), r) == Filter(Same(n), s)
    ensures r == StableSort(s)
  {
    SortSorted(s);
    forall n ensures Filter(Same(n), r) == Filter(Same(n), StableSort(s)) { SortKeepsOrder(s, n); }
    SameRunsSame(r, StableSort(s));
  }

  lemma {:induction false} SameRunsSame(r: seq<Inst>, q: seq<Inst>)
    requires Sorted(r) && Sorted(q) && forall n :: Filter(Same(n), r) == Filter(Same(n), q)
    ensures r == q
    decreases |r|
  {
    if r == [] {
      if q != [] { LastInRun(q); }
    } else if q == [] {
      LastInRun(r);
    } else {
      SameLast(r, q);
      var r', a := SnocOf(r);
      var q', b := SnocOf(q);
      forall n ensures Filter(Same(n), r') == Filter(Same(n), q') {
        FilterSnoc(Same(n), r', a);
        FilterSnoc(Same(n), q', a);
        if a.sn == n { SameTail(Filter(Same(n), r'), Filter(Same(n), q'), [a]); }
      }
      SameRunsSame(r', q');
    }
  }

  lemma LastIsIn(r: seq<Inst>, q: seq<Inst>)
    requires r != [] && Filter(Same(r[|r| - 1].sn), r) == Filter(Same(r[|r| - 1].sn), q)
    ensures r[|r| - 1] in q
  {
    LastInRun(r);
    RunOfSame(q, r[|r| - 1].sn);
  }

  lemma SameLast(r: seq<Inst>, q: seq<Inst>)
    requires r != [] && q != [] && Sorted(r) && Sorted(q)
    requires Filter(Same(r[|r| - 1].sn), r) == Filter(Same(r[|r| - 1].sn), q)
    requires Filter(Same(q[|q| - 1].sn), r) == Filter(Same(q[|q| - 1].sn), q)
    ensures r[|r| - 1] == q[|q| - 1]
  {
    var a, b := r[|r| - 1], q[|q| - 1];
    assert a.sn == b.sn by {
      LastIsIn(r, q);
      LastIsIn(q, r);
      BelowLast(r, b);
      BelowLast(q, a);
    }
    LastInRun(r);
    LastInRun(q);
  }

  lemma BelowLast(r: seq<Inst>, x: Inst)
    requires Sorted(r) && x in r
    ensures x.sn <= r[|r| - 1].sn
  {
  }

  lemma LastInRun(r: seq<Inst>)
    requires r != []
    ensures var a := r[|r| - 1]; var f := Filter(Same(a.sn), r); f != [] && f[|f| - 1] == a && a in f
  {
  }

  lemma SameTail(x: seq<Inst>, y: seq<Inst>, z: seq<Inst>)
    requires x + z == y + z
    ensures x == y
  {
    assert |x| == |y|;
    assert x == (x + z)[..|x|] == (y + z)[..|y|] == y;
  }
}
