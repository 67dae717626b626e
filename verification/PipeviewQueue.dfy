/**
  The bounded print queue of the pipeline viewer.

  Instructions arrive out of order. The queue is sorted and partly printed whenever it grows beyond
  `max`, keeping `min` instructions back, and printed completely at the end. The question is when
  this streaming output is the sorted trace.
 */
module PipeviewQueue {
  import opened PipeviewSort

  /** Instructions still queued, and everything taken off the queue so far, in order. */
  datatype Queue = Queue(waiting: seq<Inst>, popped: seq<Inst>)

  /** Sort the queue and take instructions off until at most `lower` are left. */
  function Flush(q: Queue, lower: nat): Queue
  {
    var s := StableSort(q.waiting);
    if |s| <= lower then Queue(s, q.popped)
    else Queue(s[|s| - lower..], q.popped + s[..|s| - lower])
  }

  function Arrive(q: Queue, x: Inst, max: nat, min: nat): Queue
  {
    var r := Queue(q.waiting + [x], q.popped);
    if |r.waiting| > max then Flush(r, min) else r
  }

  function Stream(a: seq<Inst>, max: nat, min: nat): Queue
  {
    if a == [] then Queue([], []) else Arrive(Stream(a[..|a| - 1], max, min), a[|a| - 1], max, min)
  }

  /** Everything taken off the queue once the trace is exhausted. */
  function Drained(a: seq<Inst>, max: nat, min: nat): seq<Inst> { Flush(Stream(a, max, min), 0).popped }

  lemma StreamSnoc(a: seq<Inst>, x: Inst, max: nat, min: nat)
    ensures Stream(a + [x], max, min) == Arrive(Stream(a, max, min), x, max, min)
  {
    assert (a + [x])[..|a|] == a;
  }

  // ---------------------------------------------------------------------------------------------
  // What every arrival and every flush keeps
  // ---------------------------------------------------------------------------------------------

  /** Nothing is lost or duplicated, and `min` instructions are held back once printing starts. */
  ghost predicate Balanced(q: Queue, a: seq<Inst>, min: nat)
  {
    && multiset(q.waiting) + multiset(q.popped) == multiset(a)
    && (q.popped != [] ==> |q.waiting| >= min)
  }

  lemma SplitAt(s: seq<Inst>, k: nat)
    requires k <= |s|
    ensures s == s[..k] + s[k..] && multiset(s) == multiset(s[..k]) + multiset(s[k..])
  {
    assert s == s[..k] + s[k..];
  }

  /** The `min` largest in sorted order, those that arrived later counting as larger among equals. */
  function Largest(a: seq<Inst>, min: nat): seq<Inst>
  {
    var s := StableSort(a);
    if |s| <= min then s else s[|s| - min..]
  }

  /** All others, in sorted order. */
  function AllButLargest(a: seq<Inst>, min: nat): seq<Inst>
  {
    var s := StableSort(a);
    if |s| <= min then [] else s[..|s| - min]
  }

  lemma {:induction false} LargestIs(a: seq<Inst>, min: nat)
    ensures AllButLargest(a, min) + Largest(a, min) == StableSort(a)
    ensures multiset(AllButLargest(a, min)) + multiset(Largest(a, min)) == multiset(a)
    ensures |Largest(a, min)| == if |a| <= min then |a| else min
  {
    SortLength(a);
    SortPermutes(a);
  }

  lemma {:induction false} FlushIs(q: Queue, min: nat)
    ensures Flush(q, min) == Queue(Largest(q.waiting, min), q.popped + AllButLargest(q.waiting, min))
  {
    assert q.popped + [] == q.popped;
  }

  lemma {:induction false} FlushSorts(q: Queue, lower: nat)
    ensures StableSort(Flush(q, lower).waiting) == Flush(q, lower).waiting
  {
    SortSorted(q.waiting);
    SortOfSorted(Flush(q, lower).waiting);
  }

  lemma {:induction false} FlushBalanced(q: Queue, a: seq<Inst>, lower: nat, min: nat)
    requires multiset(q.waiting) + multiset(q.popped) == multiset(a) && lower >= min
    requires q.popped != [] ==> |q.waiting| >= min
    ensures Balanced(Flush(q, lower), a, min)
  {
    FlushIs(q, lower);
    LargestIs(q.waiting, lower);
  }

  lemma {:induction false} StreamBalanced(a: seq<Inst>, max: nat, min: nat)
    ensures Balanced(Stream(a, max, min), a, min)
    decreases |a|
  {
    if a != [] {
      var b, x := SnocOf(a);
      StreamBalanced(b, max, min);
      StreamSnoc(b, x, max, min);
      var q := Stream(b, max, min);
      var r := Queue(q.waiting + [x], q.popped);
      if |r.waiting| > max {
        FlushBalanced(r, a, min, min);
      }
    }
  }

  lemma {:induction false} InsertBehind(x: Inst, s: seq<Inst>, t: seq<Inst>)
    requires forall y :: y in s ==> y.sn <= x.sn
    ensures Insert(x, s + t) == s + Insert(x, t)
    decreases |t|
  {
    if t == [] {
      assert s + t == s;
      InsertAtEnd(x, s);
    } else {
      var u, last := SnocOf(t);
      assert s + t == (s + u) + [last];
      if last.sn > x.sn {
        InsertBehind(x, s, u);
        InsertSnoc(x, s + u, last);
        InsertSnoc(x, u, last);
        assert (s + Insert(x, u)) + [last] == s + (Insert(x, u) + [last]);
      } else {
        assert (s + t) + [x] == s + (t + [x]);
      }
    }
  }

  // ---------------------------------------------------------------------------------------------
  // What has been taken off at any time, whatever the order of arrival
  // ---------------------------------------------------------------------------------------------

  /** The number of instructions the queue can hold. */
  function Capacity(max: nat, min: nat): nat { if max < min then min else max }

  /** How many of `i` arrivals had come when instructions were last taken off: first when the queue
      overflows, and again each time it has filled up from `min`. */
  function LastFlush(i: nat, max: nat, min: nat): (f: nat)
    ensures f <= i
  {
    var c := Capacity(max, min);
    if i <= c then 0
    else if i <= c + (c - min + 1) then c + 1
    else LastFlush(i - (c - min + 1), max, min) + (c - min + 1)
  }

  /** The instructions taken off before arrival `i`: of those that had come at the last flush, all but
      the `min` largest. */
  function Gone(a: seq<Inst>, i: nat, max: nat, min: nat): seq<Inst>
    requires i <= |a|
  {
    AllButLargest(a[..LastFlush(i, max, min)], min)
  }

  /** The length of the queue after `n` arrivals. */
  ghost function Length(n: nat, max: nat, min: nat): nat
  {
    if n <= Capacity(max, min) then n else min + (n - LastFlush(n, max, min))
  }

  lemma {:induction false} LastFlushStep(n: nat, max: nat, min: nat)
    ensures Length(n, max, min) <= Capacity(max, min) && (n <= min ==> Length(n, max, min) == n)
    ensures LastFlush(n + 1, max, min) ==
            if Length(n, max, min) == Capacity(max, min) then n + 1 else LastFlush(n, max, min)
    ensures Length(n + 1, max, min) ==
            if Length(n, max, min) == Capacity(max, min) then min else Length(n, max, min) + 1
  {
    var c := Capacity(max, min);
    var refill := c - min + 1;
    if n > c + refill {
      LastFlushStep(n - refill, max, min);
    }
  }

  /** Both end with the same `k` instructions. */
  ghost predicate SameEnd(s: seq<Inst>, t: seq<Inst>, k: nat)
  {
    k <= |s| && k <= |t| && s[|s| - k..] == t[|t| - k..]
  }

  lemma {:induction false} SameEndSnoc(s: seq<Inst>, t: seq<Inst>, k: nat, x: Inst)
    ensures SameEnd(s, t, k) ==> SameEnd(s + [x], t + [x], k) && SameEnd(s + [x], t + [x], k + 1)
    ensures SameEnd(s + [x], t + [x], k + 1) ==> SameEnd(s, t, k)
  {
    var s', t' := s + [x], t + [x];
    if k <= |s| && k <= |t| {
      assert s'[|s| - k..] == s[|s| - k..] + [x] && t'[|t| - k..] == t[|t| - k..] + [x];
      assert s[|s| - k..] == s'[|s| - k..][..k] && t[|t| - k..] == t'[|t| - k..][..k];
      assert s'[|s| + 1 - k..] == s'[|s| - k..][1..] && t'[|t| + 1 - k..] == t'[|t| - k..][1..];
    }
  }

  lemma {:induction false} SameLastOf(s: seq<Inst>, t: seq<Inst>, k: nat)
    requires SameEnd(s, t, k) && k > 0
    ensures s[|s| - 1] == t[|t| - 1]
  {
    assert s[|s| - 1] == s[|s| - k..][k - 1] && t[|t| - 1] == t[|t| - k..][k - 1];
  }

  lemma {:induction false} InsertSameEnd(x: Inst, s: seq<Inst>, t: seq<Inst>, k: nat)
    requires SameEnd(s, t, k)
    ensures SameEnd(Insert(x, s), Insert(x, t), k)
    decreases k
  {
    if k > 0 {
      SameLastOf(s, t, k);
      var s', last := SnocOf(s);
      var t', last' := SnocOf(t);
      if last.sn <= x.sn {
        SameEndSnoc(s, t, k, x);
      } else {
        SameEndSnoc(s', t', k - 1, last);
        InsertSameEnd(x, s', t', k - 1);
        SameEndSnoc(Insert(x, s'), Insert(x, t'), k - 1, last);
      }
    }
  }

  lemma {:induction false} LargestAgain(a: seq<Inst>, min: nat)
    ensures Largest(Largest(a, min), min) == Largest(a, min)
  {
    SortSorted(a);
    SortOfSorted(Largest(a, min));
  }

  lemma {:induction false} SameEndIs(w: seq<Inst>, a: seq<Inst>, min: nat)
    requires |w| >= min && |a| >= min
    ensures Largest(w, min) == Largest(a, min) <==> SameEnd(StableSort(w), StableSort(a), min)
  {
    SortLength(w);
    SortLength(a);
    assert |w| == min ==> StableSort(w)[0..] == StableSort(w);
    assert |a| == min ==> StableSort(a)[0..] == StableSort(a);
  }

  lemma {:induction false} ManySnoc(w: seq<Inst>, a: seq<Inst>, x: Inst, min: nat)
    requires Largest(w, min) == Largest(a, min) && |w| >= min && |a| >= min
    ensures Largest(w + [x], min) == Largest(a + [x], min)
  {
    SameEndIs(w, a, min);
    InsertSameEnd(x, StableSort(w), StableSort(a), min);
    SortSnoc(w, x);
    SortSnoc(a, x);
    SameEndIs(w + [x], a + [x], min);
  }

  /** Fewer than `min` are all among the largest. */
  lemma {:induction false} FewAreAll(w: seq<Inst>, a: seq<Inst>, min: nat)
    requires Largest(w, min) == Largest(a, min) && (|w| < min || |a| < min)
    ensures StableSort(w) == StableSort(a)
  {
    LargestIs(w, min);
    LargestIs(a, min);
    SortLength(w);
    SortLength(a);
  }

  lemma {:induction false} SameSortSnoc(w: seq<Inst>, a: seq<Inst>, x: Inst)
    requires StableSort(w) == StableSort(a)
    ensures StableSort(w + [x]) == StableSort(a + [x])
  {
    SortSnoc(w, x);
    SortSnoc(a, x);
  }

  lemma {:induction false} SameLargest(w: seq<Inst>, a: seq<Inst>, min: nat)
    requires StableSort(w) == StableSort(a)
    ensures Largest(w, min) == Largest(a, min)
  {
  }

  lemma {:induction false} FewSnoc(w: seq<Inst>, a: seq<Inst>, x: Inst, min: nat)
    requires Largest(w, min) == Largest(a, min) && (|w| < min || |a| < min)
    ensures Largest(w + [x], min) == Largest(a + [x], min)
  {
    FewAreAll(w, a, min);
    SameSortSnoc(w, a, x);
    SameLargest(w + [x], a + [x], min);
  }

  /** One more arrival: the largest are found among it and the largest so far. */
  lemma {:induction false} LargestSnoc(w: seq<Inst>, a: seq<Inst>, x: Inst, min: nat)
    requires Largest(w, min) == Largest(a, min)
    ensures Largest(w + [x], min) == Largest(a + [x], min)
  {
    if |w| < min || |a| < min {
      FewSnoc(w, a, x, min);
    } else {
      ManySnoc(w, a, x, min);
    }
  }

  lemma {:induction false} EqualRest(s: multiset<Inst>, t: multiset<Inst>, u: multiset<Inst>)
    requires s + u == u + t
    ensures s == t
  {
    forall x ensures s[x] == t[x] { assert (s + u)[x] == (u + t)[x]; }
  }

  /** What a queue that keeps nothing but the largest has taken off. */
  lemma {:induction false} RestIs(q: Queue, a: seq<Inst>, min: nat)
    requires q.waiting == Largest(a, min) && multiset(q.waiting) + multiset(q.popped) == multiset(a)
    ensures multiset(q.popped) == multiset(AllButLargest(a, min))
  {
    LargestIs(a, min);
    EqualRest(multiset(AllButLargest(a, min)), multiset(q.popped), multiset(q.waiting));
  }

  lemma {:induction false} GoneStays(a: seq<Inst>, x: Inst, max: nat, min: nat)
    requires LastFlush(|a| + 1, max, min) == LastFlush(|a|, max, min)
    ensures Gone(a + [x], |a| + 1, max, min) == Gone(a, |a|, max, min)
  {
    var f := LastFlush(|a|, max, min);
    assert (a + [x])[..f] == a[..f];
  }

  lemma {:induction false} GoneNow(a: seq<Inst>, max: nat, min: nat)
    requires LastFlush(|a|, max, min) == |a|
    ensures Gone(a, |a|, max, min) == AllButLargest(a, min)
  {
    assert a[..|a|] == a;
  }

  /** Everything about the queue that does not depend on the order within `popped`. */
  ghost predicate StateIs(q: Queue, a: seq<Inst>, max: nat, min: nat)
  {
    && |q.waiting| == Length(|a|, max, min)
    && Largest(q.waiting, min) == Largest(a, min)
    && multiset(q.popped) == multiset(Gone(a, |a|, max, min))
  }

  lemma {:induction false} OverflowIs(r: Queue, a: seq<Inst>, max: nat, min: nat)
    requires Largest(r.waiting, min) == Largest(a, min) && |r.waiting| > min
    requires LastFlush(|a|, max, min) == |a| && Length(|a|, max, min) == min
    requires Balanced(Flush(r, min), a, min)
    ensures StateIs(Flush(r, min), a, max, min)
  {
    FlushIs(r, min);
    LargestIs(r.waiting, min);
    LargestAgain(r.waiting, min);
    RestIs(Flush(r, min), a, min);
    GoneNow(a, max, min);
  }

  lemma {:induction false} Overflows(q: Queue, a: seq<Inst>, x: Inst, max: nat, min: nat)
    requires StateIs(q, a, max, min) && Balanced(Arrive(q, x, max, min), a + [x], min)
    requires |q.waiting| == Capacity(max, min)
    ensures StateIs(Arrive(q, x, max, min), a + [x], max, min)
  {
    var r, b := Queue(q.waiting + [x], q.popped), a + [x];
    LastFlushStep(|a|, max, min);
    LargestSnoc(q.waiting, a, x, min);
    assert |b| == |a| + 1 && Arrive(q, x, max, min) == Flush(r, min);
    OverflowIs(r, b, max, min);
  }

  lemma {:induction false} SortOnlyIs(r: Queue, a: seq<Inst>, max: nat, min: nat)
    requires StateIs(r, a, max, min) && |r.waiting| <= min
    ensures StateIs(Flush(r, min), a, max, min)
  {
    SortLength(r.waiting);
    LargestAgain(r.waiting, min);
  }

  lemma {:induction false} Fills(q: Queue, a: seq<Inst>, x: Inst, max: nat, min: nat)
    requires StateIs(q, a, max, min) && |q.waiting| < Capacity(max, min)
    ensures StateIs(Arrive(q, x, max, min), a + [x], max, min)
  {
    var r, b := Queue(q.waiting + [x], q.popped), a + [x];
    LastFlushStep(|a|, max, min);
    LargestSnoc(q.waiting, a, x, min);
    GoneStays(a, x, max, min);
    assert |b| == |a| + 1 && StateIs(r, b, max, min);
    if |r.waiting| > max {
      SortOnlyIs(r, b, max, min);
    }
  }

  lemma {:induction false} StreamIs(a: seq<Inst>, max: nat, min: nat)
    ensures StateIs(Stream(a, max, min), a, max, min)
    decreases |a|
  {
    if a != [] {
      var b, x := SnocOf(a);
      StreamIs(b, max, min);
      StreamSnoc(b, x, max, min);
      StreamBalanced(a, max, min);
      LastFlushStep(|b|, max, min);
      var q := Stream(b, max, min);
      if |q.waiting| == Capacity(max, min) {
        Overflows(q, b, x, max, min);
      } else {
        Fills(q, b, x, max, min);
      }
    }
  }

  /** At any time, whatever the order of arrival, the instructions taken off are those of the arrivals
      up to the last flush without the `min` largest. */
  lemma {:induction false} PoppedAre(a: seq<Inst>, i: nat, max: nat, min: nat)
    requires i <= |a|
    ensures multiset(Stream(a[..i], max, min).popped) == multiset(Gone(a, i, max, min))
  {
    StreamIs(a[..i], max, min);
    var f := LastFlush(i, max, min);
    assert a[..i][..f] == a[..f];
  }

  // ---------------------------------------------------------------------------------------------
  // Exactly when what is wanted is printed in order
  // ---------------------------------------------------------------------------------------------

  /** Arrival `i` is wanted and comes too late: something wanted with a larger sequence number has
      been taken off. */
  ghost predicate LateAt(w: Inst -> bool, a: seq<Inst>, i: nat, max: nat, min: nat)
    requires i < |a|
  {
    w(a[i]) && exists y :: y in Gone(a, i, max, min) && w(y) && y.sn > a[i].sn
  }

  ghost predicate NoneLate(w: Inst -> bool, a: seq<Inst>, max: nat, min: nat)
  {
    forall i :: 0 <= i < |a| ==> !LateAt(w, a, i, max, min)
  }

  /** Taken off in order, as far as wanted: what has been printed followed by what would be printed
      next is the sorted selection. */
  ghost predicate Ordered(w: Inst -> bool, q: Queue, a: seq<Inst>)
  {
    Filter(w, q.popped) + Filter(w, StableSort(q.waiting)) == StableSort(Filter(w, a))
  }

  lemma {:induction false} FilterMoved(w: Inst -> bool, s: seq<Inst>, t: seq<Inst>, u: seq<Inst>)
    ensures Filter(w, s + t) + Filter(w, u) == Filter(w, s) + Filter(w, t + u)
  {
    FilterAppend(w, s, t);
    FilterAppend(w, t, u);
  }

  lemma {:induction false} FlushOrdered(w: Inst -> bool, q: Queue, a: seq<Inst>, lower: nat)
    requires Ordered(w, q, a)
    ensures Ordered(w, Flush(q, lower), a)
  {
    FlushIs(q, lower);
    FlushSorts(q, lower);
    LargestIs(q.waiting, lower);
    FilterMoved(w, q.popped, AllButLargest(q.waiting, lower), Largest(q.waiting, lower));
  }

  lemma {:induction false} AppendOrdered(w: Inst -> bool, q: Queue, a: seq<Inst>, x: Inst)
    requires Ordered(w, q, a) && forall y :: y in q.popped && w(y) && w(x) ==> y.sn <= x.sn
    ensures Ordered(w, Queue(q.waiting + [x], q.popped), a + [x])
  {
    var s := StableSort(q.waiting);
    SortSorted(q.waiting);
    SortSnoc(q.waiting, x);
    InsertFilter(w, x, s);
    FilterSnoc(w, a, x);
    if w(x) {
      SortSnoc(Filter(w, a), x);
      FilterMembers(w, q.popped);
      InsertBehind(x, Filter(w, q.popped), Filter(w, s));
    }
  }

  lemma {:induction false} NotLate(w: Inst -> bool, a: seq<Inst>, i: nat, max: nat, min: nat)
    requires i < |a| && !LateAt(w, a, i, max, min)
    ensures forall y :: y in Stream(a[..i], max, min).popped && w(y) && w(a[i]) ==> y.sn <= a[i].sn
  {
    PoppedAre(a, i, max, min);
    var p, g := Stream(a[..i], max, min).popped, Gone(a, i, max, min);
    assert forall y :: y in p ==> y in multiset(p);
    assert forall y :: y in multiset(g) ==> y in g;
  }

  lemma {:induction false} NoneLatePrefix(w: Inst -> bool, a: seq<Inst>, k: nat, max: nat, min: nat)
    requires k <= |a| && NoneLate(w, a, max, min)
    ensures NoneLate(w, a[..k], max, min)
  {
    forall i | 0 <= i < k ensures !LateAt(w, a[..k], i, max, min) {
      var f := LastFlush(i, max, min);
      assert a[..k][..f] == a[..f];
      assert !LateAt(w, a, i, max, min);
    }
  }

  lemma {:induction false} StreamOrdered(w: Inst -> bool, a: seq<Inst>, max: nat, min: nat)
    requires NoneLate(w, a, max, min)
    ensures Ordered(w, Stream(a, max, min), a)
    decreases |a|
  {
    if a != [] {
      var b, x := SnocOf(a);
      NoneLatePrefix(w, a, |b|, max, min);
      StreamOrdered(w, b, max, min);
      NotLate(w, a, |b|, max, min);
      var q := Stream(b, max, min);
      AppendOrdered(w, q, b, x);
      StreamSnoc(b, x, max, min);
      if |q.waiting| + 1 > max {
        FlushOrdered(w, Queue(q.waiting + [x], q.popped), a, min);
      }
    }
  }

  lemma {:induction false} DrainOfOrdered(w: Inst -> bool, a: seq<Inst>, max: nat, min: nat)
    requires Ordered(w, Stream(a, max, min), a)
    ensures Filter(w, Drained(a, max, min)) == StableSort(Filter(w, a))
  {
    var q := Stream(a, max, min);
    FlushOrdered(w, q, a, 0);
    assert Flush(q, 0).waiting == [];
    assert Filter(w, Drained(a, max, min)) + [] == Filter(w, Drained(a, max, min));
  }

  lemma {:induction false} PoppedGrows(a: seq<Inst>, i: nat, max: nat, min: nat)
    requires i <= |a|
    ensures Stream(a[..i], max, min).popped <= Stream(a, max, min).popped
    decreases |a|
  {
    if i == |a| {
      assert a[..i] == a;
    } else {
      var b, x := SnocOf(a);
      PoppedGrows(b, i, max, min);
      assert a[..i] == b[..i];
      StreamSnoc(b, x, max, min);
    }
  }

  lemma {:induction false} DrainedExtends(a: seq<Inst>, i: nat, max: nat, min: nat)
    requires i <= |a|
    ensures Stream(a[..i], max, min).popped <= Drained(a, max, min)
    ensures multiset(Drained(a, max, min)) == multiset(a)
  {
    PoppedGrows(a, i, max, min);
    StreamBalanced(a, max, min);
    FlushBalanced(Stream(a, max, min), a, 0, 0);
  }

  lemma {:induction false} StillToCome(a: seq<Inst>, i: nat, d: seq<Inst>, q: Queue)
    requires i < |a| && multiset(d) == multiset(a) && q.popped <= d
    requires multiset(q.waiting) + multiset(q.popped) == multiset(a[..i])
    ensures a[i] in d[|q.popped|..]
  {
    var k := |q.popped|;
    SplitAt(d, k);
    SplitAt(a, i);
    assert d[..k] == q.popped;
    assert a[i] == a[i..][0];
    assert multiset(d)[a[i]] == multiset(q.popped)[a[i]] + multiset(d[k..])[a[i]];
    assert multiset(a)[a[i]] == multiset(a[..i])[a[i]] + multiset(a[i..])[a[i]];
    assert multiset(a[..i])[a[i]] >= multiset(q.popped)[a[i]];
  }

  lemma {:induction false} FilterDescends(w: Inst -> bool, d: seq<Inst>, k: nat, y: Inst, x: Inst)
    requires k <= |d| && y in d[..k] && x in d[k..] && w(y) && w(x) && y.sn > x.sn
    ensures !Sorted(Filter(w, d))
  {
    SplitAt(d, k);
    FilterAppend(w, d[..k], d[k..]);
    FilterMembers(w, d[..k]);
    FilterMembers(w, d[k..]);
    var u, v := Filter(w, d[..k]), Filter(w, d[k..]);
    var i :| 0 <= i < |u| && u[i] == y;
    var j :| 0 <= j < |v| && v[j] == x;
    assert (u + v)[i].sn > (u + v)[|u| + j].sn;
  }

  /** A late arrival ends up behind something larger. */
  lemma {:induction false} LateMisplaced(w: Inst -> bool, a: seq<Inst>, i: nat, max: nat, min: nat)
    requires i < |a| && LateAt(w, a, i, max, min)
    ensures !Sorted(Filter(w, Drained(a, max, min)))
  {
    var d, q := Drained(a, max, min), Stream(a[..i], max, min);
    DrainedExtends(a, i, max, min);
    StreamBalanced(a[..i], max, min);
    StillToCome(a, i, d, q);
    PoppedAre(a, i, max, min);
    var y :| y in Gone(a, i, max, min) && w(y) && y.sn > a[i].sn;
    assert y in multiset(q.popped);
    FilterDescends(w, d, |q.popped|, y, a[i]);
  }

  /** Streaming and selecting equals selecting and sorting if and only if no wanted instruction arrives
      after a larger wanted one has been taken off. */
  lemma {:induction false} WindowExact(w: Inst -> bool, a: seq<Inst>, max: nat, min: nat)
    ensures Filter(w, Drained(a, max, min)) == StableSort(Filter(w, a)) <==> NoneLate(w, a, max, min)
  {
    if NoneLate(w, a, max, min) {
      StreamOrdered(w, a, max, min);
      DrainOfOrdered(w, a, max, min);
    } else {
      var i :| 0 <= i < |a| && LateAt(w, a, i, max, min);
      LateMisplaced(w, a, i, max, min);
      SortSorted(Filter(w, a));
    }
  }

  // ---------------------------------------------------------------------------------------------
  // The whole trace: counting larger arrivals
  // ---------------------------------------------------------------------------------------------

  function Larger(n: int): Inst -> bool { (x: Inst) => x.sn > n }

  /** Number of instructions in `s` with a sequence number above `n`. */
  function CountLarger(s: seq<Inst>, n: int): nat { |Filter(Larger(n), s)| }

  /** Every instruction had at most `min` larger ones before it when the queue was last flushed. */
  ghost predicate InTime(a: seq<Inst>, max: nat, min: nat)
  {
    forall i :: 0 <= i < |a| ==> CountLarger(a[..LastFlush(i, max, min)], a[i].sn) <= min
  }

  lemma {:induction false} FilterAll(p: Inst -> bool, s: seq<Inst>)
    requires forall x :: x in s ==> p(x)
    ensures Filter(p, s) == s
    decreases |s|
  {
    if s != [] {
      var t, x := SnocOf(s);
      FilterAll(p, t);
    }
  }

  lemma {:induction false} CountOfSort(a: seq<Inst>, n: int)
    ensures CountLarger(StableSort(a), n) == CountLarger(a, n)
  {
    SortFilter(Larger(n), a);
    SortLength(Filter(Larger(n), a));
  }

  lemma {:induction false} CountOfSorted(s: seq<Inst>, n: int, k: nat)
    requires Sorted(s) && k < |s|
    ensures s[k].sn > n <==> CountLarger(s, n) >= |s| - k
  {
    if s[k].sn > n {
      SplitAt(s, k);
      FilterAppend(Larger(n), s[..k], s[k..]);
      FilterAll(Larger(n), s[k..]);
    } else {
      SplitAt(s, k + 1);
      FilterAppend(Larger(n), s[..k + 1], s[k + 1..]);
      FilterNone(Larger(n), s[..k + 1]);
    }
  }

  lemma {:induction false} LastIsLargest(s: seq<Inst>, k: nat)
    requires Sorted(s) && k < |s|
    ensures s[k] in s[..k + 1] && forall y :: y in s[..k + 1] ==> y.sn <= s[k].sn
  {
    assert s[..k + 1][k] == s[k];
  }

  /** All but the `min` largest include one above `n` exactly if more than `min` are above it. */
  lemma {:induction false} RestByCount(a: seq<Inst>, n: int, min: nat)
    ensures (exists y :: y in AllButLargest(a, min) && y.sn > n) <==> CountLarger(a, n) > min
  {
    var s, r := StableSort(a), AllButLargest(a, min);
    SortSorted(a);
    CountOfSort(a, n);
    if |s| > min {
      CountOfSorted(s, n, |r| - 1);
      LastIsLargest(s, |r| - 1);
    }
  }

  lemma {:induction false} InTimeIsNoneLate(w: Inst -> bool, a: seq<Inst>, max: nat, min: nat)
    ensures InTime(a, max, min) ==> NoneLate(w, a, max, min)
    ensures (forall x :: w(x)) && NoneLate(w, a, max, min) ==> InTime(a, max, min)
  {
    forall i | 0 <= i < |a|
      ensures CountLarger(a[..LastFlush(i, max, min)], a[i].sn) <= min ==> !LateAt(w, a, i, max, min)
      ensures (forall x :: w(x)) && !LateAt(w, a, i, max, min) ==>
                CountLarger(a[..LastFlush(i, max, min)], a[i].sn) <= min
    {
      RestByCount(a[..LastFlush(i, max, min)], a[i].sn, min);
    }
  }

  /** Streaming equals batch: the output is the stable sort of the whole trace if and only if every
      instruction had at most `min` larger ones before it when the queue was last flushed. */
  lemma {:induction false} StreamingExact(a: seq<Inst>, max: nat, min: nat)
    ensures Drained(a, max, min) == StableSort(a) <==> InTime(a, max, min)
  {
    var every := (x: Inst) => true;
    WindowExact(every, a, max, min);
    InTimeIsNoneLate(every, a, max, min);
    FilterAll(every, Drained(a, max, min));
    FilterAll(every, a);
  }

  // ---------------------------------------------------------------------------------------------
  // The documented assumption: out of order by at most `min` places
  // ---------------------------------------------------------------------------------------------

  /** Every instruction has at most `places` earlier arrivals with a larger sequence number. */
  ghost predicate OutOfOrderBy(a: seq<Inst>, places: nat)
  {
    forall i :: 0 <= i < |a| ==> CountLarger(a[..i], a[i].sn) <= places
  }

  lemma {:induction false} CountPrefix(a: seq<Inst>, f: nat, i: nat, n: int)
    requires f <= i <= |a|
    ensures CountLarger(a[..f], n) <= CountLarger(a[..i], n)
  {
    assert a[..i] == a[..f] + a[f..i];
    FilterAppend(Larger(n), a[..f], a[f..i]);
  }

  lemma {:induction false} BoundedInTime(a: seq<Inst>, max: nat, min: nat)
    requires OutOfOrderBy(a, min)
    ensures InTime(a, max, min)
  {
    forall i | 0 <= i < |a| ensures CountLarger(a[..LastFlush(i, max, min)], a[i].sn) <= min {
      CountPrefix(a, LastFlush(i, max, min), i, a[i].sn);
    }
  }

  /** Streaming equals batch under the documented assumption, for all thresholds. */
  lemma {:induction false} StreamingEqualsBatch(a: seq<Inst>, max: nat, min: nat)
    requires OutOfOrderBy(a, min)
    ensures Drained(a, max, min) == StableSort(a)
  {
    BoundedInTime(a, max, min);
    StreamingExact(a, max, min);
  }

  // ---------------------------------------------------------------------------------------------
  // The assumption cannot be relaxed by even one place
  // ---------------------------------------------------------------------------------------------

  function Numbered(n: int): Inst { Inst(n, "", "", "", 0, 0, 0, 0, 0, 0, 0, 0, {}) }

  function Repeat(n: int, k: nat): seq<Inst> { seq(k, i => Numbered(n)) }

  function TightTrace(max: nat, min: nat): seq<Inst>
    requires min <= max
  {
    Repeat(0, max - min) + Repeat(2, min + 1) + [Numbered(1)]
  }

  lemma TightPrefix(max: nat, min: nat)
    requires min <= max
    ensures var t := TightTrace(max, min);
      |t| == max + 2 && Sorted(t[..max + 1]) && t[max + 1] == Numbered(1) &&
      forall i :: 0 <= i <= max ==> t[i] == Numbered(if i < max - min then 0 else 2)
  {
  }

  lemma TightLate(max: nat, min: nat)
    requires min <= max
    ensures CountLarger(TightTrace(max, min)[..LastFlush(max + 1, max, min)], 1) > min
  {
    var t, k := TightTrace(max, min), max - min;
    TightPrefix(max, min);
    assert t[..max + 1] == t[..k] + t[k..max + 1];
    FilterAppend(Larger(1), t[..k], t[k..max + 1]);
    FilterAll(Larger(1), t[k..max + 1]);
  }

  lemma TightPlaces(max: nat, min: nat)
    requires min <= max
    ensures OutOfOrderBy(TightTrace(max, min), min + 1)
  {
    var t := TightTrace(max, min);
    TightPrefix(max, min);
    forall i | 0 <= i < |t| ensures CountLarger(t[..i], t[i].sn) <= min + 1 {
      if i <= max {
        assert forall j :: 0 <= j < i ==> t[j].sn <= t[i].sn;
        FilterNone(Larger(t[i].sn), t[..i]);
      } else {
        var k := max - min;
        assert t[..i] == t[..k] + t[k..i];
        FilterAppend(Larger(1), t[..k], t[k..i]);
        FilterNone(Larger(1), t[..k]);
      }
    }
  }

  /** For every pair of thresholds there is a trace out of order by `min + 1` places, one more than
      assumed, that is printed out of order. */
  lemma AssumptionIsTight(max: nat, min: nat)
    requires min <= max
    ensures exists a :: OutOfOrderBy(a, min + 1) && Drained(a, max, min) != StableSort(a)
  {
    TightPlaces(max, min);
    TightLate(max, min);
    StreamingExact(TightTrace(max, min), max, min);
  }
}
