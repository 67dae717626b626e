/** The viewer itself: the shared print queue and the loop that reads the trace. */
module PipeviewViewer {
  import opened PipeviewSort
  import opened PipeviewQueue
  import opened PipeviewTrace
  import opened PipeviewTimeline
  import opened PipeviewLayout

  // ---------------------------------------------------------------------------------------------
  // Printing up to the first instruction that cannot be printed
  // ---------------------------------------------------------------------------------------------

  /** Printing needs a tick for every stage, a row of positive length, and an event in a compact row. */
  predicate Printable(p: Params, x: Inst) { ValidParams(p) && x.lacks == {} && !Blank(x, p) }

  /** Which instructions can be printed: there are cells and ticks in a cell, a line was read for every
      stage, and some stage has a tick, not before the row of the fetch. */
  lemma {:induction false} PrintableExactly(p: Params, x: Inst)
    ensures Printable(p, x) <==>
            && p.width > 0 && p.cycle > 0
            && Decode !in x.lacks && Rename !in x.lacks && Dispatch !in x.lacks
            && Issue !in x.lacks && Complete !in x.lacks
            && exists e :: e in Stamps(x, p) && e.tick != 0 && FromItsRow(x, p, e.tick)
  {
    if Decode !in x.lacks && Rename !in x.lacks && Dispatch !in x.lacks && Issue !in x.lacks && Complete !in x.lacks {
      LacksNothing(x);
    }
    if ValidParams(p) { BlankHasNoStamp(p, x); }
  }

  /** The tick is not before the row of the fetch. */
  ghost predicate FromItsRow(x: Inst, p: Params, tick: int)
  {
    p.width * p.cycle > 0 && tick >= x.fetch / (p.width * p.cycle) * (p.width * p.cycle)
  }

  lemma {:induction false} BlankHasNoStamp(p: Params, x: Inst)
    requires ValidParams(p)
    ensures Blank(x, p) <==> !exists e :: e in Stamps(x, p) && e.tick != 0 && FromItsRow(x, p, e.tick)
  {
    BlankExactly(x, p);
    StampsAre(x, p);
    PositiveProduct(p.width, p.cycle);
    if k: nat :| k < StageCount(p) && Tick(x, k) != 0 && Tick(x, k) >= BaseTick(x, p) {
      assert Stamps(x, p)[k] in Stamps(x, p) && FromItsRow(x, p, Stamps(x, p)[k].tick);
    }
    if e :| e in Stamps(x, p) && e.tick != 0 && FromItsRow(x, p, e.tick) {
      var k :| 0 <= k < |Stamps(x, p)| && Stamps(x, p)[k] == e;
      assert Tick(x, k) != 0 && Tick(x, k) >= BaseTick(x, p);
    }
  }

  /** The instructions before the first one that cannot be printed: there the viewer fails. */
  function UpToFailure(p: Params, s: seq<Inst>): seq<Inst>
  {
    if s == [] then []
    else
      var n := |s| - 1;
      var before := UpToFailure(p, s[..n]);
      if before == s[..n] && Printable(p, s[n]) then s else before
  }

  lemma {:induction false} UpToSnoc(p: Params, s: seq<Inst>, x: Inst)
    ensures UpToFailure(p, s + [x]) ==
            if UpToFailure(p, s) == s && Printable(p, x) then s + [x] else UpToFailure(p, s)
  {
    assert (s + [x])[..|s|] == s;
  }

  lemma {:induction false} UpToIs(p: Params, s: seq<Inst>)
    ensures UpToFailure(p, s) <= s
    ensures UpToFailure(p, s) == s <==> forall i :: 0 <= i < |s| ==> Printable(p, s[i])
    ensures |UpToFailure(p, s)| < |s| ==> !Printable(p, s[|UpToFailure(p, s)|])
    decreases |s|
  {
    if s != [] {
      var n := |s| - 1;
      UpToIs(p, s[..n]);
      assert s == s[..n] + [s[n]];
      UpToSnoc(p, s[..n], s[n]);
    }
  }

  /** What follows a failure changes nothing. */
  lemma {:induction false} FailureIsFinal(p: Params, s: seq<Inst>, t: seq<Inst>)
    requires UpToFailure(p, s) != s
    ensures UpToFailure(p, s + t) == UpToFailure(p, s) && UpToFailure(p, s + t) != s + t
    decreases |t|
  {
    UpToIs(p, s);
    if t == [] {
      assert s + t == s;
    } else {
      var n := |t| - 1;
      FailureIsFinal(p, s, t[..n]);
      assert s + t == (s + t[..n]) + [t[n]];
      UpToSnoc(p, s + t[..n], t[n]);
    }
  }

  /** Every instruction of a trace as the simulator writes it can be printed, if all are fetched at non-zero ticks. */
  lemma {:induction false} AllPrintable(o: Options, p: Params, lines: seq<Line>, x: Inst)
    requires ValidParams(p) && WellFormed(lines, 0) && x in Arrivals(o, lines, NOTHING)
    requires forall l :: l in lines && l.FetchLine? ==> l.tick != 0
    ensures Printable(p, x)
  {
    NothingLacks(o, lines, NOTHING, 0);
    FetchDecides(o, lines, NOTHING, 0, (sn, tick) => tick != 0);
    BlankExactly(x, p);
  }

  lemma {:induction false} FilterKeeps(w: Inst -> bool, s: seq<Inst>, x: Inst)
    ensures x in Filter(w, s) ==> x in s
    decreases |s|
  {
    if s != [] {
      FilterKeeps(w, s[..|s| - 1], x);
    }
  }

  lemma {:induction false} ReferenceIsPrintable(o: Options, p: Params, lines: seq<Line>)
    requires ValidParams(p) && WellFormed(lines, 0)
    requires forall l :: l in lines && l.FetchLine? ==> l.tick != 0
    ensures UpToFailure(p, Reference(o, lines)) == Reference(o, lines)
  {
    var all := Arrivals(o, lines, NOTHING);
    SortPermutes(all);
    forall i | 0 <= i < |Reference(o, lines)| ensures Printable(p, Reference(o, lines)[i]) {
      var x := Reference(o, lines)[i];
      FilterKeeps(Window(o), StableSort(all), x);
      assert x in multiset(StableSort(all)) && x in multiset(all);
      AllPrintable(o, p, lines, x);
    }
    UpToIs(p, Reference(o, lines));
  }

  // ---------------------------------------------------------------------------------------------
  // The viewer
  // ---------------------------------------------------------------------------------------------

  class Viewer {
    const o: Options
    const p: Params
    var queue: seq<Inst>
    var printed: seq<Inst>
    var failed: bool
    ghost var popped: seq<Inst>

    /** Of the popped instructions in the window, those before the first failure have been printed. */
    ghost predicate Valid()
      reads this
    {
      var wanted := Filter(Window(o), popped);
      printed == UpToFailure(p, wanted) && (failed <==> printed != wanted)
    }

    ghost function State(): Queue
      reads this
    {
      Queue(queue, popped)
    }

    constructor (o: Options, width: nat, cycle: nat)
      ensures this.o == o && p == Params(width, cycle, o.storeCompletions)
      ensures Valid() && !failed && State() == Queue([], []) && printed == []
    {
      this.o, p := o, Params(width, cycle, o.storeCompletions);
      queue, printed, popped, failed := [], [], [], false;
    }

    /** Take one instruction off the front of the queue and print it if it is in the window. */
    method PrintNext()
      requires Valid() && !failed && queue != []
      modifies this
      ensures Valid() && queue == old(queue)[1..] && popped == old(popped) + [old(queue)[0]]
    {
      var item := queue[0];
      queue := queue[1..];
      FilterSnoc(Window(o), popped, item);
      UpToSnoc(p, Filter(Window(o), popped), item);
      if Selected(o, item) {
        if Printable(p, item) {
          printed := printed + [item];
        } else {
          failed := true;
        }
      }
      popped := popped + [item];
    }

    /** Sort the queue, then take instructions off its front, down to the lower threshold or to a failure. */
    method PrintInsts(lower: nat)
      requires Valid() && !failed
      modifies this
      ensures Valid()
      ensures !failed ==> State() == Flush(old(State()), lower)
      ensures failed ==> popped <= Flush(old(State()), lower).popped
    {
      queue := StableSort(queue);
      ghost var s := queue;
      while |queue| > lower && !failed
        invariant popped + queue == old(popped) + s
        invariant |queue| == |s| || lower <= |queue| <= |s|
        invariant Valid()
        decreases |queue|, if failed then 0 else 1
      {
        assert popped + queue == (popped + [queue[0]]) + queue[1..];
        PrintNext();
      }
      if failed {
        FlushPrefix(old(State()), State(), lower);
      } else {
        FlushShape(old(State()), State(), lower);
      }
    }

    static lemma {:induction false} FlushShape(q: Queue, r: Queue, lower: nat)
      requires r.popped + r.waiting == q.popped + StableSort(q.waiting)
      requires |r.waiting| <= lower
      requires |r.waiting| == |StableSort(q.waiting)| || lower <= |r.waiting| <= |StableSort(q.waiting)|
      ensures r == Flush(q, lower)
    {
      var s, all := StableSort(q.waiting), q.popped + StableSort(q.waiting);
      var n := |all| - |r.waiting|;
      assert r.waiting == all[n..] && r.popped == all[..n];
      assert all[n..] == s[|s| - |r.waiting|..] && all[..n] == q.popped + s[..|s| - |r.waiting|];
      assert |r.waiting| == |s| ==> r.waiting == s && r.popped == q.popped;
    }

    static lemma {:induction false} FlushPrefix(q: Queue, r: Queue, lower: nat)
      requires r.popped + r.waiting == q.popped + StableSort(q.waiting)
      requires |r.waiting| == |StableSort(q.waiting)| || lower <= |r.waiting| <= |StableSort(q.waiting)|
      ensures r.popped <= Flush(q, lower).popped
    {
      var s, all := StableSort(q.waiting), q.popped + StableSort(q.waiting);
      var n := |all| - |r.waiting|;
      assert r.popped == all[..n];
      assert all[..n] == q.popped + s[..|s| - |r.waiting|];
    }

    method QueueInst(inst: Inst)
      requires Valid() && !failed
      modifies this
      ensures Valid()
      ensures !failed ==> State() == Arrive(old(State()), inst, o.max, o.min)
      ensures failed ==> popped <= Arrive(old(State()), inst, o.max, o.min).popped
    {
      queue := queue + [inst];
      if |queue| > o.max {
        PrintInsts(o.min);
      }
    }

    /** Skip lines up to the start of the window, then up to the next fetch. */
    method SkipAhead(lines: seq<Line>) returns (i: nat)
      ensures i == Begin(o, lines)
    {
      i := 0;
      while i < |lines| && !Starts(o, lines[i])
        invariant i <= |lines| && Seek(StartLine(o), lines, i) == Seek(StartLine(o), lines, 0)
      {
        i := i + 1;
      }
      while i < |lines| && !lines[i].FetchLine?
        invariant i <= |lines| && Seek(IsFetch(), lines, i) == Begin(o, lines)
      {
        i := i + 1;
      }
    }

    /** Read the lines from `b` to the early stop, or to a failure, and queue every retired instruction. */
    method ReadRegion(lines: seq<Line>, b: nat)
      requires Valid() && !failed && State() == Queue([], []) && b == Begin(o, lines)
      modifies this
      ensures Valid()
      ensures !failed ==> State() == Stream(Processed(o, lines), o.max, o.min)
      ensures failed ==> popped <= Drained(Processed(o, lines), o.max, o.min)
    {
      var i: nat := b;
      var cur := NOTHING;
      ReadStart(lines);
      while i < |lines| && !Stops(o, lines[i])
        invariant b <= i <= End(o, lines) && cur == Current(lines, i) && Valid() && !failed
        invariant State() == Stream(Seen(lines, i), o.max, o.min)
      {
        cur := ReadLine(lines, i, cur);
        i := i + 1;
        if failed {
          return;
        }
      }
      StopsHere(lines, i);
    }

    lemma {:induction false} StopsHere(lines: seq<Line>, i: nat)
      requires Begin(o, lines) <= i <= End(o, lines) && (i < |lines| ==> Stops(o, lines[i]))
      ensures i == End(o, lines) && Seen(lines, i) == Processed(o, lines)
    {
      assert forall j :: Begin(o, lines) <= j < End(o, lines) ==> !StopLine(o)(lines[j]);
    }

    /** One line: it updates the record under construction, and a retire line queues it. */
    method ReadLine(lines: seq<Line>, i: nat, cur: Inst) returns (next: Inst)
      requires Begin(o, lines) <= i <= End(o, lines) && i < |lines| && !Stops(o, lines[i])
      requires cur == Current(lines, i) && Valid() && !failed && State() == Stream(Seen(lines, i), o.max, o.min)
      modifies this
      ensures i < End(o, lines) && next == Current(lines, i + 1) && Valid()
      ensures !failed ==> State() == Stream(Seen(lines, i + 1), o.max, o.min)
      ensures failed ==> popped <= Drained(Processed(o, lines), o.max, o.min)
    {
      ReadOn(lines, i);
      next := Update(o, cur, lines[i]);
      if lines[i].RetireLine? {
        Retire(next, Seen(lines, i));
        if failed {
          SeenIsProcessed(lines, i + 1);
        }
      }
    }

    /** Queue an instruction behind those of `seen`. */
    method Retire(inst: Inst, ghost seen: seq<Inst>)
      requires Valid() && !failed && State() == Stream(seen, o.max, o.min)
      modifies this
      ensures Valid()
      ensures !failed ==> State() == Stream(seen + [inst], o.max, o.min)
      ensures failed ==> popped <= Stream(seen + [inst], o.max, o.min).popped
    {
      StreamSnoc(seen, inst, o.max, o.min);
      QueueInst(inst);
    }

    /** The record under construction when the region has been read up to line `i`. */
    ghost function Current(lines: seq<Line>, i: nat): Inst
      requires Begin(o, lines) <= i <= |lines|
    {
      After(o, lines[Begin(o, lines)..i], NOTHING)
    }

    /** The instructions queued so far. */
    ghost function Seen(lines: seq<Line>, i: nat): seq<Inst>
      requires Begin(o, lines) <= i <= |lines|
    {
      Arrivals(o, lines[Begin(o, lines)..i], NOTHING)
    }

    lemma {:induction false} ReadStart(lines: seq<Line>)
      ensures Current(lines, Begin(o, lines)) == NOTHING
      ensures Stream(Seen(lines, Begin(o, lines)), o.max, o.min) == Queue([], [])
    {
      assert lines[Begin(o, lines)..Begin(o, lines)] == [];
    }

    lemma {:induction false} ReadOn(lines: seq<Line>, i: nat)
      requires Begin(o, lines) <= i <= End(o, lines) && i < |lines| && !Stops(o, lines[i])
      ensures i < End(o, lines) && Current(lines, i + 1) == Update(o, Current(lines, i), lines[i])
      ensures lines[i].RetireLine? ==> Seen(lines, i + 1) == Seen(lines, i) + [Current(lines, i + 1)]
      ensures !lines[i].RetireLine? ==> Seen(lines, i + 1) == Seen(lines, i)
    {
      var b := Begin(o, lines);
      assert lines[b..i + 1] == lines[b..i] + [lines[i]];
      ArrivalsAppend(o, lines[b..i], [lines[i]], NOTHING);
      assert [lines[i]][1..] == [];
    }

    lemma {:induction false} SeenIsProcessed(lines: seq<Line>, i: nat)
      requires Begin(o, lines) <= i <= End(o, lines)
      ensures Stream(Seen(lines, i), o.max, o.min).popped <= Drained(Processed(o, lines), o.max, o.min)
    {
      SeenIsPrefix(lines, i);
      DrainedExtends(Processed(o, lines), |Seen(lines, i)|, o.max, o.min);
    }

    lemma {:induction false} SeenIsPrefix(lines: seq<Line>, i: nat)
      requires Begin(o, lines) <= i <= End(o, lines)
      ensures Seen(lines, i) <= Processed(o, lines)
      ensures Processed(o, lines)[..|Seen(lines, i)|] == Seen(lines, i)
    {
      var b, e := Begin(o, lines), End(o, lines);
      assert lines[b..e] == lines[b..i] + lines[i..e];
      ArrivalsAppend(o, lines[b..i], lines[i..e], NOTHING);
    }

    ghost predicate WithinBounds(lines: seq<Line>)
    {
      && ValidOptions(o) && WellFormed(lines, 0)
      && DriftBounded(o, lines) && OutOfOrderBy(Arrivals(o, lines, NOTHING), o.min)
    }

    /** The row length is positive, and no instruction is fetched at tick 0. */
    ghost predicate Drawable(lines: seq<Line>)
    {
      ValidParams(p) && forall l :: l in lines && l.FetchLine? ==> l.tick != 0
    }

    /** Read a trace and print its window, up to the first instruction that cannot be printed. On
        traces as the simulator writes them, within the documented bounds on disorder, this is the
        whole trace, sorted and then filtered. */
    method ProcessTrace(lines: seq<Line>)
      requires Valid() && !failed && State() == Queue([], [])
      modifies this
      ensures printed == UpToFailure(p, Output(o, lines)) && (failed <==> printed != Output(o, lines))
      ensures WithinBounds(lines) ==> printed == UpToFailure(p, Reference(o, lines))
      ensures WithinBounds(lines) && Drawable(lines) ==> !failed && printed == Reference(o, lines)
      ensures forall x :: x in printed ==> Wanted(o, x) && x in Processed(o, lines)
      ensures !failed ==> ShowsWanted(o, Processed(o, lines), printed)
      ensures WithinBounds(lines) && Drawable(lines) ==>
                Sorted(printed) && ShowsWanted(o, Arrivals(o, lines, NOTHING), printed)
    {
      var i := SkipAhead(lines);
      ReadRegion(lines, i);
      if !failed {
        PrintInsts(0);
      }
      PrintedIs(Drained(Processed(o, lines), o.max, o.min));
      Bounded(lines);
      OutputShows(lines);
      ReferenceShows(lines);
    }

    /** What is printed, in terms of the fields. */
    lemma {:induction false} OutputShows(lines: seq<Line>)
      ensures ShowsWanted(o, Processed(o, lines), Output(o, lines))
      ensures forall x :: x in UpToFailure(p, Output(o, lines)) ==> Wanted(o, x) && x in Processed(o, lines)
    {
      var xs, out := Processed(o, lines), Output(o, lines);
      DrainedExtends(xs, |xs|, o.max, o.min);
      WindowShows(o, xs, Drained(xs, o.max, o.min));
      UpToIs(p, out);
      forall x | x in UpToFailure(p, out) ensures Wanted(o, x) && x in xs {
        assert x in out && x in multiset(out) && multiset(out)[x] > 0;
        assert x in multiset(xs);
      }
    }

    lemma {:induction false} ReferenceShows(lines: seq<Line>)
      ensures Sorted(Reference(o, lines)) && ShowsWanted(o, Arrivals(o, lines, NOTHING), Reference(o, lines))
    {
      var xs := Arrivals(o, lines, NOTHING);
      SortPermutes(xs);
      SortSorted(xs);
      FilterSorted(Window(o), StableSort(xs));
      WindowShows(o, xs, StableSort(xs));
    }

    lemma {:induction false} PrintedIs(drained: seq<Inst>)
      requires Valid() && popped <= drained && (failed || popped == drained)
      ensures printed == UpToFailure(p, Filter(Window(o), drained))
      ensures failed <==> printed != Filter(Window(o), drained)
    {
      if failed {
        var rest := drained[|popped|..];
        assert drained == popped + rest;
        FilterAppend(Window(o), popped, rest);
        FailureIsFinal(p, Filter(Window(o), popped), Filter(Window(o), rest));
      }
    }

    lemma {:induction false} Bounded(lines: seq<Line>)
      ensures WithinBounds(lines) ==> Output(o, lines) == Reference(o, lines)
      ensures WithinBounds(lines) && Drawable(lines) ==> UpToFailure(p, Reference(o, lines)) == Reference(o, lines)
    {
      if WithinBounds(lines) {
        ViewerLosesNothing(o, lines);
        if Drawable(lines) {
          ReferenceIsPrintable(o, p, lines);
        }
      }
    }
  }
}
