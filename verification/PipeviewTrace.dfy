/**
  Reading a pipeline trace: skipping to the region of interest, collecting instructions line by
  line, stopping early, and printing through the bounded queue.
 */
module PipeviewTrace {
  import opened PipeviewSort
  import opened PipeviewQueue

  /** A line of the trace; `Other` is any line the viewer ignores. */
  datatype Line =
    | Other
    | FetchLine(tick: int, pc: string, upc: string, sn: int, disasm: string)
    | StageLine(stage: Stage, tick: int)
    | RetireLine(tick: int, storeTick: int)

  /** Command-line window, flags and queue thresholds; a bound of zero or less is no bound. */
  datatype Options = Options(
    startTick: int, stopTick: int, startSn: int, stopSn: int,
    committedOnly: bool, storeCompletions: bool,
    drift: nat, max: nat, min: nat)

  predicate BeforeWindow(o: Options, sn: int, fetch: int)
  {
    (o.startSn > 0 && sn < o.startSn) || (o.startTick > 0 && fetch < o.startTick)
  }

  predicate AfterWindow(o: Options, sn: int, fetch: int)
  {
    (o.stopSn > 0 && sn > o.stopSn) || (o.stopTick > 0 && fetch > o.stopTick)
  }

  /** The printing filter. */
  predicate Selected(o: Options, x: Inst)
  {
    && !BeforeWindow(o, x.sn, x.fetch)
    && !AfterWindow(o, x.sn, x.fetch)
    && !(o.committedOnly && x.retire == 0)
  }

  function Window(o: Options): Inst -> bool { (x: Inst) => Selected(o, x) }

  // ---------------------------------------------------------------------------------------------
  // The instruction under construction: one record, reused from line to line
  // ---------------------------------------------------------------------------------------------

  const NOTHING := Inst(0, "", "", "", 0, 0, 0, 0, 0, 0, 0, 0, {Decode, Rename, Dispatch, Issue, Complete})

  function Update(o: Options, cur: Inst, l: Line): Inst
  {
    match l
    case Other => cur
    case FetchLine(tick, pc, upc, sn, disasm) => cur.(fetch := tick, pc := pc, upc := upc, sn := sn, disasm := disasm)
    case StageLine(stage, tick) => (
      var lacks := cur.lacks - {stage};
      match stage
      case Decode => cur.(decode := tick, lacks := lacks)
      case Rename => cur.(rename := tick, lacks := lacks)
      case Dispatch => cur.(dispatch := tick, lacks := lacks)
      case Issue => cur.(issue := tick, lacks := lacks)
      case Complete => cur.(complete := tick, lacks := lacks))
    case RetireLine(tick, storeTick) =>
      cur.(retire := tick,
           disasm := if tick == 0 then "-----" + cur.disasm else cur.disasm,
           store := if o.storeCompletions then storeTick else cur.store)
  }

  function After(o: Options, lines: seq<Line>, cur: Inst): Inst
  {
    if lines == [] then cur else After(o, lines[1..], Update(o, cur, lines[0]))
  }

  /** The instructions queued while reading `lines`: one for every retire line. */
  function Arrivals(o: Options, lines: seq<Line>, cur: Inst): seq<Inst>
  {
    if lines == [] then []
    else
      var c := Update(o, cur, lines[0]);
      (if lines[0].RetireLine? then [c] else []) + Arrivals(o, lines[1..], c)
  }

  lemma {:induction false} ArrivalsAppend(o: Options, xs: seq<Line>, ys: seq<Line>, cur: Inst)
    ensures Arrivals(o, xs + ys, cur) == Arrivals(o, xs, cur) + Arrivals(o, ys, After(o, xs, cur))
    ensures After(o, xs + ys, cur) == After(o, ys, After(o, xs, cur))
    decreases |xs|
  {
    if xs == [] {
      assert xs + ys == ys;
    } else {
      assert (xs + ys)[1..] == xs[1..] + ys;
      ArrivalsAppend(o, xs[1..], ys, Update(o, cur, xs[0]));
    }
  }

  // ---------------------------------------------------------------------------------------------
  // Skip-ahead and early stop
  // ---------------------------------------------------------------------------------------------

  /** Index of the first line at or after `i` that satisfies `p`, or the number of lines. */
  function Seek(p: Line -> bool, lines: seq<Line>, i: nat): (k: nat)
    requires i <= |lines|
    ensures i <= k <= |lines|
    ensures forall j :: i <= j < k ==> !p(lines[j])
    ensures k < |lines| ==> p(lines[k])
    decreases |lines| - i
  {
    if i == |lines| || p(lines[i]) then i else Seek(p, lines, i + 1)
  }

  predicate Starts(o: Options, l: Line)
  {
    if o.startTick != 0 then !l.Other? && l.tick >= o.startTick
    else if o.startSn != 0 then l.FetchLine? && l.sn >= o.startSn
    else true
  }

  /** A fetch so far behind the window that nothing in the window is expected after it. */
  predicate Stops(o: Options, l: Line)
  {
    l.FetchLine? &&
    ((o.stopTick > 0 && l.tick > o.stopTick + o.drift) || (o.stopSn > 0 && l.sn > o.stopSn + o.max))
  }

  function StartLine(o: Options): Line -> bool { (l: Line) => Starts(o, l) }

  function StopLine(o: Options): Line -> bool { (l: Line) => Stops(o, l) }

  function IsFetch(): Line -> bool { (l: Line) => l.FetchLine? }

  function Begin(o: Options, lines: seq<Line>): (i: nat)
    ensures i <= |lines|
  {
    Seek(IsFetch(), lines, Seek(StartLine(o), lines, 0))
  }

  function End(o: Options, lines: seq<Line>): (i: nat)
    ensures Begin(o, lines) <= i <= |lines|
  {
    Seek(StopLine(o), lines, Begin(o, lines))
  }

  /** The instructions that reach the queue. */
  function Processed(o: Options, lines: seq<Line>): seq<Inst>
  {
    Arrivals(o, lines[Begin(o, lines)..End(o, lines)], NOTHING)
  }

  /** What the viewer prints. */
  function Output(o: Options, lines: seq<Line>): seq<Inst>
  {
    Filter(Window(o), Drained(Processed(o, lines), o.max, o.min))
  }

  /** What reading the whole trace, sorting all of it and then filtering would print. */
  function Reference(o: Options, lines: seq<Line>): seq<Inst>
  {
    Filter(Window(o), StableSort(Arrivals(o, lines, NOTHING)))
  }

  // ---------------------------------------------------------------------------------------------
  // Traces as the simulator writes them: per instruction, one line for each stage in order
  // ---------------------------------------------------------------------------------------------

  /** Lines of the current instruction seen so far, or nothing if `l` is out of place. */
  function Advance(st: nat, l: Line): int
  {
    match l
    case Other => st
    case FetchLine(_, _, _, _, _) => if st == 0 then 1 else -1
    case StageLine(stage, _) => (
      match stage
      case Decode => if st == 1 then 2 else -1
      case Rename => if st == 2 then 3 else -1
      case Dispatch => if st == 3 then 4 else -1
      case Issue => if st == 4 then 5 else -1
      case Complete => if st == 5 then 6 else -1)
    case RetireLine(_, _) => if st == 6 then 0 else -1
  }

  ghost predicate WellFormed(lines: seq<Line>, st: nat)
  {
    lines != [] ==> Advance(st, lines[0]) >= 0 && WellFormed(lines[1..], Advance(st, lines[0]))
  }

  ghost function Reached(lines: seq<Line>, st: nat): nat
    requires WellFormed(lines, st)
  {
    if lines == [] then st else Reached(lines[1..], Advance(st, lines[0]))
  }

  lemma {:induction false} WellFormedSplit(xs: seq<Line>, ys: seq<Line>, st: nat)
    requires WellFormed(xs + ys, st)
    ensures WellFormed(xs, st) && WellFormed(ys, Reached(xs, st))
    decreases |xs|
  {
    if xs == [] {
      assert xs + ys == ys;
    } else {
      assert (xs + ys)[1..] == xs[1..] + ys;
      WellFormedSplit(xs[1..], ys, Advance(st, xs[0]));
    }
  }

  /** The stages already read for the current instruction. */
  ghost predicate Read(c: Inst, st: nat)
  {
    && (st >= 2 ==> Decode !in c.lacks)
    && (st >= 3 ==> Rename !in c.lacks)
    && (st >= 4 ==> Dispatch !in c.lacks)
    && (st >= 5 ==> Issue !in c.lacks)
    && (st >= 6 ==> Complete !in c.lacks)
  }

  lemma {:induction false} LacksNothing(c: Inst)
    requires Decode !in c.lacks && Rename !in c.lacks && Dispatch !in c.lacks
    requires Issue !in c.lacks && Complete !in c.lacks
    ensures c.lacks == {}
  {
    forall x: Stage | x in c.lacks
      ensures x == Decode || x == Rename || x == Dispatch || x == Issue || x == Complete
    {
    }
  }

  lemma {:induction false} ReadStep(o: Options, l: Line, c: Inst, st: nat)
    requires Advance(st, l) >= 0 && st <= 6 && Read(c, st)
    ensures Advance(st, l) <= 6 && Read(Update(o, c, l), Advance(st, l))
    ensures l.RetireLine? ==> Update(o, c, l).lacks == {}
  {
    if st >= 6 { LacksNothing(c); }
  }

  /** On traces as the simulator writes them every instruction has all its stages. */
  lemma {:induction false} NothingLacks(o: Options, lines: seq<Line>, c: Inst, st: nat)
    requires WellFormed(lines, st) && st <= 6 && Read(c, st)
    ensures forall x :: x in Arrivals(o, lines, c) ==> x.lacks == {}
    decreases |lines|
  {
    if lines != [] {
      ReadStep(o, lines[0], c, st);
      NothingLacks(o, lines[1..], Update(o, c, lines[0]), Advance(st, lines[0]));
    }
  }

  /** The fields already written for the current instruction agree. */
  ghost predicate Agree(o: Options, c: Inst, d: Inst, st: nat)
  {
    && (st >= 1 ==> c.sn == d.sn && c.pc == d.pc && c.upc == d.upc && c.disasm == d.disasm && c.fetch == d.fetch)
    && (st >= 2 ==> c.decode == d.decode)
    && (st >= 3 ==> c.rename == d.rename)
    && (st >= 4 ==> c.dispatch == d.dispatch)
    && (st >= 5 ==> c.issue == d.issue)
    && (st >= 6 ==> c.complete == d.complete)
    && (!o.storeCompletions ==> c.store == d.store)
    && Read(c, st) && Read(d, st)
  }

  lemma {:induction false} AgreeStep(o: Options, l: Line, c: Inst, d: Inst, st: nat)
    requires Advance(st, l) >= 0 && st <= 6 && Agree(o, c, d, st)
    ensures Advance(st, l) <= 6 && Agree(o, Update(o, c, l), Update(o, d, l), Advance(st, l))
    ensures l.RetireLine? ==> Update(o, c, l) == Update(o, d, l)
  {
    ReadStep(o, l, c, st);
    ReadStep(o, l, d, st);
  }

  /** Nothing leaks from one instruction to the next although the record is reused. */
  lemma {:induction false} NoStaleFields(o: Options, lines: seq<Line>, c: Inst, d: Inst, st: nat)
    requires WellFormed(lines, st) && st <= 6 && Agree(o, c, d, st)
    ensures Arrivals(o, lines, c) == Arrivals(o, lines, d)
    decreases |lines|
  {
    if lines != [] {
      AgreeStep(o, lines[0], c, d, st);
      NoStaleFields(o, lines[1..], Update(o, c, lines[0]), Update(o, d, lines[0]), Advance(st, lines[0]));
    }
  }

  /** A property of sequence number and fetch tick passes from fetch lines to instructions. */
  lemma {:induction false} FetchDecides(o: Options, lines: seq<Line>, cur: Inst, st: nat, p: (int, int) -> bool)
    requires WellFormed(lines, st) && (st > 0 ==> p(cur.sn, cur.fetch))
    requires forall l :: l in lines && l.FetchLine? ==> p(l.sn, l.tick)
    ensures forall x :: x in Arrivals(o, lines, cur) ==> p(x.sn, x.fetch)
    decreases |lines|
  {
    if lines != [] {
      assert lines[0] in lines;
      FetchDecides(o, lines[1..], Update(o, cur, lines[0]), Advance(st, lines[0]), p);
    }
  }

  lemma {:induction false} StoreUntouched(o: Options, lines: seq<Line>, cur: Inst)
    requires !o.storeCompletions
    ensures After(o, lines, cur).store == cur.store
    decreases |lines|
  {
    if lines != [] {
      StoreUntouched(o, lines[1..], Update(o, cur, lines[0]));
    }
  }

  ghost predicate ValidOptions(o: Options) { o.startTick >= 0 && o.startSn >= 0 }

  /** The instructions skipped before the region, and those never read behind it. */
  function Skipped(o: Options, lines: seq<Line>): seq<Inst> { Arrivals(o, lines[..Begin(o, lines)], NOTHING) }

  function Unread(o: Options, lines: seq<Line>): seq<Inst>
  {
    Arrivals(o, lines[End(o, lines)..], After(o, lines[..End(o, lines)], NOTHING))
  }

  /** Where the region begins and ends, in terms of the lines. */
  lemma RegionBounds(o: Options, lines: seq<Line>)
    ensures Begin(o, lines) < |lines| ==> lines[Begin(o, lines)].FetchLine?
    ensures End(o, lines) < |lines| ==> Stops(o, lines[End(o, lines)])
    ensures forall j :: 0 <= j < Begin(o, lines) && lines[j].FetchLine? ==> !Starts(o, lines[j])
  {
    assert forall j :: 0 <= j < Begin(o, lines) && IsFetch()(lines[j]) ==> !StartLine(o)(lines[j]);
  }

  /** A fetch line always opens a new instruction. */
  lemma SplitAtFetch(lines: seq<Line>, i: nat)
    requires WellFormed(lines, 0) && i <= |lines| && (i < |lines| ==> lines[i].FetchLine?)
    ensures WellFormed(lines[..i], 0) && WellFormed(lines[i..], Reached(lines[..i], 0))
    ensures i < |lines| ==> Reached(lines[..i], 0) == 0
  {
    assert lines == lines[..i] + lines[i..];
    WellFormedSplit(lines[..i], lines[i..], 0);
    assert i < |lines| ==> lines[i..][0] == lines[i];
  }

  /** Starting to read at a fetch line, with an empty record, yields the same instructions. */
  lemma FreshStart(o: Options, lines: seq<Line>, b: nat, e: nat)
    requires WellFormed(lines, 0) && b <= e <= |lines| && (b < |lines| ==> lines[b].FetchLine?)
    ensures Arrivals(o, lines[b..e], After(o, lines[..b], NOTHING)) == Arrivals(o, lines[b..e], NOTHING)
  {
    SplitAtFetch(lines, b);
    if b < |lines| {
      assert lines[b..] == lines[b..e] + lines[e..];
      WellFormedSplit(lines[b..e], lines[e..], 0);
      if !o.storeCompletions { StoreUntouched(o, lines[..b], NOTHING); }
      NoStaleFields(o, lines[b..e], After(o, lines[..b], NOTHING), NOTHING, 0);
    }
  }

  lemma {:induction false} ThreeParts(o: Options, lines: seq<Line>, b: nat, e: nat)
    requires b <= e <= |lines|
    ensures Arrivals(o, lines, NOTHING) ==
            Arrivals(o, lines[..b], NOTHING) + Arrivals(o, lines[b..e], After(o, lines[..b], NOTHING)) +
            Arrivals(o, lines[e..], After(o, lines[..e], NOTHING))
  {
    assert lines == lines[..e] + lines[e..] && lines[..e] == lines[..b] + lines[b..e];
    ArrivalsAppend(o, lines[..e], lines[e..], NOTHING);
    ArrivalsAppend(o, lines[..b], lines[b..e], NOTHING);
  }

  /** The trace splits into what is skipped, what reaches the queue and what is never read; in
      particular starting in the middle of the trace changes no instruction. */
  lemma {:induction false} TraceSplits(o: Options, lines: seq<Line>)
    requires WellFormed(lines, 0)
    ensures Arrivals(o, lines, NOTHING) == Skipped(o, lines) + Processed(o, lines) + Unread(o, lines)
  {
    RegionBounds(o, lines);
    FreshStart(o, lines, Begin(o, lines), End(o, lines));
    ThreeParts(o, lines, Begin(o, lines), End(o, lines));
  }

  /** Skip-ahead loses nothing: everything skipped lies before the window. */
  lemma SkippedIsBefore(o: Options, lines: seq<Line>)
    requires ValidOptions(o) && WellFormed(lines, 0)
    ensures forall x :: x in Skipped(o, lines) ==> BeforeWindow(o, x.sn, x.fetch)
  {
    RegionBounds(o, lines);
    SplitAtFetch(lines, Begin(o, lines));
    FetchDecides(o, lines[..Begin(o, lines)], NOTHING, 0, (sn, fetch) => BeforeWindow(o, sn, fetch));
  }

  /** No fetch falls behind an earlier one by more than the thresholds allow. */
  ghost predicate DriftBounded(o: Options, lines: seq<Line>)
  {
    forall i, j :: 0 <= i < j < |lines| && lines[i].FetchLine? && lines[j].FetchLine? ==>
      lines[j].sn >= lines[i].sn - o.max && lines[j].tick >= lines[i].tick - o.drift
  }

  lemma BehindStop(o: Options, lines: seq<Line>, e: nat, j: nat)
    requires DriftBounded(o, lines) && e <= j < |lines| && Stops(o, lines[e]) && lines[j].FetchLine?
    ensures AfterWindow(o, lines[j].sn, lines[j].tick)
  {
  }

  lemma UnreadFetches(o: Options, lines: seq<Line>, e: nat)
    requires DriftBounded(o, lines) && e < |lines| && Stops(o, lines[e])
    ensures forall l :: l in lines[e..] && l.FetchLine? ==> AfterWindow(o, l.sn, l.tick)
  {
    forall l | l in lines[e..] && l.FetchLine? ensures AfterWindow(o, l.sn, l.tick) {
      var j :| 0 <= j < |lines| - e && lines[e..][j] == l;
      BehindStop(o, lines, e, e + j);
    }
  }

  /** Early stop loses nothing when the drift is bounded: everything unread lies behind the window. */
  lemma UnreadIsAfter(o: Options, lines: seq<Line>)
    requires WellFormed(lines, 0) && DriftBounded(o, lines)
    ensures forall x :: x in Unread(o, lines) ==> AfterWindow(o, x.sn, x.fetch)
  {
    var e := End(o, lines);
    RegionBounds(o, lines);
    if e < |lines| {
      SplitAtFetch(lines, e);
      UnreadFetches(o, lines, e);
      FetchDecides(o, lines[e..], After(o, lines[..e], NOTHING), 0, (sn, fetch) => AfterWindow(o, sn, fetch));
    }
  }

  lemma CountMonotone(n: int, s: seq<Inst>, t: seq<Inst>)
    ensures CountLarger(t, n) <= CountLarger(s + t, n)
  {
    FilterAppend(Larger(n), s, t);
  }

  /** A part of a trace is no more out of order than the whole. */
  lemma PartInOrder(s: seq<Inst>, t: seq<Inst>, u: seq<Inst>, places: nat)
    requires OutOfOrderBy(s + t + u, places)
    ensures OutOfOrderBy(t, places)
  {
    var a := s + t + u;
    forall i | 0 <= i < |t| ensures CountLarger(t[..i], t[i].sn) <= places {
      var k := |s| + i;
      assert a[..k] == s + t[..i] && a[k] == t[i];
      assert CountLarger(a[..k], a[k].sn) <= places;
      CountMonotone(t[i].sn, s, t[..i]);
    }
  }

  /** Filtering a sorted trace whose first part is not wanted. */
  lemma {:induction false} SortedWindow(w: Inst -> bool, s: seq<Inst>, p: seq<Inst>, u: seq<Inst>)
    requires forall x :: x in s ==> !w(x)
    ensures Filter(w, StableSort(s + p + u)) == StableSort(Filter(w, p) + Filter(w, u))
  {
    SortFilter(w, s + p + u);
    FilterAppend(w, s + p, u);
    FilterAppend(w, s, p);
    FilterNone(w, s);
    assert [] + Filter(w, p) == Filter(w, p);
  }

  lemma {:induction false} FilterMultiset(w: Inst -> bool, s: seq<Inst>, x: Inst)
    ensures multiset(Filter(w, s))[x] == if w(x) then multiset(s)[x] else 0
    decreases |s|
  {
    if s != [] {
      var t, y := SnocOf(s);
      FilterMultiset(w, t, x);
      FilterSnoc(w, t, y);
      assert multiset(s) == multiset(t) + multiset{y};
    }
  }

  /** The queue loses nothing that is wanted. */
  lemma {:induction false} DrainedSelection(w: Inst -> bool, a: seq<Inst>, max: nat, min: nat)
    ensures |Filter(w, Drained(a, max, min))| == |Filter(w, a)|
  {
    var d := Drained(a, max, min);
    DrainedExtends(a, |a|, max, min);
    forall x ensures multiset(Filter(w, d))[x] == multiset(Filter(w, a))[x] {
      FilterMultiset(w, d, x);
      FilterMultiset(w, a, x);
    }
    assert multiset(Filter(w, d)) == multiset(Filter(w, a));
    assert |multiset(Filter(w, d))| == |Filter(w, d)|;
  }

  lemma {:induction false} ReferenceIs(o: Options, lines: seq<Line>)
    requires ValidOptions(o) && WellFormed(lines, 0)
    ensures Reference(o, lines) ==
            StableSort(Filter(Window(o), Processed(o, lines)) + Filter(Window(o), Unread(o, lines)))
  {
    TraceSplits(o, lines);
    SkippedIsBefore(o, lines);
    SortedWindow(Window(o), Skipped(o, lines), Processed(o, lines), Unread(o, lines));
  }

  /** With skip-ahead, early stop and the bounded queue, the viewer prints what reading, sorting and
      filtering the whole trace would print if and only if nothing behind the early stop was wanted and
      no wanted instruction arrived after a larger wanted one had been taken off the queue. */
  lemma {:induction false} ViewerExact(o: Options, lines: seq<Line>)
    requires ValidOptions(o) && WellFormed(lines, 0)
    ensures Output(o, lines) == Reference(o, lines) <==>
            && (forall x :: x in Unread(o, lines) ==> !Selected(o, x))
            && NoneLate(Window(o), Processed(o, lines), o.max, o.min)
  {
    ReferenceIs(o, lines);
    var p, u := Filter(Window(o), Processed(o, lines)), Filter(Window(o), Unread(o, lines));
    WindowExact(Window(o), Processed(o, lines), o.max, o.min);
    if forall x :: x in Unread(o, lines) ==> !Selected(o, x) {
      FilterNone(Window(o), Unread(o, lines));
      assert p + u == p;
    } else {
      FilterSome(Window(o), Unread(o, lines));
      DrainedSelection(Window(o), Processed(o, lines), o.max, o.min);
      SortLength(p + u);
    }
  }

  lemma {:induction false} FilterSome(p: Inst -> bool, s: seq<Inst>)
    requires exists x :: x in s && p(x)
    ensures Filter(p, s) != []
    decreases |s|
  {
    var t, x := SnocOf(s);
    if !p(x) {
      FilterSome(p, t);
    }
  }

  lemma {:induction false} ProcessedInTime(o: Options, lines: seq<Line>)
    requires WellFormed(lines, 0) && OutOfOrderBy(Arrivals(o, lines, NOTHING), o.min)
    ensures NoneLate(Window(o), Processed(o, lines), o.max, o.min)
  {
    TraceSplits(o, lines);
    PartInOrder(Skipped(o, lines), Processed(o, lines), Unread(o, lines), o.min);
    BoundedInTime(Processed(o, lines), o.max, o.min);
    InTimeIsNoneLate(Window(o), Processed(o, lines), o.max, o.min);
  }

  /** The documented assumptions suffice. */
  lemma {:induction false} ViewerLosesNothing(o: Options, lines: seq<Line>)
    requires ValidOptions(o) && WellFormed(lines, 0)
    requires OutOfOrderBy(Arrivals(o, lines, NOTHING), o.min) && DriftBounded(o, lines)
    ensures Output(o, lines) == Reference(o, lines)
  {
    UnreadIsAfter(o, lines);
    ProcessedInTime(o, lines);
    ViewerExact(o, lines);
  }

  // ---------------------------------------------------------------------------------------------
  // What the instructions are: the reports of the simulator, field by field
  // ---------------------------------------------------------------------------------------------

  /** What the simulator reports about one instruction. */
  datatype Report = Report(
    sn: int, pc: string, upc: string, disasm: string,
    fetch: int, decode: int, rename: int, dispatch: int, issue: int, complete: int, retire: int, store: int)

  /** The seven lines of a report. */
  function ReportLines(r: Report): seq<Line>
  {
    [FetchLine(r.fetch, r.pc, r.upc, r.sn, r.disasm), StageLine(Decode, r.decode), StageLine(Rename, r.rename),
     StageLine(Dispatch, r.dispatch), StageLine(Issue, r.issue), StageLine(Complete, r.complete),
     RetireLine(r.retire, r.store)]
  }

  /** The instruction of a report: the text of an abandoned one is marked, and the store counts only
      where it is asked for. */
  ghost predicate Reported(o: Options, r: Report, x: Inst)
  {
    && x.sn == r.sn && x.pc == r.pc && x.upc == r.upc
    && x.disasm == (if r.retire == 0 then "-----" + r.disasm else r.disasm)
    && x.fetch == r.fetch && x.decode == r.decode && x.rename == r.rename && x.dispatch == r.dispatch
    && x.issue == r.issue && x.complete == r.complete && x.retire == r.retire
    && (o.storeCompletions ==> x.store == r.store)
    && x.lacks == {}
  }

  /** Seven lines for any values arrive as exactly the instruction with those values. */
  lemma {:induction false} ReportArrives(o: Options, r: Report, rest: seq<Line>, cur: Inst)
    ensures var x := After(o, ReportLines(r), cur);
      && Reported(o, r, x) && (!o.storeCompletions ==> x.store == cur.store)
      && Arrivals(o, ReportLines(r) + rest, cur) == [x] + Arrivals(o, rest, x)
    ensures WellFormed(rest, 0) ==> WellFormed(ReportLines(r) + rest, 0)
  {
    var ls := ReportLines(r);
    ReadsReport(o, r, cur);
    ArrivalsAppend(o, ls, rest, cur);
    if WellFormed(rest, 0) { ReportWellFormed(r, rest); }
  }

  lemma {:induction false} ReadsReport(o: Options, r: Report, cur: Inst)
    ensures var x := After(o, ReportLines(r), cur);
      Reported(o, r, x) && (!o.storeCompletions ==> x.store == cur.store) && Arrivals(o, ReportLines(r), cur) == [x]
  {
    var s := ReportLines(r);
    forall i | 0 <= i < 7 ensures s[i..][1..] == s[i + 1..] && s[i..][0] == s[i] { }
    assert s[0..] == s && s[7..] == [];
    var c1 := Update(o, cur, s[0]);
    var c2 := Update(o, c1, s[1]);
    var c3 := Update(o, c2, s[2]);
    var c4 := Update(o, c3, s[3]);
    var c5 := Update(o, c4, s[4]);
    var c6 := Update(o, c5, s[5]);
    var c7 := Update(o, c6, s[6]);
    assert Arrivals(o, s[6..], c6) == [c7] + Arrivals(o, s[7..], c7) && After(o, s[6..], c6) == c7;
    assert Arrivals(o, s[5..], c5) == [] + Arrivals(o, s[6..], c6) && After(o, s[5..], c5) == c7;
    assert Arrivals(o, s[4..], c4) == [] + Arrivals(o, s[5..], c5) && After(o, s[4..], c4) == c7;
    assert Arrivals(o, s[3..], c3) == [] + Arrivals(o, s[4..], c4) && After(o, s[3..], c3) == c7;
    assert Arrivals(o, s[2..], c2) == [] + Arrivals(o, s[3..], c3) && After(o, s[2..], c2) == c7;
    assert Arrivals(o, s[1..], c1) == [] + Arrivals(o, s[2..], c2) && After(o, s[1..], c1) == c7;
    assert Arrivals(o, s[0..], cur) == [] + Arrivals(o, s[1..], c1) && After(o, s[0..], cur) == c7;
    LacksNothing(c7);
  }

  lemma {:induction false} ReportWellFormed(r: Report, rest: seq<Line>)
    requires WellFormed(rest, 0)
    ensures WellFormed(ReportLines(r) + rest, 0)
  {
    var s := ReportLines(r) + rest;
    forall i | 0 <= i < 7 ensures s[i..][1..] == s[i + 1..] && s[i..][0] == ReportLines(r)[i] { }
    assert s[0..] == s && s[7..] == rest;
    assert WellFormed(s[6..], 6) && WellFormed(s[5..], 5) && WellFormed(s[4..], 4) && WellFormed(s[3..], 3);
    assert WellFormed(s[2..], 2) && WellFormed(s[1..], 1) && WellFormed(s[0..], 0);
  }

  /** The lines the viewer does not ignore. */
  ghost function Meaningful(lines: seq<Line>): seq<Line>
  {
    if lines == [] then [] else (if lines[0].Other? then [] else [lines[0]]) + Meaningful(lines[1..])
  }

  lemma {:induction false} OthersDoNotMatter(o: Options, lines: seq<Line>, cur: Inst, st: nat)
    requires WellFormed(lines, st)
    ensures Arrivals(o, lines, cur) == Arrivals(o, Meaningful(lines), cur) && WellFormed(Meaningful(lines), st)
    ensures forall l :: l in Meaningful(lines) ==> !l.Other?
    decreases |lines|
  {
    if lines != [] {
      OthersDoNotMatter(o, lines[1..], Update(o, cur, lines[0]), Advance(st, lines[0]));
      var rest := Meaningful(lines[1..]);
      assert lines[0].Other? ==> [] + rest == rest && [] + Arrivals(o, rest, cur) == Arrivals(o, rest, cur);
      assert !lines[0].Other? ==> ([lines[0]] + rest)[1..] == rest;
    }
  }

  ghost function AllLines(rs: seq<Report>): seq<Line>
  {
    if rs == [] then [] else ReportLines(rs[0]) + AllLines(rs[1..])
  }

  /** A trace consists of these reports: its lines are theirs, in order, and at its end there may be
      some lines of an instruction that is not retired yet. */
  ghost predicate Consists(lines: seq<Line>, rs: seq<Report>)
  {
    AllLines(rs) <= Meaningful(lines) && forall l :: l in Meaningful(lines)[|AllLines(rs)|..] ==> !l.RetireLine?
  }

  /** One instruction for each report. */
  ghost predicate AllReported(o: Options, rs: seq<Report>, xs: seq<Inst>)
  {
    |rs| == |xs| && forall i :: 0 <= i < |rs| ==> Reported(o, rs[i], xs[i])
  }

  lemma {:induction false} FirstReport(ls: seq<Line>) returns (r: Report)
    requires WellFormed(ls, 0) && |ls| >= 7 && forall l :: l in ls ==> !l.Other?
    ensures ls == ReportLines(r) + ls[7..] && WellFormed(ls[7..], 0)
  {
    forall i | 0 <= i < 7 ensures ls[i..][1..] == ls[i + 1..] && ls[i..][0] == ls[i] && !ls[i].Other? {
      assert ls[i] in ls;
    }
    assert ls[0..] == ls;
    assert ls[0].FetchLine? && WellFormed(ls[1..], 1);
    assert ls[1].StageLine? && ls[1].stage == Decode && WellFormed(ls[2..], 2);
    assert ls[2].StageLine? && ls[2].stage == Rename && WellFormed(ls[3..], 3);
    assert ls[3].StageLine? && ls[3].stage == Dispatch && WellFormed(ls[4..], 4);
    assert ls[4].StageLine? && ls[4].stage == Issue && WellFormed(ls[5..], 5);
    assert ls[5].StageLine? && ls[5].stage == Complete && WellFormed(ls[6..], 6);
    assert ls[6].RetireLine? && WellFormed(ls[7..], 0);
    var f := ls[0];
    r := Report(f.sn, f.pc, f.upc, f.disasm, f.tick, ls[1].tick, ls[2].tick, ls[3].tick, ls[4].tick, ls[5].tick,
                ls[6].tick, ls[6].storeTick);
    assert ls[..7] == ReportLines(r);
  }

  lemma {:induction false} TooShort(o: Options, ls: seq<Line>, cur: Inst, st: nat)
    requires WellFormed(ls, st) && st + |ls| < 7 && forall l :: l in ls ==> !l.Other?
    ensures Arrivals(o, ls, cur) == [] && forall l :: l in ls ==> !l.RetireLine?
    decreases |ls|
  {
    if ls != [] {
      assert ls[0] in ls;
      TooShort(o, ls[1..], Update(o, cur, ls[0]), Advance(st, ls[0]));
      assert ls == [ls[0]] + ls[1..];
    }
  }

  lemma {:induction false} ReportsOf(o: Options, ls: seq<Line>, cur: Inst) returns (rs: seq<Report>)
    requires WellFormed(ls, 0) && forall l :: l in ls ==> !l.Other?
    ensures AllLines(rs) <= ls && forall l :: l in ls[|AllLines(rs)|..] ==> !l.RetireLine?
    ensures AllReported(o, rs, Arrivals(o, ls, cur))
    decreases |ls|
  {
    if |ls| < 7 {
      TooShort(o, ls, cur, 0);
      rs := [];
    } else {
      var r := FirstReport(ls);
      ReportArrives(o, r, ls[7..], cur);
      var rest := ReportsOf(o, ls[7..], After(o, ReportLines(r), cur));
      rs := [r] + rest;
      assert rs[1..] == rest && AllLines(rs) == ReportLines(r) + AllLines(rest);
      assert ls[|AllLines(rs)|..] == ls[7..][|AllLines(rest)|..];
    }
  }

  /** Every trace as the simulator writes it consists of reports, and what arrives is one instruction for
      each of them, in order and with all its values. */
  lemma {:induction false} TraceIsReported(o: Options, lines: seq<Line>, cur: Inst) returns (rs: seq<Report>)
    requires WellFormed(lines, 0)
    ensures Consists(lines, rs) && AllReported(o, rs, Arrivals(o, lines, cur))
  {
    OthersDoNotMatter(o, lines, cur, 0);
    rs := ReportsOf(o, Meaningful(lines), cur);
  }

  // On any trace: every field is from the latest line that has it

  predicate IsStage(l: Line, s: Stage) { l.StageLine? && l.stage == s }

  /** The latest line in `lines` for which `p` holds is at `k`. */
  ghost predicate LatestAt(lines: seq<Line>, p: Line -> bool, k: nat)
  {
    k < |lines| && p(lines[k]) && forall j :: k < j < |lines| ==> !p(lines[j])
  }

  ghost function StageTick(x: Inst, s: Stage): int
  {
    match s
    case Decode => x.decode
    case Rename => x.rename
    case Dispatch => x.dispatch
    case Issue => x.issue
    case Complete => x.complete
  }

  lemma {:induction false} AfterSnoc(o: Options, lines: seq<Line>, l: Line, cur: Inst)
    ensures After(o, lines + [l], cur) == Update(o, After(o, lines, cur), l)
    ensures Arrivals(o, lines + [l], cur) ==
            Arrivals(o, lines, cur) + if l.RetireLine? then [After(o, lines + [l], cur)] else []
  {
    ArrivalsAppend(o, lines, [l], cur);
    assert [l][1..] == [];
  }

  /** `x` has the tick of the latest line of stage `s`; without one it is as in `cur`, and lacking if
      it was. */
  ghost predicate StageFrom(lines: seq<Line>, cur: Inst, x: Inst, s: Stage)
  {
    if exists k :: 0 <= k < |lines| && IsStage(lines[k], s) then
      s !in x.lacks && exists k: nat :: LatestAt(lines, OfStage(s), k) && StageTick(x, s) == lines[k].tick
    else StageTick(x, s) == StageTick(cur, s) && (s in x.lacks <==> s in cur.lacks)
  }

  ghost function OfStage(s: Stage): Line -> bool { (l: Line) => IsStage(l, s) }

  lemma {:induction false} UpdateStage(o: Options, l: Line, c: Inst, s: Stage)
    ensures var x := Update(o, c, l);
      if IsStage(l, s) then s !in x.lacks && StageTick(x, s) == l.tick
      else StageTick(x, s) == StageTick(c, s) && (s in x.lacks <==> s in c.lacks)
  {
  }

  lemma {:induction false} StageFromSnoc(o: Options, before: seq<Line>, l: Line, cur: Inst, c: Inst, s: Stage)
    requires StageFrom(before, cur, c, s)
    ensures StageFrom(before + [l], cur, Update(o, c, l), s)
  {
    var lines, n := before + [l], |before|;
    UpdateStage(o, l, c, s);
    assert lines[n] == l && forall k :: 0 <= k < n ==> lines[k] == before[k];
    if IsStage(l, s) {
      assert LatestAt(lines, OfStage(s), n);
    } else if exists k :: 0 <= k < n && IsStage(before[k], s) {
      var k: nat :| LatestAt(before, OfStage(s), k) && StageTick(c, s) == before[k].tick;
      assert LatestAt(lines, OfStage(s), k) && IsStage(lines[k], s);
    }
  }

  /** On any trace a stage has the tick of its latest line. */
  lemma {:induction false} StageIsLatest(o: Options, lines: seq<Line>, cur: Inst, s: Stage)
    ensures StageFrom(lines, cur, After(o, lines, cur), s)
    decreases |lines|
  {
    if lines != [] {
      var n := |lines| - 1;
      StageIsLatest(o, lines[..n], cur, s);
      assert lines == lines[..n] + [lines[n]];
      AfterSnoc(o, lines[..n], lines[n], cur);
      StageFromSnoc(o, lines[..n], lines[n], cur, After(o, lines[..n], cur), s);
    }
  }

  /** An instruction lacks exactly the stages of which no line has been read. */
  lemma {:induction false} LacksExactly(o: Options, lines: seq<Line>, s: Stage)
    ensures s in After(o, lines, NOTHING).lacks <==> !exists k :: 0 <= k < |lines| && IsStage(lines[k], s)
  {
    StageIsLatest(o, lines, NOTHING, s);
  }

  /** What a fetch line says is from the latest one. */
  lemma {:induction false} FetchIsLatest(o: Options, lines: seq<Line>, cur: Inst, k: nat)
    requires LatestAt(lines, IsFetch(), k)
    ensures var x, l := After(o, lines, cur), lines[k];
      x.fetch == l.tick && x.sn == l.sn && x.pc == l.pc && x.upc == l.upc
    decreases |lines|
  {
    var n := |lines| - 1;
    var before, l := lines[..n], lines[n];
    assert lines == before + [l];
    AfterSnoc(o, before, l, cur);
    if k < n {
      assert IsFetch()(before[k]) && !IsFetch()(lines[n]);
      FetchIsLatest(o, before, cur, k);
    }
  }

  /** On any trace, every retire line makes one instruction arrive; it has the tick of that line, with
      the store where it is asked for, and everything else from the lines up to there. */
  lemma {:induction false} RetireArrives(o: Options, lines: seq<Line>, cur: Inst, k: nat)
    requires k < |lines|
    ensures var before, x := Arrivals(o, lines[..k], cur), After(o, lines[..k + 1], cur);
      && Arrivals(o, lines[..k + 1], cur) == (if lines[k].RetireLine? then before + [x] else before)
      && (lines[k].RetireLine? ==>
            x.retire == lines[k].tick && (o.storeCompletions ==> x.store == lines[k].storeTick))
  {
    assert lines[..k + 1] == lines[..k] + [lines[k]];
    AfterSnoc(o, lines[..k], lines[k], cur);
  }

  // ---------------------------------------------------------------------------------------------
  // Which lines are read, and which instructions are wanted
  // ---------------------------------------------------------------------------------------------

  /** The line is at or after the start of the window; everything is where there is no start. */
  ghost predicate Reaches(o: Options, l: Line)
  {
    && (o.startTick != 0 ==> !l.Other? && o.startTick <= l.tick)
    && (o.startTick == 0 && o.startSn != 0 ==> l.FetchLine? && o.startSn <= l.sn)
  }

  ghost predicate FirstInReach(o: Options, lines: seq<Line>, i: int)
  {
    0 <= i <= |lines| && (forall j :: 0 <= j < i ==> !Reaches(o, lines[j])) && (i < |lines| ==> Reaches(o, lines[i]))
  }

  /** The line is a fetch beyond the window, by more than the drift or the upper threshold. */
  ghost predicate Beyond(o: Options, l: Line)
  {
    && l.FetchLine?
    && (o.stopTick <= 0 || l.tick <= o.stopTick + o.drift ==> o.stopSn > 0 && o.stopSn + o.max < l.sn)
  }

  /** Reading starts at the first fetch at or after the first line in reach of the window, and goes on up
      to the first fetch from there that is beyond it. */
  lemma {:induction false} RegionIs(o: Options, lines: seq<Line>)
    ensures var b, e := Begin(o, lines), End(o, lines);
      && (exists i :: FirstInReach(o, lines, i) && i <= b && forall j :: i <= j < b ==> !lines[j].FetchLine?)
      && (b < |lines| ==> lines[b].FetchLine?)
      && (forall j :: b <= j < e ==> !Beyond(o, lines[j])) && (e < |lines| ==> Beyond(o, lines[e]))
  {
    var i := Seek(StartLine(o), lines, 0);
    assert forall j :: 0 <= j < |lines| ==> (StartLine(o)(lines[j]) <==> Reaches(o, lines[j]));
    assert forall j :: 0 <= j < |lines| ==> (StopLine(o)(lines[j]) <==> Beyond(o, lines[j]));
    assert FirstInReach(o, lines, i) && forall j :: i <= j < Begin(o, lines) ==> !IsFetch()(lines[j]);
  }

  /** An instruction is wanted: it is on the right side of every positive bound, and committed if only
      those are asked for. */
  ghost predicate Wanted(o: Options, x: Inst)
  {
    && (o.startSn > 0 ==> o.startSn <= x.sn) && (o.stopSn > 0 ==> x.sn <= o.stopSn)
    && (o.startTick > 0 ==> o.startTick <= x.fetch) && (o.stopTick > 0 ==> x.fetch <= o.stopTick)
    && (o.committedOnly ==> x.retire != 0)
  }

  /** `shown` has every wanted instruction of `xs` as often as `xs` has it, and no other. */
  ghost predicate ShowsWanted(o: Options, xs: seq<Inst>, shown: seq<Inst>)
  {
    forall x :: multiset(shown)[x] == if Wanted(o, x) then multiset(xs)[x] else 0
  }

  lemma {:induction false} WindowShows(o: Options, xs: seq<Inst>, s: seq<Inst>)
    requires multiset(xs) == multiset(s)
    ensures ShowsWanted(o, xs, Filter(Window(o), s))
  {
    forall x ensures multiset(Filter(Window(o), s))[x] == if Wanted(o, x) then multiset(xs)[x] else 0 {
      FilterMultiset(Window(o), s, x);
    }
  }

  // ---------------------------------------------------------------------------------------------
  // A trace that exceeds the drift
  // ---------------------------------------------------------------------------------------------

  /** An instruction all of whose stages are at one tick, and its lines. */
  function AtOneTick(tick: int, sn: int): Report
  {
    Report(sn, "", "", "", tick, tick, tick, tick, tick, tick, tick, 0)
  }

  function LinesAt(tick: int, sn: int): seq<Line> { ReportLines(AtOneTick(tick, sn)) }

  /** That instruction, committed and without its store. */
  function InstAt(tick: int, sn: int, store: int): Inst
  {
    Inst(sn, "", "", "", tick, tick, tick, tick, tick, tick, tick, store, {})
  }

  lemma {:induction false} TwoArrive(o: Options, t1: int, n1: int, t2: int, n2: int)
    requires t1 != 0 && t2 != 0 && !o.storeCompletions
    ensures WellFormed(LinesAt(t1, n1) + LinesAt(t2, n2), 0)
    ensures Arrivals(o, LinesAt(t1, n1) + LinesAt(t2, n2), NOTHING) == [InstAt(t1, n1, 0), InstAt(t2, n2, 0)]
  {
    ReportArrives(o, AtOneTick(t1, n1), LinesAt(t2, n2), NOTHING);
    ReportArrives(o, AtOneTick(t2, n2), [], InstAt(t1, n1, 0));
    assert LinesAt(t2, n2) + [] == LinesAt(t2, n2);
  }

  /** A trace that begins with the fetch that stops the viewer is not read at all. */
  lemma {:induction false} StopsAtOnce(o: Options, lines: seq<Line>)
    requires o.startTick == 0 && o.startSn == 0 && lines != [] && Stops(o, lines[0])
    ensures Unread(o, lines) == Arrivals(o, lines, NOTHING)
  {
    assert Seek(StartLine(o), lines, 0) == 0 && Begin(o, lines) == 0 && End(o, lines) == 0;
    assert lines[0..] == lines && lines[..0] == [];
  }

  lemma {:induction false} InOrder(s: seq<Inst>, places: nat)
    requires |s| == 2 && s[0].sn <= s[1].sn
    ensures OutOfOrderBy(s, places)
  {
    assert s[..0] == [] && s[..1] == [s[0]];
    FilterNone(Larger(s[0].sn), s[..0]);
    FilterNone(Larger(s[1].sn), s[..1]);
    forall i | 0 <= i < |s| ensures CountLarger(s[..i], s[i].sn) <= places { assert i == 0 || i == 1; }
  }

  /**
   * A first instruction fetched beyond the end of the window and the drift stops the viewer; a second
   * one in the window is then not printed.
   */
  lemma {:induction false} EarlyStopLoses(o: Options, t1: int, n1: int, t2: int, n2: int)
    requires o.startTick == 0 && o.startSn == 0 && !o.storeCompletions && t1 != 0 && t2 != 0 && n1 <= n2
    requires Stops(o, LinesAt(t1, n1)[0]) && Selected(o, InstAt(t2, n2, 0))
    ensures var lines := LinesAt(t1, n1) + LinesAt(t2, n2);
      && ValidOptions(o) && WellFormed(lines, 0) && OutOfOrderBy(Arrivals(o, lines, NOTHING), o.min)
      && Output(o, lines) != Reference(o, lines)
  {
    var lines := LinesAt(t1, n1) + LinesAt(t2, n2);
    TwoArrive(o, t1, n1, t2, n2);
    var all := Arrivals(o, lines, NOTHING);
    InOrder(all, o.min);
    assert lines[0] == LinesAt(t1, n1)[0];
    StopsAtOnce(o, lines);
    assert all[1] in all;
    ViewerExact(o, lines);
  }

  /** Such a trace, with the program's own drift and thresholds: a window that ends at tick 1, and
      fetches at ticks 2000002 and 1. */
  lemma {:induction false} EarlyStopExample()
    ensures var o := Options(0, 1, 0, 0, false, false, 2000000, 2000, 1000);
      var lines := LinesAt(2000002, 1) + LinesAt(1, 2);
      && WellFormed(lines, 0) && OutOfOrderBy(Arrivals(o, lines, NOTHING), o.min)
      && Output(o, lines) != Reference(o, lines)
  {
    EarlyStopLoses(Options(0, 1, 0, 0, false, false, 2000000, 2000, 1000), 2000002, 1, 1, 2);
  }
}
