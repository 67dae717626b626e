/**
  What the rows of an instruction show, said in terms of its fields and the letters of the header.

  The laws here describe the printed strings alone: which letters a row has, in which order, where
  they stand, and that everything else is dots.
 */
module PipeviewLayout {
  import opened Common
  import opened PipeviewSort
  import opened PipeviewTimeline

  /** A stage of an instruction: its name, its letter and its tick. */
  datatype Stamp = Stamp(name: string, letter: char, tick: int)

  ghost function Stamps(x: Inst, p: Params): seq<Stamp>
  {
    [Stamp("fetch", 'f', x.fetch), Stamp("decode", 'd', x.decode), Stamp("rename", 'n', x.rename),
     Stamp("dispatch", 'p', x.dispatch), Stamp("issue", 'i', x.issue), Stamp("complete", 'c', x.complete),
     Stamp("retire", 'r', x.retire)] +
    if p.storeCompletions then [Stamp("store", 's', x.store)] else []
  }

  /** Alphabetical order, of names none of which begins another. */
  ghost predicate Alphabetical(a: string, b: string)
  {
    exists i :: 0 <= i < |a| && i < |b| && a[..i] == b[..i] && a[i] < b[i]
  }

  /** The cell of a stage: its cycle within the row. */
  ghost function CellOf(p: Params, e: Stamp): int
    requires ValidParams(p)
  {
    PositiveProduct(p.width, p.cycle);
    (e.tick % (p.width * p.cycle)) / p.cycle
  }

  /** One stage is drawn before another: earlier within the row, or at the same place and first by name. */
  ghost predicate Before(p: Params, a: Stamp, b: Stamp)
    requires ValidParams(p)
  {
    PositiveProduct(p.width, p.cycle);
    var t := p.width * p.cycle;
    a.tick % t < b.tick % t || (a.tick % t == b.tick % t && Alphabetical(a.name, b.name))
  }

  /** A dispatch in the tick of the issue is not shown. */
  ghost predicate IsShown(x: Inst, p: Params, lo: int, hi: int, e: Stamp)
  {
    e in Stamps(x, p) && e.tick != 0 && lo <= e.tick < hi && !(e.name == "dispatch" && x.dispatch == x.issue)
  }

  /** The stages shown for the ticks from `lo` to `hi`, in the order of drawing. */
  ghost predicate ShownIn(x: Inst, p: Params, lo: int, hi: int, es: seq<Stamp>)
    requires ValidParams(p)
  {
    && (forall i, j :: 0 <= i < j < |es| ==> Before(p, es[i], es[j]))
    && (forall e :: e in es <==> IsShown(x, p, lo, hi, e))
  }

  /** Where a stage stands: as many places behind the one before as it is cells behind it, at least one. */
  ghost function Place(p: Params, es: seq<Stamp>, m: nat): int
    requires ValidParams(p) && m < |es|
  {
    if m == 0 then CellOf(p, es[0])
    else Place(p, es, m - 1) + Max(1, CellOf(p, es[m]) - CellOf(p, es[m - 1]))
  }

  /** A row shows these stages and is otherwise dots, up to its width behind the last cell. */
  ghost predicate RowShows(row: string, p: Params, es: seq<Stamp>, dot: char)
    requires ValidParams(p)
  {
    && |row| == (if es == [] then p.width else Place(p, es, |es| - 1) + p.width - CellOf(p, es[|es| - 1]))
    && (forall m :: 0 <= m < |es| ==> 0 <= Place(p, es, m) < |row| && row[Place(p, es, m)] == es[m].letter)
    && (forall q :: 0 <= q < |row| && row[q] != dot ==> exists m :: 0 <= m < |es| && Place(p, es, m) == q)
  }

  /** The time of the last event. */
  ghost predicate IsLast(x: Inst, p: Params, last: int)
  {
    (exists e :: e in Stamps(x, p) && e.tick == last) && forall e :: e in Stamps(x, p) ==> e.tick <= last
  }

  /** A row for the ticks from `lo` to `hi`; an abandoned instruction has another dot. */
  ghost predicate RowFor(row: string, x: Inst, p: Params, lo: int, hi: int)
    requires ValidParams(p)
  {
    exists es :: ShownIn(x, p, lo, hi, es) && RowShows(row, p, es, if x.retire == 0 then '=' else '.')
  }

  /** Rows of `t` ticks from `base` on reach the last event; where that is less than `t` behind the
      fetch, there is one row. */
  ghost predicate RowsReach(n: int, x: Inst, p: Params, t: int, base: int)
    requires t > 0
  {
    exists last :: IsLast(x, p, last) && n == if last - x.fetch < t then 1 else (last - base) / t + 1
  }

  ghost function RowFrom(t: int, base: int, i: int): int { base + i * t }

  /** Where there is only one row, it is longer by the ticks before the fetch, and wraps around. */
  ghost function RowUpTo(rows: int, x: Inst, t: int, base: int, i: int): int
  {
    RowFrom(t, base, i) + t + if rows == 1 then x.fetch - base else 0
  }

  /** The whole layout: rows of `width * cycle` ticks, from the row of the fetch on. */
  ghost predicate LaidOut(rows: seq<string>, x: Inst, p: Params)
    requires ValidParams(p)
  {
    PositiveProduct(p.width, p.cycle);
    var t := p.width * p.cycle;
    var base := x.fetch / t * t;
    RowsReach(|rows|, x, p, t, base) && EachRow(rows, x, p, t, base)
  }

  ghost predicate EachRow(rows: seq<string>, x: Inst, p: Params, t: int, base: int)
    requires ValidParams(p)
  {
    forall i :: 0 <= i < |rows| ==> RowFor(rows[i], x, p, RowFrom(t, base, i), RowUpTo(|rows|, x, t, base, i))
  }

  // ---------------------------------------------------------------------------------------------
  // The rows are laid out like that
  // ---------------------------------------------------------------------------------------------

  ghost function Name(k: nat): string
  {
    match k
    case 0 => "fetch" case 1 => "decode" case 2 => "rename" case 3 => "dispatch"
    case 4 => "issue" case 5 => "complete" case 6 => "retire" case _ => "store"
  }

  ghost function StampOf(x: Inst, k: nat): Stamp { Stamp(Name(k), Letter(k), Tick(x, k)) }

  lemma {:induction false} StampsAre(x: Inst, p: Params)
    ensures |Stamps(x, p)| == StageCount(p)
    ensures forall k: nat :: k < StageCount(p) ==> Stamps(x, p)[k] == StampOf(x, k)
  {
  }

  /** The rank of a stage is the alphabetical position of its name. */
  lemma {:induction false} RankIsAlphabetical(j: nat, k: nat)
    requires j < 8 && k < 8 && NameRank(j) < NameRank(k)
    ensures Alphabetical(Name(j), Name(k))
  {
    var a, b := Name(j), Name(k);
    assert a[..0] == b[..0];
    if a[0] == b[0] {
      assert a[..1] == b[..1];
      if a[1] == b[1] {
        assert a[..2] == b[..2];
        assert a[2] < b[2];
      } else {
        assert a[1] < b[1];
      }
    } else {
      assert a[0] < b[0];
    }
  }

  lemma {:induction false} PrecedesIsBefore(x: Inst, p: Params, a: nat, b: nat)
    requires ValidParams(p) && a < 8 && b < 8 && a != b && Precedes(x, ScaleOf(p), a, b)
    ensures Before(p, StampOf(x, a), StampOf(x, b))
  {
    if Tick(x, a) % RowTicks(p) == Tick(x, b) % RowTicks(p) {
      RanksDiffer(a, b);
      RankIsAlphabetical(a, b);
    }
  }

  lemma {:induction false} RanksDiffer(a: nat, b: nat)
    requires a < 8 && b < 8 && a != b
    ensures NameRank(a) != NameRank(b)
  {
  }

  /** Without the hidden dispatch. */
  ghost function Visible(x: Inst, es: seq<nat>): seq<nat>
  {
    if es == [] then [] else (if Hidden(x, es[0]) then [] else [es[0]]) + Visible(x, es[1..])
  }

  ghost predicate Sequenced(x: Inst, g: Scale, es: seq<nat>)
    requires ValidScale(g)
  {
    forall i, j :: 0 <= i < j < |es| ==> es[i] != es[j] && Precedes(x, g, es[i], es[j])
  }

  lemma {:induction false} InsertSequenced(x: Inst, g: Scale, k: nat, es: seq<nat>)
    requires ValidScale(g) && Sequenced(x, g, es) && k !in es
    ensures Sequenced(x, g, InsertEvent(x, g, k, es))
    ensures forall e :: e in InsertEvent(x, g, k, es) <==> e == k || e in es
    decreases |es|
  {
    if es != [] && !Precedes(x, g, k, es[0]) {
      var r := InsertEvent(x, g, k, es[1..]);
      InsertSequenced(x, g, k, es[1..]);
      assert es == [es[0]] + es[1..];
      forall j | 0 <= j < |r| ensures es[0] != r[j] && Precedes(x, g, es[0], r[j]) {
        assert r[j] in r;
        if r[j] != k {
          var i :| 0 <= i < |es[1..]| && es[1..][i] == r[j];
          assert es[i + 1] == r[j];
        }
      }
    } else {
      forall j | 0 <= j < |es| ensures k != es[j] && Precedes(x, g, k, es[j]) {
        assert es[j] in es && (j > 0 ==> Precedes(x, g, es[0], es[j]));
      }
    }
  }

  lemma {:induction false} SortSequenced(x: Inst, g: Scale, es: seq<nat>)
    requires ValidScale(g) && forall i, j :: 0 <= i < j < |es| ==> es[i] != es[j]
    ensures Sequenced(x, g, SortEvents(x, g, es))
    ensures forall e :: e in SortEvents(x, g, es) <==> e in es
    decreases |es|
  {
    if es != [] {
      SortSequenced(x, g, es[1..]);
      assert forall i :: 0 <= i < |es[1..]| ==> es[1..][i] == es[i + 1];
      InsertSequenced(x, g, es[0], SortEvents(x, g, es[1..]));
      assert es == [es[0]] + es[1..];
    }
  }

  lemma {:induction false} VisibleIs(x: Inst, g: Scale, es: seq<nat>)
    requires ValidScale(g)
    ensures forall e :: e in Visible(x, es) <==> e in es && !Hidden(x, e)
    ensures |Marks(x, g, es)| == |Visible(x, es)|
    ensures forall i :: 0 <= i < |Visible(x, es)| ==> Marks(x, g, es)[i] == MarkOf(x, g, Visible(x, es)[i])
    decreases |es|
  {
    if es != [] {
      VisibleIs(x, g, es[1..]);
      assert es == [es[0]] + es[1..];
    }
  }

  lemma {:induction false} VisibleSequenced(x: Inst, g: Scale, es: seq<nat>)
    requires ValidScale(g) && Sequenced(x, g, es)
    ensures Sequenced(x, g, Visible(x, es))
    decreases |es|
  {
    if es != [] {
      VisibleSequenced(x, g, es[1..]);
      VisibleIs(x, g, es[1..]);
      var v := Visible(x, es[1..]);
      forall j | 0 <= j < |v| ensures es[0] != v[j] && Precedes(x, g, es[0], v[j]) {
        assert v[j] in es[1..];
        var i :| 0 <= i < |es[1..]| && es[1..][i] == v[j];
        assert es[i + 1] == v[j];
      }
    }
  }

  lemma {:induction false} EventsDistinct(x: Inst, lo: int, hi: int, n: nat)
    ensures forall i, j :: 0 <= i < j < |Events(x, lo, hi, n)| ==> Events(x, lo, hi, n)[i] != Events(x, lo, hi, n)[j]
    ensures forall e: nat :: e in Events(x, lo, hi, n) <==> e < n && InSpan(x, lo, hi, e)
    decreases n
  {
    if n > 0 {
      EventsDistinct(x, lo, hi, n - 1);
      var before := Events(x, lo, hi, n - 1);
      assert forall i :: 0 <= i < |before| ==> before[i] in before;
    }
  }

  ghost function StampsOf(x: Inst, v: seq<nat>): (es: seq<Stamp>)
    ensures |es| == |v| && forall i :: 0 <= i < |v| ==> es[i] == StampOf(x, v[i])
  {
    seq(|v|, i requires 0 <= i < |v| => StampOf(x, v[i]))
  }

  lemma {:induction false} StampShown(x: Inst, p: Params, lo: int, hi: int, k: nat)
    requires k < StageCount(p)
    ensures IsShown(x, p, lo, hi, StampOf(x, k)) <==> InSpan(x, lo, hi, k) && !Hidden(x, k)
  {
    StampsAre(x, p);
    assert Stamps(x, p)[k] in Stamps(x, p);
    assert StampOf(x, k).name == "dispatch" <==> k == 3 by {
      var name := Name(k);
      assert name[0] == 'd' ==> k == 1 || k == 3;
      assert k == 1 ==> name[1] == 'e';
      assert "dispatch"[0] == 'd' && "dispatch"[1] == 'i';
    }
  }

  lemma {:induction false} VisibleShown(x: Inst, p: Params, lo: int, hi: int, v: seq<nat>)
    requires ValidParams(p) && Sequenced(x, ScaleOf(p), v)
    requires forall k: nat :: k in v <==> k < StageCount(p) && InSpan(x, lo, hi, k) && !Hidden(x, k)
    ensures ShownIn(x, p, lo, hi, StampsOf(x, v))
  {
    var es := StampsOf(x, v);
    StampsAre(x, p);
    forall i, j | 0 <= i < j < |es| ensures Before(p, es[i], es[j]) {
      assert v[i] in v && v[j] in v;
      PrecedesIsBefore(x, p, v[i], v[j]);
    }
    forall e | e in es ensures IsShown(x, p, lo, hi, e) {
      var i :| 0 <= i < |es| && es[i] == e;
      assert v[i] in v;
      StampShown(x, p, lo, hi, v[i]);
    }
    forall e | IsShown(x, p, lo, hi, e) ensures e in es {
      var k :| 0 <= k < |Stamps(x, p)| && Stamps(x, p)[k] == e;
      StampShown(x, p, lo, hi, k);
      assert k in v;
      var i :| 0 <= i < |v| && v[i] == k;
      assert es[i] == e;
    }
  }

  // Drawing marks, by place

  /** The marks of these stages. */
  ghost predicate MarksOf(p: Params, es: seq<Stamp>, ms: seq<Mark>)
    requires ValidParams(p)
  {
    && |ms| == |es| && Ascending(ms) && (forall m :: m in ms ==> m.cell < p.width)
    && forall i :: 0 <= i < |ms| ==> ms[i].cell == CellOf(p, es[i]) && ms[i].letter == es[i].letter
  }

  lemma {:induction false} PlaceIs(p: Params, es: seq<Stamp>, ms: seq<Mark>, m: nat, dot: char)
    requires ValidParams(p) && MarksOf(p, es, ms) && m < |ms|
    ensures Place(p, es, m) == |DrawTo(ms, m + 1, dot)| - 1 >= 0
    decreases m
  {
    if m > 0 {
      PlaceIs(p, es, ms, m - 1, dot);
    }
  }

  lemma {:induction false} OnlyPlaces(p: Params, es: seq<Stamp>, ms: seq<Mark>, n: nat, dot: char, q: nat)
    requires ValidParams(p) && MarksOf(p, es, ms) && n <= |ms| && q < |DrawTo(ms, n, dot)|
    requires DrawTo(ms, n, dot)[q] != dot
    ensures exists m :: 0 <= m < |es| && Place(p, es, m) == q
    decreases n
  {
    if q < |DrawTo(ms, n - 1, dot)| {
      OnlyPlaces(p, es, ms, n - 1, dot, q);
    } else {
      PlaceIs(p, es, ms, n - 1, dot);
    }
  }

  lemma {:induction false} PlaceShows(p: Params, es: seq<Stamp>, ms: seq<Mark>, m: nat, dot: char)
    requires ValidParams(p) && MarksOf(p, es, ms) && m < |ms|
    ensures var row := Draw(ms, p.width, dot);
      0 <= Place(p, es, m) < |row| && row[Place(p, es, m)] == es[m].letter
  {
    var d := DrawTo(ms, m + 1, dot);
    PlaceIs(p, es, ms, m, dot);
    DrawToPrefix(ms, m + 1, |ms|, dot);
    assert d[|d| - 1] == ms[m].letter;
    assert d <= Draw(ms, p.width, dot);
  }

  lemma {:induction false} DrawnLength(p: Params, es: seq<Stamp>, ms: seq<Mark>, dot: char)
    requires ValidParams(p) && MarksOf(p, es, ms)
    ensures |Draw(ms, p.width, dot)| ==
            if es == [] then p.width else Place(p, es, |es| - 1) + p.width - CellOf(p, es[|es| - 1])
  {
    if es != [] {
      PlaceIs(p, es, ms, |es| - 1, dot);
      assert ms[|es| - 1] in ms;
    }
  }

  lemma {:induction false} OnlyDots(p: Params, es: seq<Stamp>, ms: seq<Mark>, dot: char, q: nat)
    requires ValidParams(p) && MarksOf(p, es, ms) && q < |Draw(ms, p.width, dot)| && Draw(ms, p.width, dot)[q] != dot
    ensures exists m :: 0 <= m < |es| && Place(p, es, m) == q
  {
    assert q < |DrawTo(ms, |ms|, dot)|;
    OnlyPlaces(p, es, ms, |ms|, dot, q);
  }

  lemma {:induction false} DrawShows(p: Params, es: seq<Stamp>, ms: seq<Mark>, dot: char, row: string)
    requires ValidParams(p) && MarksOf(p, es, ms) && row == Draw(ms, p.width, dot)
    ensures RowShows(row, p, es, dot)
  {
    DrawnLength(p, es, ms, dot);
    forall m | 0 <= m < |es| ensures 0 <= Place(p, es, m) < |row| && row[Place(p, es, m)] == es[m].letter {
      PlaceShows(p, es, ms, m, dot);
    }
    forall q | 0 <= q < |row| && row[q] != dot ensures exists m :: 0 <= m < |es| && Place(p, es, m) == q {
      OnlyDots(p, es, ms, dot, q);
    }
  }

  lemma {:induction false} VisibleMarks(x: Inst, p: Params, lo: int, hi: int, v: seq<nat>, ms: seq<Mark>)
    requires ValidParams(p) && ms == SpanMarks(x, ScaleOf(p), lo, hi, StageCount(p)) && |ms| == |v|
    requires forall i :: 0 <= i < |v| ==> ms[i] == MarkOf(x, ScaleOf(p), v[i])
    ensures MarksOf(p, StampsOf(x, v), ms)
  {
    SpanMarksFit(x, ScaleOf(p), lo, hi, StageCount(p), p.width);
  }

  lemma {:induction false} RowIsFor(x: Inst, p: Params, i: nat)
    requires ValidParams(p)
    ensures RowFor(Row(x, p, i), x, p, RowStart(x, p, i), RowEnd(x, p, i))
  {
    var g, lo, hi, n := ScaleOf(p), RowStart(x, p, i), RowEnd(x, p, i), StageCount(p);
    var s := SortEvents(x, g, Events(x, lo, hi, n));
    EventsDistinct(x, lo, hi, n);
    SortSequenced(x, g, Events(x, lo, hi, n));
    VisibleIs(x, g, s);
    VisibleSequenced(x, g, s);
    var v := Visible(x, s);
    VisibleShown(x, p, lo, hi, v);
    VisibleMarks(x, p, lo, hi, v, RowMarks(x, p, i));
    assert Dot(x) == if x.retire == 0 then '=' else '.';
    DrawShows(p, StampsOf(x, v), RowMarks(x, p, i), Dot(x), Row(x, p, i));
  }

  lemma {:induction false} LatestIsTick(x: Inst, n: nat) returns (k: nat)
    requires n > 0
    ensures k < n && Tick(x, k) == Latest(x, n)
  {
    if n == 1 {
      return 0;
    }
    k := LatestIsTick(x, n - 1);
    if Tick(x, n - 1) > Latest(x, n - 1) {
      k := n - 1;
    }
  }

  lemma {:induction false} LatestIsLast(x: Inst, p: Params)
    ensures IsLast(x, p, Latest(x, StageCount(p)))
  {
    var n := StageCount(p);
    StampsAre(x, p);
    var k := LatestIsTick(x, n);
    assert Stamps(x, p)[k] in Stamps(x, p);
    forall e | e in Stamps(x, p) ensures e.tick <= Latest(x, n) {
      var j :| 0 <= j < |Stamps(x, p)| && Stamps(x, p)[j] == e;
      LatestBounds(x, n, j);
    }
  }

  lemma {:induction false} NumRowsReach(x: Inst, p: Params)
    requires ValidParams(p)
    ensures RowsReach(NumRows(x, p), x, p, RowTicks(p), BaseTick(x, p))
  {
    LatestIsLast(x, p);
  }

  lemma {:induction false} RowFits(x: Inst, p: Params, i: nat, t: int, base: int)
    requires ValidParams(p) && t == RowTicks(p) && base == BaseTick(x, p)
    ensures RowFor(Row(x, p, i), x, p, RowFrom(t, base, i), RowUpTo(NumRows(x, p), x, t, base, i))
  {
    RowIsFor(x, p, i);
    assert RowFrom(t, base, i) == RowStart(x, p, i);
  }

  lemma {:induction false} RowsFit(x: Inst, p: Params, rows: seq<string>, t: int, base: int)
    requires ValidParams(p) && |rows| == NumRows(x, p) && t == RowTicks(p) && base == BaseTick(x, p)
    requires forall i :: 0 <= i < |rows| ==> rows[i] == Row(x, p, i)
    ensures EachRow(rows, x, p, t, base)
  {
    forall i | 0 <= i < |rows|
      ensures RowFor(rows[i], x, p, RowFrom(t, base, i), RowUpTo(|rows|, x, t, base, i))
    {
      RowFits(x, p, i, t, base);
    }
  }

  lemma {:induction false} RowsLaidOut(x: Inst, p: Params, rows: seq<string>)
    requires ValidParams(p) && |rows| == NumRows(x, p)
    requires forall i :: 0 <= i < |rows| ==> rows[i] == Row(x, p, i)
    ensures LaidOut(rows, x, p)
  {
    NumRowsReach(x, p);
    RowsFit(x, p, rows, RowTicks(p), BaseTick(x, p));
  }

  /** The letter stands once over all rows, in the cell of the tick, displaced by the marks up to it that
      share a cell with an earlier one. */
  ghost predicate DrawnOnce(x: Inst, p: Params, letter: char, tick: int)
    requires ValidParams(p)
  {
    exists i: nat :: i < NumRows(x, p) && OnceIn(x, p, letter, i) && StandsAt(x, p, letter, tick, i)
  }

  ghost predicate OnceIn(x: Inst, p: Params, letter: char, i: nat)
    requires ValidParams(p)
  {
    forall j: nat :: j < NumRows(x, p) ==> multiset(Row(x, p, j))[letter] == if j == i then 1 else 0
  }

  ghost predicate StandsAt(x: Inst, p: Params, letter: char, tick: int, i: nat)
    requires ValidParams(p)
  {
    PositiveProduct(p.width, p.cycle);
    exists m: nat :: m < |RowMarks(x, p, i)| &&
      var place := (tick % (p.width * p.cycle)) / p.cycle + Shared(RowMarks(x, p, i), m + 1);
      0 <= place < |Row(x, p, i)| && Row(x, p, i)[place] == letter && RowMarks(x, p, i)[m].letter == letter
  }

  ghost predicate NotDrawn(x: Inst, p: Params, letter: char)
    requires ValidParams(p)
  {
    forall i: nat :: i < NumRows(x, p) ==> letter !in Row(x, p, i)
  }

  /** A stage is drawn once if it is at or after the fetch, and not at all if it was not reached. */
  ghost predicate Follows(x: Inst, p: Params, letter: char, tick: int)
    requires ValidParams(p)
  {
    (tick != 0 && tick >= x.fetch ==> DrawnOnce(x, p, letter, tick)) && (tick == 0 ==> NotDrawn(x, p, letter))
  }

  lemma {:induction false} StageFollows(x: Inst, p: Params, k: nat)
    requires ValidParams(p) && k < StageCount(p)
    ensures !Hidden(x, k) ==> Follows(x, p, Letter(k), Tick(x, k))
    ensures Hidden(x, k) ==> NotDrawn(x, p, Letter(k))
  {
    if Tick(x, k) != 0 && Tick(x, k) >= x.fetch && !Hidden(x, k) {
      DrawnExactlyOnce(x, p, k);
      var i := RowOf(x, p, k);
      DivBounds(x.fetch, RowTicks(p));
      CoveredByRow(x, p, k);
      var m := DrawnInItsCell(x, p, i, k);
      assert OnceIn(x, p, Letter(k), i) && StandsAt(x, p, Letter(k), Tick(x, k), i);
    }
    if Tick(x, k) == 0 || Hidden(x, k) {
      forall i: nat | i < NumRows(x, p) ensures Letter(k) !in Row(x, p, i) {
        NeverDrawn(x, p, k, i);
        assert Letter(k) !in multiset(Row(x, p, i));
      }
    }
  }

  /** Every field with its letter. */
  lemma {:induction false} FieldsDrawn(x: Inst, p: Params)
    requires ValidParams(p)
    ensures Follows(x, p, 'f', x.fetch) && Follows(x, p, 'd', x.decode) && Follows(x, p, 'n', x.rename)
    ensures Follows(x, p, 'i', x.issue) && Follows(x, p, 'c', x.complete) && Follows(x, p, 'r', x.retire)
    ensures if x.dispatch == x.issue then NotDrawn(x, p, 'p') else Follows(x, p, 'p', x.dispatch)
    ensures p.storeCompletions ==> Follows(x, p, 's', x.store)
  {
    StageFollows(x, p, 0);
    StageFollows(x, p, 1);
    StageFollows(x, p, 2);
    StageFollows(x, p, 3);
    StageFollows(x, p, 4);
    StageFollows(x, p, 5);
    StageFollows(x, p, 6);
    if p.storeCompletions { StageFollows(x, p, 7); }
  }

  /** All rows of an instruction, or nothing if the compact form finds no event. */
  method PrintInst(x: Inst, p: Params) returns (rows: Option<seq<string>>)
    requires ValidParams(p)
    ensures rows.None? <==> Blank(x, p)
    ensures rows.Some? ==>
      |rows.value| == NumRows(x, p) && forall i :: 0 <= i < |rows.value| ==> rows.value[i] == Row(x, p, i)
    ensures rows.Some? ==> LaidOut(rows.value, x, p)
  {
    var n, g := NumRows(x, p), ScaleOf(p);
    CompactIsOneRow(x, p);
    var out := [];
    for i := 0 to n
      invariant |out| == i && forall j :: 0 <= j < i ==> out[j] == Row(x, p, j)
      invariant i > 0 ==> !Blank(x, p)
    {
      var events := CollectEvents(x, RowStart(x, p, i), RowEnd(x, p, i), StageCount(p));
      if n == 1 && events == [] {
        return None;
      }
      var row := DrawEvents(x, g, SortEvents(x, g, events), p.width, Dot(x));
      out := out + [row];
    }
    RowsLaidOut(x, p, out);
    rows := Some(out);
  }
}
