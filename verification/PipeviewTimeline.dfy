/**
  Laying out one instruction as rows of a timeline.

  A row covers `width * cycle` ticks, one cell per cycle. An instruction whose events span less than
  a row is drawn in compact form: one row, wrapping around at its right edge.
 */
module PipeviewTimeline {
  import opened PipeviewSort

  // ---------------------------------------------------------------------------------------------
  // Drawing marks into a row
  // ---------------------------------------------------------------------------------------------

  datatype Mark = Mark(cell: nat, letter: char)

  ghost predicate Ascending(ms: seq<Mark>)
  {
    forall i, j :: 0 <= i < j < |ms| ==> ms[i].cell <= ms[j].cell
  }

  /** The string `dot * n`, empty when `n` is not positive. */
  function Dots(n: int, dot: char): (r: string)
    ensures |r| == if n <= 0 then 0 else n
    ensures forall i :: 0 <= i < |r| ==> r[i] == dot
  {
    seq(if n <= 0 then 0 else n, _ => dot)
  }

  /** Where the cursor stands after the first `n` marks. */
  function Cursor(ms: seq<Mark>, n: nat): nat
    requires n <= |ms|
  {
    if n == 0 then 0 else ms[n - 1].cell + 1
  }

  function DrawTo(ms: seq<Mark>, n: nat, dot: char): string
    requires n <= |ms|
  {
    if n == 0 then ""
    else DrawTo(ms, n - 1, dot) + Dots(ms[n - 1].cell - Cursor(ms, n - 1), dot) + [ms[n - 1].letter]
  }

  function Draw(ms: seq<Mark>, width: nat, dot: char): string
  {
    DrawTo(ms, |ms|, dot) + Dots(width - Cursor(ms, |ms|), dot)
  }

  /** How many of the first `n` marks share their cell with an earlier mark. */
  ghost function Shared(ms: seq<Mark>, n: nat): nat
    requires n <= |ms|
  {
    if n == 0 then 0
    else Shared(ms, n - 1) + if exists j :: 0 <= j < n - 1 && ms[j].cell == ms[n - 1].cell then 1 else 0
  }

  lemma SharesWithPrevious(ms: seq<Mark>, n: nat)
    requires Ascending(ms) && 1 < n <= |ms|
    ensures (exists j :: 0 <= j < n - 1 && ms[j].cell == ms[n - 1].cell) <==> ms[n - 2].cell == ms[n - 1].cell
  {
  }

  lemma {:induction false} DrawToLength(ms: seq<Mark>, n: nat, dot: char)
    requires Ascending(ms) && n <= |ms|
    ensures |DrawTo(ms, n, dot)| == Cursor(ms, n) + Shared(ms, n)
    decreases n
  {
    if n > 0 {
      DrawToLength(ms, n - 1, dot);
      if n > 1 {
        SharesWithPrevious(ms, n);
      }
    }
  }

  /** A row is as long as the timeline is wide, plus one character for every mark that shares its
      cell with an earlier one. */
  lemma RowLength(ms: seq<Mark>, width: nat, dot: char)
    requires Ascending(ms) && forall m :: m in ms ==> m.cell < width
    ensures |Draw(ms, width, dot)| == width + Shared(ms, |ms|)
  {
    DrawToLength(ms, |ms|, dot);
    assert ms != [] ==> ms[|ms| - 1] in ms;
  }

  lemma {:induction false} DrawToPrefix(ms: seq<Mark>, m: nat, n: nat, dot: char)
    requires m <= n <= |ms|
    ensures DrawTo(ms, m, dot) <= DrawTo(ms, n, dot)
    decreases n
  {
    if m < n {
      DrawToPrefix(ms, m, n - 1, dot);
    }
  }

  /** Every mark is drawn in its cell, displaced only by the marks that share a cell. */
  lemma MarkPosition(ms: seq<Mark>, i: nat, width: nat, dot: char)
    requires Ascending(ms) && i < |ms| && forall m :: m in ms ==> m.cell < width
    ensures ms[i].cell + Shared(ms, i + 1) < |Draw(ms, width, dot)|
    ensures Draw(ms, width, dot)[ms[i].cell + Shared(ms, i + 1)] == ms[i].letter
  {
    var d := DrawTo(ms, i + 1, dot);
    DrawToLength(ms, i + 1, dot);
    DrawToPrefix(ms, i + 1, |ms|, dot);
    assert d[|d| - 1] == ms[i].letter;
    assert d <= Draw(ms, width, dot);
  }

  function Letters(ms: seq<Mark>): seq<char> { seq(|ms|, i requires 0 <= i < |ms| => ms[i].letter) }

  lemma CountSnoc(s: seq<char>, last: char, c: char)
    ensures multiset(s + [last])[c] == multiset(s)[c] + if last == c then 1 else 0
  {
  }

  lemma CountPlus(s: seq<char>, t: seq<char>, c: char)
    ensures multiset(s + t)[c] == multiset(s)[c] + multiset(t)[c]
  {
  }

  lemma NoMarks(n: int, dot: char, c: char)
    requires c != dot
    ensures multiset(Dots(n, dot))[c] == 0
  {
    assert c !in Dots(n, dot);
  }

  lemma LettersSnoc(ms: seq<Mark>, n: nat)
    requires 0 < n <= |ms|
    ensures Letters(ms[..n]) == Letters(ms[..n - 1]) + [ms[n - 1].letter]
  {
    assert ms[..n] == ms[..n - 1] + [ms[n - 1]];
  }

  lemma {:induction false} CountMark(s: seq<char>, gap: int, dot: char, letter: char, c: char)
    requires c != dot
    ensures multiset(s + Dots(gap, dot) + [letter])[c] == multiset(s)[c] + if letter == c then 1 else 0
  {
    NoMarks(gap, dot, c);
    CountPlus(s, Dots(gap, dot), c);
    CountSnoc(s + Dots(gap, dot), letter, c);
  }

  lemma {:induction false} CountDrawn(ms: seq<Mark>, n: nat, dot: char, c: char)
    requires 0 < n <= |ms| && c != dot
    ensures multiset(DrawTo(ms, n, dot))[c] ==
            multiset(DrawTo(ms, n - 1, dot))[c] + if ms[n - 1].letter == c then 1 else 0
  {
    CountMark(DrawTo(ms, n - 1, dot), ms[n - 1].cell - Cursor(ms, n - 1), dot, ms[n - 1].letter, c);
  }

  lemma {:induction false} CountLetters(ms: seq<Mark>, n: nat, c: char)
    requires 0 < n <= |ms|
    ensures multiset(Letters(ms[..n]))[c] ==
            multiset(Letters(ms[..n - 1]))[c] + if ms[n - 1].letter == c then 1 else 0
  {
    LettersSnoc(ms, n);
    CountSnoc(Letters(ms[..n - 1]), ms[n - 1].letter, c);
  }

  /** How many of the first `n` marks have the letter `c`. */
  ghost function MarksWith(ms: seq<Mark>, n: nat, c: char): nat
    requires n <= |ms|
  {
    if n == 0 then 0 else MarksWith(ms, n - 1, c) + if ms[n - 1].letter == c then 1 else 0
  }

  /** How often `c` is drawn up to mark `n`. */
  ghost function DrawnTimes(ms: seq<Mark>, dot: char, c: char): nat -> int
  {
    (n: nat) => if n <= |ms| then multiset(DrawTo(ms, n, dot))[c] else 0
  }

  lemma {:induction false} SumOfMarks(ms: seq<Mark>, n: nat, c: char, f: nat -> int)
    requires n <= |ms| && f(0) == 0
    requires forall m: nat :: m < |ms| ==> f(m + 1) == f(m) + if ms[m].letter == c then 1 else 0
    ensures f(n) == MarksWith(ms, n, c)
    decreases n
  {
    if n > 0 {
      SumOfMarks(ms, n - 1, c, f);
      assert f(n - 1 + 1) == f(n);
    }
  }

  /** Apart from the marks there is nothing but dots. */
  lemma {:induction false} OnlyMarksAndDots(ms: seq<Mark>, n: nat, dot: char, c: char)
    requires n <= |ms| && c != dot
    ensures multiset(DrawTo(ms, n, dot))[c] == MarksWith(ms, n, c)
  {
    var f := DrawnTimes(ms, dot, c);
    forall m: nat | m < |ms| ensures f(m + 1) == f(m) + if ms[m].letter == c then 1 else 0 {
      CountDrawn(ms, m + 1, dot, c);
    }
    SumOfMarks(ms, n, c, f);
  }

  lemma {:induction false} LettersOfMarks(ms: seq<Mark>, n: nat, c: char)
    requires n <= |ms|
    ensures multiset(Letters(ms[..n]))[c] == MarksWith(ms, n, c)
    decreases n
  {
    if n == 0 {
      assert Letters(ms[..0]) == [];
    } else {
      LettersOfMarks(ms, n - 1, c);
      CountLetters(ms, n, c);
    }
  }

  lemma RowCount(ms: seq<Mark>, width: nat, dot: char, c: char)
    requires c != dot
    ensures multiset(Draw(ms, width, dot))[c] == multiset(Letters(ms))[c]
  {
    OnlyMarksAndDots(ms, |ms|, dot, c);
    LettersOfMarks(ms, |ms|, c);
    assert ms[..|ms|] == ms;
    NoMarks(width - Cursor(ms, |ms|), dot, c);
    CountPlus(DrawTo(ms, |ms|, dot), Dots(width - Cursor(ms, |ms|), dot), c);
  }

  // ---------------------------------------------------------------------------------------------
  // Rows
  // ---------------------------------------------------------------------------------------------

  datatype Params = Params(width: nat, cycle: nat, storeCompletions: bool)

  predicate ValidParams(p: Params) { p.width > 0 && p.cycle > 0 }

  /** Ticks covered by one row. */
  function RowTicks(p: Params): (t: nat)
    ensures ValidParams(p) ==> t > 0
  {
    PositiveProduct(p.width, p.cycle);
    p.width * p.cycle
  }

  lemma PositiveProduct(a: nat, b: nat)
    ensures a > 0 && b > 0 ==> a * b > 0
  {
  }

  function StageCount(p: Params): nat { if p.storeCompletions then 8 else 7 }

  function Tick(x: Inst, k: nat): int
  {
    match k
    case 0 => x.fetch case 1 => x.decode case 2 => x.rename case 3 => x.dispatch
    case 4 => x.issue case 5 => x.complete case 6 => x.retire case _ => x.store
  }

  function Letter(k: nat): char
  {
    match k
    case 0 => 'f' case 1 => 'd' case 2 => 'n' case 3 => 'p' case 4 => 'i' case 5 => 'c' case 6 => 'r' case _ => 's'
  }

  /** Alphabetical position of the stage name: the tie-break among events at the same offset. */
  function NameRank(k: nat): nat
  {
    match k
    case 0 => 3 case 1 => 1 case 2 => 5 case 3 => 2 case 4 => 4 case 5 => 0 case 6 => 6 case _ => 7
  }

  function BaseTick(x: Inst, p: Params): int
    requires ValidParams(p)
  {
    (x.fetch / RowTicks(p)) * RowTicks(p)
  }

  function Max(a: int, b: int): int { if a >= b then a else b }

  /** The latest tick among the first `n` stages. */
  function Latest(x: Inst, n: nat): int
  {
    if n == 0 then x.fetch else Max(Latest(x, n - 1), Tick(x, n - 1))
  }

  lemma {:induction false} LatestBounds(x: Inst, n: nat, k: nat)
    requires k < n
    ensures Tick(x, k) <= Latest(x, n) && x.fetch <= Latest(x, n)
  {
    if k < n - 1 {
      LatestBounds(x, n - 1, k);
    } else if n > 1 {
      LatestBounds(x, n - 1, 0);
    }
  }

  predicate IsCompact(x: Inst, p: Params)
    requires ValidParams(p)
  {
    Latest(x, StageCount(p)) - x.fetch < RowTicks(p)
  }

  function NumRows(x: Inst, p: Params): int
    requires ValidParams(p)
  {
    if IsCompact(x, p) then 1 else (Latest(x, StageCount(p)) - BaseTick(x, p)) / RowTicks(p) + 1
  }

  function RowStart(x: Inst, p: Params, i: nat): int
    requires ValidParams(p)
  {
    BaseTick(x, p) + i * RowTicks(p)
  }

  function RowEnd(x: Inst, p: Params, i: nat): int
    requires ValidParams(p)
  {
    RowStart(x, p, i) + RowTicks(p) + if NumRows(x, p) == 1 then x.fetch - BaseTick(x, p) else 0
  }

  /** Stage `k` was reached, at a tick between `lo` and `hi`. */
  predicate InSpan(x: Inst, lo: int, hi: int, k: nat) { Tick(x, k) != 0 && lo <= Tick(x, k) < hi }

  /** Stage `k` is an event of row `i`. */
  predicate InRow(x: Inst, p: Params, i: nat, k: nat)
    requires ValidParams(p)
  {
    InSpan(x, RowStart(x, p, i), RowEnd(x, p, i), k)
  }

  // Division facts, for a positive divisor

  lemma MulMonotone(a: int, b: int, t: nat)
    ensures a <= b ==> a * t <= b * t
  {
  }

  lemma DivBounds(a: int, t: nat)
    requires t > 0
    ensures (a / t) * t <= a < (a / t) * t + t
  {
  }

  lemma DivMonotone(a: int, b: int, t: nat)
    requires a <= b && t > 0
    ensures a / t <= b / t
  {
    DivBounds(a, t);
    DivBounds(b, t);
    MulMonotone(b / t + 1, a / t, t);
  }

  lemma QuotientIs(a: int, q: int, t: nat)
    requires t > 0 && q * t <= a < q * t + t
    ensures a / t == q
  {
    DivBounds(a, t);
    MulMonotone(a / t + 1, q, t);
    MulMonotone(q + 1, a / t, t);
  }

  lemma DivUpper(a: int, w: nat, c: nat)
    requires 0 <= a < w * c && c > 0
    ensures 0 <= a / c < w
  {
    DivBounds(a, c);
    MulMonotone(w, a / c, c);
    DivMonotone(0, a, c);
  }

  lemma CompactIsOneRow(x: Inst, p: Params)
    requires ValidParams(p)
    ensures NumRows(x, p) >= 1 && (NumRows(x, p) == 1 <==> IsCompact(x, p))
  {
    var t, last := RowTicks(p), Latest(x, StageCount(p));
    if !IsCompact(x, p) {
      DivBounds(x.fetch, t);
      DivMonotone(t, last - BaseTick(x, p), t);
      QuotientIs(t, 1, t);
    }
  }

  lemma RowsDisjoint(x: Inst, p: Params, i: nat, j: nat, k: nat)
    requires ValidParams(p) && i < NumRows(x, p) && j < NumRows(x, p) && InRow(x, p, i, k) && InRow(x, p, j, k)
    ensures i == j
  {
    if NumRows(x, p) > 1 {
      QuotientIs(Tick(x, k) - BaseTick(x, p), i, RowTicks(p));
      QuotientIs(Tick(x, k) - BaseTick(x, p), j, RowTicks(p));
    }
  }

  /** The row an event belongs to. */
  function RowOf(x: Inst, p: Params, k: nat): int
    requires ValidParams(p)
  {
    if NumRows(x, p) == 1 then 0 else (Tick(x, k) - BaseTick(x, p)) / RowTicks(p)
  }

  lemma CoveredByRow(x: Inst, p: Params, k: nat)
    requires ValidParams(p) && k < StageCount(p) && Tick(x, k) != 0 && Tick(x, k) >= BaseTick(x, p)
    ensures 0 <= RowOf(x, p, k) < NumRows(x, p) && InRow(x, p, RowOf(x, p, k), k)
  {
    var t, base, tick := RowTicks(p), BaseTick(x, p), Tick(x, k);
    LatestBounds(x, StageCount(p), k);
    CompactIsOneRow(x, p);
    if NumRows(x, p) > 1 {
      DivBounds(tick - base, t);
      DivMonotone(tick - base, Latest(x, StageCount(p)) - base, t);
      DivMonotone(0, tick - base, t);
    }
  }

  /** An event is drawn in exactly one row if it does not precede the row of the fetch, and in none
      otherwise. */
  lemma OneRowExactly(x: Inst, p: Params, k: nat)
    requires ValidParams(p) && k < StageCount(p) && Tick(x, k) != 0
    ensures (exists i: nat :: i < NumRows(x, p) && InRow(x, p, i, k)) <==> Tick(x, k) >= BaseTick(x, p)
    ensures forall i: nat, j: nat ::
      i < NumRows(x, p) && j < NumRows(x, p) && InRow(x, p, i, k) && InRow(x, p, j, k) ==> i == j
  {
    if Tick(x, k) >= BaseTick(x, p) {
      CoveredByRow(x, p, k);
    } else {
      forall i: nat ensures !InRow(x, p, i, k) { MulMonotone(0, i, RowTicks(p)); }
    }
    forall i: nat, j: nat | i < NumRows(x, p) && j < NumRows(x, p) && InRow(x, p, i, k) && InRow(x, p, j, k)
      ensures i == j
    {
      RowsDisjoint(x, p, i, j, k);
    }
  }

  // ---------------------------------------------------------------------------------------------
  // The marks of a span of ticks: events collected stage by stage, sorted, and drawn
  // ---------------------------------------------------------------------------------------------

  /** The stages among the first `n` with an event between `lo` and `hi`. */
  function Events(x: Inst, lo: int, hi: int, n: nat): seq<nat>
  {
    if n == 0 then []
    else if InSpan(x, lo, hi, n - 1) then Events(x, lo, hi, n - 1) + [n - 1]
    else Events(x, lo, hi, n - 1)
  }

  /** Ticks per row and per cell. */
  datatype Scale = Scale(row: nat, cell: nat)

  predicate ValidScale(g: Scale) { g.row > 0 && g.cell > 0 }

  function Offset(x: Inst, g: Scale, k: nat): nat
    requires ValidScale(g)
  {
    Tick(x, k) % g.row
  }

  /** Order of events: by offset in the row, then by stage name. */
  predicate Precedes(x: Inst, g: Scale, a: nat, b: nat)
    requires ValidScale(g)
  {
    Offset(x, g, a) < Offset(x, g, b) || (Offset(x, g, a) == Offset(x, g, b) && NameRank(a) <= NameRank(b))
  }

  function InsertEvent(x: Inst, g: Scale, k: nat, es: seq<nat>): seq<nat>
    requires ValidScale(g)
  {
    if es == [] || Precedes(x, g, k, es[0]) then [k] + es
    else [es[0]] + InsertEvent(x, g, k, es[1..])
  }

  function SortEvents(x: Inst, g: Scale, es: seq<nat>): seq<nat>
    requires ValidScale(g)
  {
    if es == [] then [] else InsertEvent(x, g, es[0], SortEvents(x, g, es[1..]))
  }

  /** A dispatch in the same tick as the issue is not drawn. */
  predicate Hidden(x: Inst, k: nat) { k == 3 && x.dispatch == x.issue }

  function Cell(x: Inst, g: Scale, k: nat): nat
    requires ValidScale(g)
  {
    DivMonotone(0, Offset(x, g, k), g.cell);
    Offset(x, g, k) / g.cell
  }

  function MarkOf(x: Inst, g: Scale, k: nat): Mark
    requires ValidScale(g)
  {
    Mark(Cell(x, g, k), Letter(k))
  }

  function Marks(x: Inst, g: Scale, es: seq<nat>): seq<Mark>
    requires ValidScale(g)
  {
    if es == [] then []
    else if Hidden(x, es[0]) then Marks(x, g, es[1..])
    else [MarkOf(x, g, es[0])] + Marks(x, g, es[1..])
  }

  function SpanMarks(x: Inst, g: Scale, lo: int, hi: int, n: nat): seq<Mark>
    requires ValidScale(g)
  {
    Marks(x, g, SortEvents(x, g, Events(x, lo, hi, n)))
  }

  ghost predicate InOrder(x: Inst, g: Scale, es: seq<nat>)
    requires ValidScale(g)
  {
    forall i, j :: 0 <= i < j < |es| ==> Offset(x, g, es[i]) <= Offset(x, g, es[j])
  }

  lemma {:induction false} InsertEventPermutes(x: Inst, g: Scale, k: nat, es: seq<nat>)
    requires ValidScale(g)
    ensures multiset(InsertEvent(x, g, k, es)) == multiset{k} + multiset(es)
    decreases |es|
  {
    if es != [] && !Precedes(x, g, k, es[0]) {
      InsertEventPermutes(x, g, k, es[1..]);
      assert es == [es[0]] + es[1..];
    }
  }

  lemma {:induction false} InsertEventSorts(x: Inst, g: Scale, k: nat, es: seq<nat>)
    requires ValidScale(g) && InOrder(x, g, es)
    ensures InOrder(x, g, InsertEvent(x, g, k, es))
    ensures forall e :: e in InsertEvent(x, g, k, es) ==> e == k || e in es
    decreases |es|
  {
    if es != [] && !Precedes(x, g, k, es[0]) {
      var r := InsertEvent(x, g, k, es[1..]);
      InsertEventSorts(x, g, k, es[1..]);
      forall i | 0 <= i < |r| ensures Offset(x, g, es[0]) <= Offset(x, g, r[i]) { assert r[i] in r; }
      InOrderCons(x, g, es[0], r);
    }
  }

  lemma {:induction false} InOrderCons(x: Inst, g: Scale, e: nat, es: seq<nat>)
    requires ValidScale(g) && InOrder(x, g, es)
    requires forall i :: 0 <= i < |es| ==> Offset(x, g, e) <= Offset(x, g, es[i])
    ensures InOrder(x, g, [e] + es)
  {
  }

  lemma {:induction false} SortEventsSorts(x: Inst, g: Scale, es: seq<nat>)
    requires ValidScale(g)
    ensures InOrder(x, g, SortEvents(x, g, es))
    ensures multiset(SortEvents(x, g, es)) == multiset(es)
    decreases |es|
  {
    if es != [] {
      SortEventsSorts(x, g, es[1..]);
      InsertEventSorts(x, g, es[0], SortEvents(x, g, es[1..]));
      InsertEventPermutes(x, g, es[0], SortEvents(x, g, es[1..]));
      assert es == [es[0]] + es[1..];
    }
  }

  lemma {:induction false} MarksAscend(x: Inst, g: Scale, es: seq<nat>)
    requires ValidScale(g) && InOrder(x, g, es)
    ensures Ascending(Marks(x, g, es))
    ensures forall m :: m in Marks(x, g, es) ==> es != [] && Cell(x, g, es[0]) <= m.cell
    decreases |es|
  {
    if es != [] {
      MarksAscend(x, g, es[1..]);
      if |es| > 1 {
        assert es[1..][0] == es[1];
        DivMonotone(Offset(x, g, es[0]), Offset(x, g, es[1]), g.cell);
      }
    }
  }

  lemma {:induction false} MarksFrom(x: Inst, g: Scale, es: seq<nat>, m: Mark)
    requires ValidScale(g)
    ensures m in Marks(x, g, es) <==> exists k :: k in es && !Hidden(x, k) && m == MarkOf(x, g, k)
    decreases |es|
  {
    if es != [] {
      MarksFrom(x, g, es[1..], m);
      assert es == [es[0]] + es[1..];
    }
  }

  lemma LettersCons(m: Mark, ms: seq<Mark>)
    ensures Letters([m] + ms) == [m.letter] + Letters(ms)
  {
  }

  lemma CountCons<A>(h: A, t: seq<A>, a: A)
    ensures multiset([h] + t)[a] == multiset(t)[a] + if h == a then 1 else 0
  {
  }

  lemma LettersDistinct(j: nat, k: nat)
    requires j < 8 && k < 8
    ensures Letter(j) == Letter(k) <==> j == k
  {
  }

  lemma {:induction false} OneMoreLetter(x: Inst, g: Scale, e: nat, tail: seq<Mark>, k: nat)
    requires ValidScale(g) && e < 8 && k < 8
    ensures multiset(Letters([MarkOf(x, g, e)] + tail))[Letter(k)] ==
            multiset(Letters(tail))[Letter(k)] + if e == k then 1 else 0
  {
    LettersCons(MarkOf(x, g, e), tail);
    CountCons(Letter(e), Letters(tail), Letter(k));
    LettersDistinct(e, k);
  }

  lemma {:induction false} LetterCount(x: Inst, g: Scale, es: seq<nat>, k: nat)
    requires ValidScale(g) && k < 8 && forall i :: 0 <= i < |es| ==> es[i] < 8
    ensures multiset(Letters(Marks(x, g, es)))[Letter(k)] == if Hidden(x, k) then 0 else multiset(es)[k]
    decreases |es|
  {
    if es != [] {
      LetterCount(x, g, es[1..], k);
      assert es == [es[0]] + es[1..];
      CountCons(es[0], es[1..], k);
      OneMoreLetter(x, g, es[0], Marks(x, g, es[1..]), k);
    }
  }

  lemma {:induction false} EventsAre(x: Inst, lo: int, hi: int, n: nat)
    ensures forall e: nat :: e in Events(x, lo, hi, n) <==> e < n && InSpan(x, lo, hi, e)
    ensures forall k: nat :: multiset(Events(x, lo, hi, n))[k] <= 1
    decreases n
  {
    if n > 0 {
      EventsAre(x, lo, hi, n - 1);
      assert n - 1 !in Events(x, lo, hi, n - 1);
    }
  }

  /** What a span shows: the letter of a stage occurs once if the stage has an event there and is not
      hidden, and not at all otherwise. */
  lemma SpanShows(x: Inst, g: Scale, lo: int, hi: int, n: nat, k: nat, width: nat, dot: char)
    requires ValidScale(g) && k < n <= 8 && dot != Letter(k)
    ensures multiset(Draw(SpanMarks(x, g, lo, hi, n), width, dot))[Letter(k)] ==
      if InSpan(x, lo, hi, k) && !Hidden(x, k) then 1 else 0
  {
    var es := Events(x, lo, hi, n);
    var s := SortEvents(x, g, es);
    EventsAre(x, lo, hi, n);
    SortEventsSorts(x, g, es);
    forall i | 0 <= i < |s| ensures s[i] < 8 { assert s[i] in multiset(s) && s[i] in es; }
    LetterCount(x, g, s, k);
    RowCount(SpanMarks(x, g, lo, hi, n), width, dot, Letter(k));
    assert InSpan(x, lo, hi, k) <==> k in multiset(es);
  }

  lemma SpanMarksFit(x: Inst, g: Scale, lo: int, hi: int, n: nat, width: nat)
    requires ValidScale(g) && g.row == width * g.cell
    ensures Ascending(SpanMarks(x, g, lo, hi, n))
    ensures forall m :: m in SpanMarks(x, g, lo, hi, n) ==> m.cell < width
  {
    var s := SortEvents(x, g, Events(x, lo, hi, n));
    SortEventsSorts(x, g, Events(x, lo, hi, n));
    MarksAscend(x, g, s);
    forall m | m in Marks(x, g, s) ensures m.cell < width {
      MarksFrom(x, g, s, m);
      var k :| k in s && !Hidden(x, k) && m == MarkOf(x, g, k);
      DivUpper(Offset(x, g, k), width, g.cell);
    }
  }

  /** Every event of a span that is not hidden has its mark. */
  lemma SpanHasMark(x: Inst, g: Scale, lo: int, hi: int, n: nat, k: nat)
    requires ValidScale(g) && k < n && InSpan(x, lo, hi, k) && !Hidden(x, k)
    ensures MarkOf(x, g, k) in SpanMarks(x, g, lo, hi, n)
  {
    var es := Events(x, lo, hi, n);
    EventsAre(x, lo, hi, n);
    SortEventsSorts(x, g, es);
    assert k in multiset(es);
    MarksFrom(x, g, SortEvents(x, g, es), MarkOf(x, g, k));
  }

  // ---------------------------------------------------------------------------------------------
  // The timeline
  // ---------------------------------------------------------------------------------------------

  /** Abandoned instructions are drawn with a different dot. */
  function Dot(x: Inst): char { if x.retire == 0 then '=' else '.' }

  function ScaleOf(p: Params): (g: Scale)
    requires ValidParams(p)
    ensures ValidScale(g)
  {
    Scale(RowTicks(p), p.cycle)
  }

  function RowMarks(x: Inst, p: Params, i: nat): seq<Mark>
    requires ValidParams(p)
  {
    SpanMarks(x, ScaleOf(p), RowStart(x, p, i), RowEnd(x, p, i), StageCount(p))
  }

  function Row(x: Inst, p: Params, i: nat): string
    requires ValidParams(p)
  {
    Draw(RowMarks(x, p, i), p.width, Dot(x))
  }

  /** Every stage reached at or after the fetch, except a hidden dispatch, is drawn exactly once over
      all rows: in the row that covers its tick, compact or not. */
  lemma DrawnExactlyOnce(x: Inst, p: Params, k: nat)
    requires ValidParams(p) && k < StageCount(p) && Tick(x, k) != 0 && Tick(x, k) >= x.fetch && !Hidden(x, k)
    ensures 0 <= RowOf(x, p, k) < NumRows(x, p)
    ensures forall i: nat :: i < NumRows(x, p) ==>
      multiset(Row(x, p, i))[Letter(k)] == if i == RowOf(x, p, k) then 1 else 0
  {
    DivBounds(x.fetch, RowTicks(p));
    CoveredByRow(x, p, k);
    forall i: nat | i < NumRows(x, p)
      ensures multiset(Row(x, p, i))[Letter(k)] == if i == RowOf(x, p, k) then 1 else 0
    {
      SpanShows(x, ScaleOf(p), RowStart(x, p, i), RowEnd(x, p, i), StageCount(p), k, p.width, Dot(x));
      if InRow(x, p, i, k) {
        RowsDisjoint(x, p, i, RowOf(x, p, k), k);
      }
    }
  }

  /** A stage that was not reached, and a hidden dispatch, are drawn in no row. */
  lemma NeverDrawn(x: Inst, p: Params, k: nat, i: nat)
    requires ValidParams(p) && k < StageCount(p) && (Tick(x, k) == 0 || Hidden(x, k))
    ensures multiset(Row(x, p, i))[Letter(k)] == 0
  {
    SpanShows(x, ScaleOf(p), RowStart(x, p, i), RowEnd(x, p, i), StageCount(p), k, p.width, Dot(x));
  }

  /** Where it is drawn: in cell `(tick mod row) / cycle`, displaced by the marks up to it that share
      a cell; and the row is longer than the timeline by the number of marks that share a cell. */
  lemma DrawnInItsCell(x: Inst, p: Params, i: nat, k: nat) returns (m: nat)
    requires ValidParams(p) && k < StageCount(p) && InRow(x, p, i, k) && !Hidden(x, k)
    ensures m < |RowMarks(x, p, i)| && RowMarks(x, p, i)[m].letter == Letter(k)
    ensures RowMarks(x, p, i)[m].cell == (Tick(x, k) % (p.width * p.cycle)) / p.cycle
    ensures var pos := RowMarks(x, p, i)[m].cell + Shared(RowMarks(x, p, i), m + 1);
      pos < |Row(x, p, i)| && Row(x, p, i)[pos] == Letter(k)
    ensures |Row(x, p, i)| == p.width + Shared(RowMarks(x, p, i), |RowMarks(x, p, i)|)
  {
    var g, lo, hi, n := ScaleOf(p), RowStart(x, p, i), RowEnd(x, p, i), StageCount(p);
    SpanMarksFit(x, g, lo, hi, n, p.width);
    SpanHasMark(x, g, lo, hi, n, k);
    var ms := SpanMarks(x, g, lo, hi, n);
    m :| 0 <= m < |ms| && ms[m] == MarkOf(x, g, k);
    MarkPosition(ms, m, p.width, Dot(x));
    RowLength(ms, p.width, Dot(x));
  }

  // ---------------------------------------------------------------------------------------------
  // The drawing loops
  // ---------------------------------------------------------------------------------------------

  /** The compact form looks at its first event, and fails when there is none. */
  predicate Blank(x: Inst, p: Params)
    requires ValidParams(p)
  {
    NumRows(x, p) == 1 && Events(x, RowStart(x, p, 0), RowEnd(x, p, 0), StageCount(p)) == []
  }

  /** Only an instruction with no stage at a non-zero tick at or after the row of its fetch fails;
      in particular none that was fetched at a non-zero tick. */
  lemma BlankExactly(x: Inst, p: Params)
    requires ValidParams(p)
    ensures Blank(x, p) <==> forall k: nat :: k < StageCount(p) ==> Tick(x, k) == 0 || Tick(x, k) < BaseTick(x, p)
    ensures Blank(x, p) ==> x.fetch == 0
  {
    var es := Events(x, RowStart(x, p, 0), RowEnd(x, p, 0), StageCount(p));
    EventsAre(x, RowStart(x, p, 0), RowEnd(x, p, 0), StageCount(p));
    CompactIsOneRow(x, p);
    DivBounds(x.fetch, RowTicks(p));
    forall k: nat | k < StageCount(p) && Tick(x, k) != 0 && Tick(x, k) >= BaseTick(x, p) && NumRows(x, p) == 1
      ensures k in es
    {
      CoveredByRow(x, p, k);
    }
    assert forall k :: k in es ==> Tick(x, k) != 0 && Tick(x, k) >= BaseTick(x, p);
    if NumRows(x, p) > 1 {
      ReachedLate(x, p, StageCount(p));
    }
    assert es != [] ==> es[0] in es;
    assert Tick(x, 0) == x.fetch;
  }

  /** An instruction with all ticks zero has nothing to print. */
  lemma {:induction false} BlankExample(p: Params)
    requires ValidParams(p)
    ensures Blank(Inst(1, "", "", "", 0, 0, 0, 0, 0, 0, 0, 0, {}), p)
  {
    var x := Inst(1, "", "", "", 0, 0, 0, 0, 0, 0, 0, 0, {});
    BlankExactly(x, p);
    assert forall k: nat :: k < StageCount(p) ==> Tick(x, k) == 0;
  }

  /** The latest event of an instruction that needs several rows is a stage of its own. */
  lemma {:induction false} ReachedLate(x: Inst, p: Params, n: nat)
    requires ValidParams(p) && n <= StageCount(p) && Latest(x, n) >= x.fetch + RowTicks(p)
    ensures exists k: nat :: k < n && Tick(x, k) != 0 && Tick(x, k) >= BaseTick(x, p)
    decreases n
  {
    DivBounds(x.fetch, RowTicks(p));
    if n > 0 && Latest(x, n - 1) >= x.fetch + RowTicks(p) {
      ReachedLate(x, p, n - 1);
    } else if n > 0 {
      assert Tick(x, n - 1) >= x.fetch + RowTicks(p);
      if Tick(x, n - 1) == 0 {
        assert Tick(x, 0) == x.fetch < 0 && Tick(x, 0) >= BaseTick(x, p);
      }
    }
  }

  lemma {:induction false} MarksAppend(x: Inst, g: Scale, es: seq<nat>, fs: seq<nat>)
    requires ValidScale(g)
    ensures Marks(x, g, es + fs) == Marks(x, g, es) + Marks(x, g, fs)
    decreases |es|
  {
    if es == [] {
      assert es + fs == fs;
    } else {
      assert (es + fs)[1..] == es[1..] + fs;
      MarksAppend(x, g, es[1..], fs);
    }
  }

  lemma {:induction false} DrawToExtend(ms: seq<Mark>, m: Mark, n: nat, dot: char)
    requires n <= |ms|
    ensures DrawTo(ms + [m], n, dot) == DrawTo(ms, n, dot) && Cursor(ms + [m], n) == Cursor(ms, n)
    decreases n
  {
    if n > 0 {
      DrawToExtend(ms, m, n - 1, dot);
    }
  }

  lemma OneMoreEvent(x: Inst, g: Scale, events: seq<nat>, j: nat, dot: char)
    requires ValidScale(g) && j < |events|
    ensures var ms, ns, m := Marks(x, g, events[..j]), Marks(x, g, events[..j + 1]), MarkOf(x, g, events[j]);
      if Hidden(x, events[j]) then ns == ms
      else
        && DrawTo(ns, |ns|, dot) == DrawTo(ms, |ms|, dot) + Dots(m.cell - Cursor(ms, |ms|), dot) + [m.letter]
        && Cursor(ns, |ns|) == m.cell + 1
  {
    var ms, m := Marks(x, g, events[..j]), MarkOf(x, g, events[j]);
    assert events[..j + 1] == events[..j] + [events[j]];
    MarksAppend(x, g, events[..j], [events[j]]);
    assert [events[j]][1..] == [];
    if !Hidden(x, events[j]) {
      assert Marks(x, g, events[..j + 1]) == ms + [m];
      DrawToExtend(ms, m, |ms|, dot);
    }
  }

  /** Collecting the events of a span, stage by stage. */
  method CollectEvents(x: Inst, lo: int, hi: int, n: nat) returns (events: seq<nat>)
    ensures events == Events(x, lo, hi, n)
  {
    events := [];
    for k := 0 to n
      invariant events == Events(x, lo, hi, k)
    {
      var tick := Tick(x, k);
      if tick != 0 && lo <= tick < hi {
        events := events + [k];
      }
    }
  }

  /** Drawing sorted events left to right, with dots up to each and to the end of the row. */
  method DrawEvents(x: Inst, g: Scale, events: seq<nat>, width: nat, dot: char) returns (row: string)
    requires ValidScale(g)
    ensures row == Draw(Marks(x, g, events), width, dot)
  {
    row := "";
    var pos := 0;
    for j := 0 to |events|
      invariant var ms := Marks(x, g, events[..j]); row == DrawTo(ms, |ms|, dot) && pos == Cursor(ms, |ms|)
    {
      var e := events[j];
      OneMoreEvent(x, g, events, j, dot);
      if Hidden(x, e) {
        continue;
      }
      row := row + Dots(Cell(x, g, e) - pos, dot) + [Letter(e)];
      pos := Cell(x, g, e) + 1;
    }
    assert events[..|events|] == events;
    row := row + Dots(width - pos, dot);
  }
}
