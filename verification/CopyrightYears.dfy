/** Copyright years: printing a set of years as ranges, and reading such a list back. */
module CopyrightYears {
  import opened Common
  import opened Text

  // ---------------------------------------------------------------------------------------------
  // Printing: maximal runs of consecutive years
  // ---------------------------------------------------------------------------------------------

  datatype Run = Run(first: int, last: int)

  ghost predicate Ascending(ys: seq<int>)
  {
    forall i, j :: 0 <= i < j < |ys| ==> ys[i] < ys[j]
  }

  ghost function Years(ys: seq<int>): set<int> { set y | y in ys }

  /** The runs that are complete, and the one that is open. */
  datatype Scan = Scan(done: seq<Run>, open: Run)

  /** One more year: the open run grows, or it is complete and a new one begins. */
  function Extend(s: Scan, y: int): Scan
  {
    if y == s.open.last + 1 then Scan(s.done, Run(s.open.first, y)) else Scan(s.done + [s.open], Run(y, y))
  }

  function Scanned(ys: seq<int>): Scan
    requires ys != []
  {
    var n := |ys| - 1;
    if n == 0 then Scan([], Run(ys[0], ys[0])) else Extend(Scanned(ys[..n]), ys[n])
  }

  /** The maximal runs of consecutive years. */
  function Runs(ys: seq<int>): seq<Run>
  {
    if ys == [] then [] else Scanned(ys).done + [Scanned(ys).open]
  }

  function RunStr(r: Run): string
  {
    if r.first == r.last then IntStr(r.first) else IntStr(r.first) + "-" + IntStr(r.last)
  }

  function RunStrs(rs: seq<Run>): seq<string>
  {
    if rs == [] then [] else RunStrs(rs[..|rs| - 1]) + [RunStr(rs[|rs| - 1])]
  }

  function DateStr(ys: seq<int>): string { JoinOn(RunStrs(Runs(ys)), ',') }

  // ---------------------------------------------------------------------------------------------
  // Reading
  // ---------------------------------------------------------------------------------------------

  /** Four digits, a hyphen and four digits at the front, white space around the hyphen. */
  function MatchRange(s: string): Option<Run>
  {
    if |s| < 4 || !AllDigits(s[..4]) then None
    else
      var t := StripLeft(s[4..]);
      if t == "" || t[0] != '-' then None
      else
        var u := StripLeft(t[1..]);
        if |u| < 4 || !AllDigits(u[..4]) then None
        else Some(Run(NatValue(s[..4]), NatValue(u[..4])))
  }

  ghost predicate AllSpace(s: string) { forall i :: 0 <= i < |s| ==> IsSpace(s[i]) }

  /** The hyphen of a range is at `j` and its second year at `k`, with white space only around the hyphen. */
  ghost predicate HyphenAndYear(s: string, j: nat, k: nat)
  {
    && 4 <= j < k && k + 4 <= |s| && s[j] == '-' && AllSpace(s[4..j]) && AllSpace(s[j + 1..k])
    && AllDigits(s[..4]) && AllDigits(s[k..k + 4])
  }

  /** The white space from `i` on is skipped. */
  lemma {:induction false} StripTo(s: string, i: nat, j: nat)
    requires i <= j <= |s| && AllSpace(s[i..j]) && (j < |s| ==> !IsSpace(s[j]))
    ensures StripLeft(s[i..]) == s[j..]
    decreases j - i
  {
    if i < j {
      assert s[i] == s[i..j][0] && s[i..][1..] == s[i + 1..] && s[i + 1..j] == s[i..j][1..];
      StripTo(s, i + 1, j);
    }
  }

  lemma {:induction false} SpaceEnds(s: string, i: nat) returns (j: nat)
    requires i <= |s|
    ensures i <= j <= |s| && AllSpace(s[i..j]) && (j < |s| ==> !IsSpace(s[j]))
    decreases |s| - i
  {
    j := i;
    if i < |s| && IsSpace(s[i]) {
      j := SpaceEnds(s, i + 1);
      assert s[i..j] == [s[i]] + s[i + 1..j];
    }
  }

  /** A range is four digits, a hyphen with any white space around it, and four digits; anything may follow. */
  lemma {:induction false} MatchRangeIs(s: string)
    ensures MatchRange(s).Some? <==> exists j: nat, k: nat :: HyphenAndYear(s, j, k)
    ensures forall j: nat, k: nat :: HyphenAndYear(s, j, k) ==>
              MatchRange(s) == Some(Run(NatValue(s[..4]), NatValue(s[k..k + 4])))
  {
    if MatchRange(s).Some? {
      var j := SpaceEnds(s, 4);
      StripTo(s, 4, j);
      var k := SpaceEnds(s, j + 1);
      StripTo(s, j + 1, k);
      assert s[j..][1..] == s[j + 1..] && s[k..][..4] == s[k..k + 4];
      assert HyphenAndYear(s, j, k);
    }
    forall j: nat, k: nat | HyphenAndYear(s, j, k)
      ensures MatchRange(s) == Some(Run(NatValue(s[..4]), NatValue(s[k..k + 4])))
    {
      StripTo(s, 4, j);
      assert s[k] == s[k..k + 4][0];
      StripTo(s, j + 1, k);
      assert s[j..][1..] == s[j + 1..] && s[k..][..4] == s[k..k + 4];
    }
  }

  predicate Within(r: Run, y: int) { r.first <= y <= r.last }

  function Span(r: Run): set<int> { set y | r.first <= y <= r.last && Within(r, y) }

  /** The years one item of the list stands for; an item that is neither is ignored. */
  function ItemYears(s: string): set<int>
  {
    match MatchRange(s)
    case Some(r) => Span(r)
    case None => match ParseInt(s) case Some(n) => {n} case None => {}
  }

  function ItemsYears(items: seq<string>): set<int>
  {
    if items == [] then {} else ItemsYears(items[..|items| - 1]) + ItemYears(Strip(items[|items| - 1]))
  }

  function ProcessDates(s: string): set<int> { ItemsYears(SplitOn(s, ',')) }

  // ---------------------------------------------------------------------------------------------
  // Runs are maximal, in order, and the fewest possible
  // ---------------------------------------------------------------------------------------------

  ghost function Union(rs: seq<Run>): set<int>
  {
    if rs == [] then {} else Union(rs[..|rs| - 1]) + Span(rs[|rs| - 1])
  }

  /** Non-empty runs in ascending order with gaps between them. */
  ghost predicate Separated(rs: seq<Run>)
  {
    rs == [] ||
    var head, r := rs[..|rs| - 1], rs[|rs| - 1];
    Separated(head) && r.first <= r.last && (head != [] ==> head[|head| - 1].last + 1 < r.first)
  }

  /** A non-empty list without its last run, and that run. */
  lemma Snoc(rs: seq<Run>) returns (head: seq<Run>, r: Run)
    requires rs != []
    ensures rs == head + [r] && head == rs[..|rs| - 1] && Union(rs) == Union(head) + Span(r)
  {
    head, r := rs[..|rs| - 1], rs[|rs| - 1];
  }

  lemma SnocOf(rs: seq<Run>, r: Run)
    ensures Union(rs + [r]) == Union(rs) + Span(r)
    ensures Separated(rs + [r]) <==>
            Separated(rs) && r.first <= r.last && (rs != [] ==> rs[|rs| - 1].last + 1 < r.first)
  {
    assert (rs + [r])[..|rs|] == rs;
  }

  lemma {:induction false} UpToLast(rs: seq<Run>, y: int)
    requires Separated(rs) && y in Union(rs)
    ensures rs != [] && y <= rs[|rs| - 1].last
    decreases |rs|
  {
    var head, r := rs[..|rs| - 1], rs[|rs| - 1];
    if y in Union(head) {
      UpToLast(head, y);
    }
  }

  lemma SpanGrows(f: int, l: int)
    requires f <= l + 1
    ensures Span(Run(f, l + 1)) == Span(Run(f, l)) + {l + 1}
  {
  }

  lemma OneYear(y: int)
    ensures Span(Run(y, y)) == {y}
  {
    SpanGrows(y, y - 1);
    assert Span(Run(y, y - 1)) == {};
  }

  ghost predicate Fits(s: Scan)
  {
    && Separated(s.done) && s.open.first <= s.open.last
    && (s.done != [] ==> s.done[|s.done| - 1].last + 1 < s.open.first)
  }

  ghost function Held(s: Scan): set<int> { Union(s.done) + Span(s.open) }

  lemma {:induction false} ExtendKeeps(s: Scan, y: int)
    requires Fits(s) && s.open.last < y
    ensures Fits(Extend(s, y)) && Held(Extend(s, y)) == Held(s) + {y}
  {
    if y == s.open.last + 1 {
      SpanGrows(s.open.first, s.open.last);
      assert s.open == Run(s.open.first, s.open.last);
    } else {
      CloseKeeps(s, y);
    }
  }

  lemma {:induction false} CloseKeeps(s: Scan, y: int)
    requires Fits(s) && s.open.last + 1 < y
    ensures Fits(Scan(s.done + [s.open], Run(y, y))) && Held(Scan(s.done + [s.open], Run(y, y))) == Held(s) + {y}
  {
    SnocOf(s.done, s.open);
    OneYear(y);
  }

  lemma YearsSnoc(ys: seq<int>, y: int)
    ensures Years(ys + [y]) == Years(ys) + {y}
  {
  }

  lemma AscendingHead(ys: seq<int>, y: int)
    requires Ascending(ys + [y])
    ensures Ascending(ys) && (ys != [] ==> ys[|ys| - 1] < y)
  {
    var all := ys + [y];
    assert all[|ys|] == y && (ys != [] ==> all[|ys| - 1] == ys[|ys| - 1]);
    forall i, j | 0 <= i < j < |ys| ensures ys[i] < ys[j] { assert all[i] == ys[i] && all[j] == ys[j]; }
  }

  lemma {:induction false} FirstYear(ys: seq<int>)
    requires |ys| == 1
    ensures Fits(Scanned(ys)) && Held(Scanned(ys)) == Years(ys)
  {
    OneYear(ys[0]);
    assert ys == [ys[0]];
    assert Years(ys) == {ys[0]};
  }

  lemma {:induction false} ScannedIs(ys: seq<int>)
    requires ys != [] && Ascending(ys)
    ensures Fits(Scanned(ys)) && Held(Scanned(ys)) == Years(ys) && Scanned(ys).open.last == ys[|ys| - 1]
    decreases |ys|
  {
    var n := |ys| - 1;
    if n == 0 {
      FirstYear(ys);
    } else {
      var before, y := ys[..n], ys[n];
      assert ys == before + [y];
      AscendingHead(before, y);
      ScannedIs(before);
      ExtendKeeps(Scanned(before), y);
      YearsSnoc(before, y);
    }
  }

  /** The runs are non-empty, ascending, with gaps between them, and hold exactly the years. */
  lemma RunsAre(ys: seq<int>)
    requires Ascending(ys)
    ensures Separated(Runs(ys)) && Union(Runs(ys)) == Years(ys)
  {
    if ys != [] {
      ScannedIs(ys);
      SnocOf(Scanned(ys).done, Scanned(ys).open);
    }
  }

  /** The years that begin a run. */
  ghost predicate Begins(s: set<int>, y: int) { y in s && y - 1 !in s }

  ghost function Starts(s: set<int>): set<int> { set y | y in s && Begins(s, y) }

  lemma StartsSnoc(u: set<int>, r: Run)
    requires r.first <= r.last && forall y :: y in u ==> y + 1 < r.first
    ensures Starts(u + Span(r)) == Starts(u) + {r.first} && r.first !in Starts(u)
  {
    forall y ensures Begins(u + Span(r), y) <==> Begins(u, y) || y == r.first {
      assert y - 1 in Span(r) <==> r.first <= y - 1 <= r.last;
    }
  }

  lemma {:induction false} BelowNext(head: seq<Run>, r: Run)
    requires Separated(head + [r])
    ensures Separated(head) && r.first <= r.last && forall y :: y in Union(head) ==> y + 1 < r.first
  {
    SnocOf(head, r);
    forall y | y in Union(head) ensures y + 1 < r.first { UpToLast(head, y); }
  }

  lemma {:induction false} OneRunPerStart(rs: seq<Run>)
    requires Separated(rs)
    ensures |Starts(Union(rs))| == |rs|
    decreases |rs|
  {
    if rs != [] {
      var head, r := Snoc(rs);
      BelowNext(head, r);
      OneRunPerStart(head);
      StartsSnoc(Union(head), r);
    }
  }

  lemma {:induction false} StartsNeedParts(parts: seq<Run>, s: set<int>)
    requires Union(parts) <= s
    ensures |Starts(s) * Union(parts)| <= |parts|
    decreases |parts|
  {
    if parts != [] {
      var head, r := parts[..|parts| - 1], parts[|parts| - 1];
      StartsNeedParts(head, s);
      var a, b := Starts(s) * Union(head), Starts(s) * Span(r);
      assert Starts(s) * Union(parts) == a + b;
      assert b <= {r.first} by {
        forall y | y in b ensures y == r.first { assert y > r.first ==> y - 1 in Span(r); }
      }
      SizeOfSubset(b, {r.first});
      assert |a + b| <= |a| + |b|;
    }
  }

  lemma SizeOfSubset(a: set<int>, b: set<int>)
    requires a <= b
    ensures |a| <= |b|
  {
    assert b == a + (b - a);
    assert |b| == |a| + |b - a|;
  }

  /** No list of ranges with the same years is shorter. */
  lemma FewestParts(ys: seq<int>, parts: seq<Run>)
    requires Ascending(ys) && Union(parts) == Years(ys)
    ensures |Runs(ys)| <= |parts|
  {
    RunsAre(ys);
    OneRunPerStart(Runs(ys));
    StartsNeedParts(parts, Years(ys));
    assert Starts(Years(ys)) * Union(parts) == Starts(Years(ys));
  }

  // ---------------------------------------------------------------------------------------------
  // Reading back what was printed
  // ---------------------------------------------------------------------------------------------

  /** Four digits exactly for the years 1000 to 9999. */
  lemma FourDigits(n: nat)
    ensures |Str(n)| == 4 <==> 1000 <= n <= 9999
    ensures |Str(n)| < 4 <==> n < 1000
  {
    assert n < 10 ==> |Str(n)| == 1;
    assert n >= 10 ==> |Str(n)| == |Str(n / 10)| + 1;
    assert n >= 100 ==> |Str(n / 10)| == |Str(n / 10 / 10)| + 1;
    assert n >= 1000 ==> |Str(n / 10 / 10)| == |Str(n / 10 / 10 / 10)| + 1;
    assert n >= 10000 ==> |Str(n / 10 / 10 / 10)| == |Str(n / 10 / 10 / 10 / 10)| + 1;
    assert |Str(n / 10 / 10 / 10 / 10)| >= 1;
  }

  lemma OneMoreDigit(s: string, k: nat, most: nat)
    requires k < |s| && AllDigits(s) && NatValue(s[..k]) <= most
    ensures NatValue(s[..k + 1]) <= most * 10 + 9
  {
    assert s[..k + 1][..k] == s[..k];
  }

  lemma ValueOfFour(s: string)
    requires |s| == 4 && AllDigits(s)
    ensures NatValue(s) <= 9999
  {
    OneMoreDigit(s, 0, 0);
    OneMoreDigit(s, 1, 9);
    OneMoreDigit(s, 2, 99);
    OneMoreDigit(s, 3, 999);
    assert s[..4] == s;
  }

  /** A single year is read back. */
  lemma SingleYear(n: int)
    ensures ItemYears(IntStr(n)) == {n}
  {
    IntStrShape(n);
    ParseIntStr(n);
    var s := IntStr(n);
    if |s| >= 5 {
      StripLeftOf(s[4..]);
      assert s[4..][0] == s[4] && s[..4][0] == s[0];
    }
  }

  lemma StripLeftOf(t: string)
    requires t != "" && !IsSpace(t[0])
    ensures StripLeft(t) == t
  {
  }

  /** A range of years within four digits is read back. */
  lemma GoodRange(f: int, l: int)
    requires 1000 <= f < l <= 9999
    ensures ItemYears(RunStr(Run(f, l))) == Span(Run(f, l))
  {
    FourDigits(f);
    FourDigits(l);
    StrIsDecimal(f);
    StrIsDecimal(l);
    var s := RunStr(Run(f, l));
    assert s[..4] == Str(f) && s[4..] == "-" + Str(l);
    StripLeftOf(s[4..]);
    assert s[4..][1..] == Str(l);
    StripLeftOf(Str(l));
    assert Str(l)[..4] == Str(l);
  }

  /** A range that begins outside four digits is not recognised at all. */
  lemma BadFirst(f: int, l: int)
    requires f < l && !(1000 <= f <= 9999)
    ensures ItemYears(RunStr(Run(f, l))) == {}
  {
    var s := RunStr(Run(f, l));
    IntStrShape(f);
    IntStrShape(l);
    if f >= 0 {
      FourDigits(f);
      var k := |Str(f)|;
      assert s[k] == '-' && s[..k] == Str(f);
      assert k >= 5 ==> s[4..][0] == Str(f)[4] && IsDigit(Str(f)[4]);
    } else {
      FarHyphen(f, l);
    }
    assert ParseInt(s).None?;
  }

  lemma FarHyphen(f: int, l: int)
    requires f < l && f < 0
    ensures MatchRange(RunStr(Run(f, l))).None? && ParseInt(RunStr(Run(f, l))).None?
  {
    var s, k := RunStr(Run(f, l)), |IntStr(f)|;
    IntStrShape(f);
    IntStrShape(l);
    assert s[0] == '-' && s[k] == '-';
    assert s[1..][k - 1] == '-';
  }

  /** A range that ends outside four digits is cut short. */
  lemma BadLast(f: int, l: int)
    requires 1000 <= f < l && l > 9999
    ensures ItemYears(RunStr(Run(f, l))) <= Span(Run(f, l)) - {l}
  {
    if f > 9999 {
      BadFirst(f, l);
    } else {
      CutLast(f, l);
    }
  }

  /** Only four digits of the last year are read. */
  lemma CutLast(f: int, l: int)
    requires 1000 <= f <= 9999 < l
    ensures ItemYears(RunStr(Run(f, l))) <= Span(Run(f, l)) - {l}
  {
    var s := RunStr(Run(f, l));
    FourDigits(f);
    FourDigits(l);
    StrIsDecimal(f);
    StrIsDecimal(l);
    HyphenAt(s, Str(f), Str(l));
    ValueOfFour(Str(l)[..4]);
    ValueOfFour(Str(f));
    assert MatchRange(s) == Some(Run(f, NatValue(Str(l)[..4])));
  }

  /** Two numbers with a hyphen between them, the first of four digits. */
  lemma HyphenAt(s: string, u: string, v: string)
    requires |u| == 4 && v != "" && !IsSpace(v[0]) && s == u + "-" + v
    ensures s[..4] == u && StripLeft(s[4..]) == "-" + v && StripLeft(("-" + v)[1..]) == v
  {
    assert s[4..] == "-" + v;
    StripLeftOf(s[4..]);
    assert ("-" + v)[1..] == v;
    StripLeftOf(v);
  }

  /** A run survives printing and reading if it is a single year or within four digits. */
  predicate Survives(r: Run) { r.first == r.last || (1000 <= r.first && r.last <= 9999) }

  lemma RunRoundTrip(r: Run)
    requires r.first <= r.last
    ensures ItemYears(RunStr(r)) <= Span(r)
    ensures ItemYears(RunStr(r)) == Span(r) <==> Survives(r)
  {
    if r.first == r.last {
      SingleYear(r.first);
      assert Span(r) == {r.first};
    } else {
      assert r.first in Span(r) && r.last in Span(r);
      if 1000 <= r.first && r.last <= 9999 {
        GoodRange(r.first, r.last);
      } else if 1000 <= r.first {
        BadLast(r.first, r.last);
      } else {
        BadFirst(r.first, r.last);
      }
    }
  }

  lemma RunStrShape(r: Run)
    ensures NoSpace(RunStr(r)) && Free(RunStr(r), ',')
  {
    IntStrShape(r.first);
    IntStrShape(r.last);
  }

  ghost predicate AllSurvive(rs: seq<Run>) { forall i :: 0 <= i < |rs| ==> Survives(rs[i]) }

  lemma ItemsSnoc(rs: seq<Run>, r: Run)
    ensures ItemsYears(RunStrs(rs + [r])) == ItemsYears(RunStrs(rs)) + ItemYears(RunStr(r))
  {
    RunStrShape(r);
    StripLine(RunStr(r));
    assert (rs + [r])[..|rs|] == rs;
    assert RunStrs(rs + [r])[..|RunStrs(rs)|] == RunStrs(rs);
  }

  lemma SurviveSnoc(rs: seq<Run>, r: Run)
    ensures AllSurvive(rs + [r]) <==> AllSurvive(rs) && Survives(r)
  {
    assert (rs + [r])[|rs|] == r;
    if AllSurvive(rs + [r]) {
      forall i | 0 <= i < |rs| ensures Survives(rs[i]) { assert (rs + [r])[i] == rs[i]; }
    }
  }

  lemma LastDisjoint(head: seq<Run>, r: Run)
    requires Separated(head + [r])
    ensures Separated(head) && Union(head) !! Span(r)
  {
    SnocOf(head, r);
    forall y | y in Union(head) ensures y !in Span(r) { UpToLast(head, y); }
  }

  lemma {:induction false} ItemsOfRuns(rs: seq<Run>)
    requires Separated(rs)
    ensures ItemsYears(RunStrs(rs)) <= Union(rs)
    ensures ItemsYears(RunStrs(rs)) == Union(rs) <==> AllSurvive(rs)
    decreases |rs|
  {
    if rs != [] {
      var head, r := Snoc(rs);
      ItemsOfRuns(head);
      RunRoundTrip(r);
      ItemsSnoc(head, r);
      SurviveSnoc(head, r);
      LastDisjoint(head, r);
      DisjointParts(ItemsYears(RunStrs(head)), Union(head), ItemYears(RunStr(r)), Span(r));
    }
  }

  lemma DisjointParts(a: set<int>, u: set<int>, b: set<int>, v: set<int>)
    requires a <= u && b <= v && u !! v
    ensures a + b == u + v <==> a == u && b == v
  {
    if a + b == u + v {
      forall y | y in u ensures y in a { assert y in a + b; }
      forall y | y in v ensures y in b { assert y in a + b; }
    }
  }

  /** Two consecutive years are both of four digits. */
  ghost predicate PairAt(s: set<int>, y: int) { y in s && y + 1 in s ==> 1000 <= y && y + 1 <= 9999 }

  ghost predicate FourDigitPairs(s: set<int>) { forall y :: PairAt(s, y) }

  lemma PairsSurviveOne(r: Run, s: set<int>)
    requires r.first <= r.last && FourDigitPairs(s) && Span(r) <= s
    ensures Survives(r)
  {
    assert PairAt(s, r.first) && PairAt(s, r.last - 1);
    assert r.first in Span(r) && r.last in Span(r);
    assert r.first < r.last ==> r.first + 1 in Span(r) && r.last - 1 in Span(r);
  }

  lemma {:induction false} PairsSurvive(rs: seq<Run>, s: set<int>)
    requires Separated(rs) && FourDigitPairs(s) && Union(rs) <= s
    ensures AllSurvive(rs)
    decreases |rs|
  {
    if rs != [] {
      var head, r := Snoc(rs);
      PairsSurvive(head, s);
      PairsSurviveOne(r, s);
      SurviveSnoc(head, r);
    }
  }

  lemma {:induction false} SurvivorsPair(rs: seq<Run>, y: int)
    requires Separated(rs) && AllSurvive(rs) && y in Union(rs) && y + 1 in Union(rs)
    ensures 1000 <= y && y + 1 <= 9999
    decreases |rs|
  {
    var head, r := Snoc(rs);
    SurviveSnoc(head, r);
    if y + 1 in Union(head) {
      UpToLast(head, y + 1);
      SurvivorsPair(head, y);
    } else if y in Union(head) {
      UpToLast(head, y);
    }
  }

  lemma {:induction false} RunStrsFree(rs: seq<Run>)
    ensures |RunStrs(rs)| == |rs|
    ensures forall i :: 0 <= i < |rs| ==> Free(RunStrs(rs)[i], ',')
    decreases |rs|
  {
    if rs != [] {
      RunStrsFree(rs[..|rs| - 1]);
      RunStrShape(rs[|rs| - 1]);
    }
  }

  /**
   * Reading back the printed years gives the same set exactly when every two consecutive years
   * have four digits. Single years are always read back.
   */
  lemma RoundTripExactly(ys: seq<int>)
    requires Ascending(ys) && ys != []
    ensures ProcessDates(DateStr(ys)) == Years(ys) <==> FourDigitPairs(Years(ys))
  {
    var rs := Runs(ys);
    RunsAre(ys);
    RunStrsFree(rs);
    SplitJoined(RunStrs(rs), ',');
    ItemsOfRuns(rs);
    if AllSurvive(rs) {
      forall y ensures PairAt(Union(rs), y) {
        if y in Union(rs) && y + 1 in Union(rs) { SurvivorsPair(rs, y); }
      }
    }
    if FourDigitPairs(Union(rs)) {
      PairsSurvive(rs, Union(rs));
    }
  }

  lemma FourDigitYearsRoundTrip(ys: seq<int>)
    requires Ascending(ys) && ys != [] && forall i :: 0 <= i < |ys| ==> 1000 <= ys[i] <= 9999
    ensures ProcessDates(DateStr(ys)) == Years(ys)
  {
    RoundTripExactly(ys);
  }

  /** Two consecutive years of which one has fewer or more than four digits are not read back. */
  lemma OddPairIsLost(y: int)
    requires y < 1000 || y + 1 > 9999
    ensures ProcessDates(DateStr([y, y + 1])) != {y, y + 1}
  {
    var ys := [y, y + 1];
    assert Years(ys) == {y, y + 1};
    RoundTripExactly(ys);
    assert !PairAt(Years(ys), y);
  }

  // ---------------------------------------------------------------------------------------------
  // The loops
  // ---------------------------------------------------------------------------------------------

  lemma SomeYear(s: set<int>)
    requires s != {}
    ensures exists y :: y in s
  {
    assert (forall y :: y !in s) ==> s == {};
  }

  /** Sorting a set of years. */
  method SortYears(dates: set<int>) returns (ys: seq<int>)
    ensures Ascending(ys) && Years(ys) == dates
  {
    ys := [];
    var left := dates;
    while left != {}
      invariant left <= dates && Ascending(ys) && Years(ys) == dates - left
      decreases |left|
    {
      SomeYear(left);
      var y :| y in left;
      var k := 0;
      while k < |ys| && ys[k] < y
        invariant 0 <= k <= |ys|
        invariant forall i :: 0 <= i < k ==> ys[i] < y
      {
        k := k + 1;
      }
      assert y !in Years(ys);
      ghost var before := ys;
      ys := ys[..k] + [y] + ys[k..];
      left := left - {y};
      InsertYear(before, y, k);
    }
  }

  lemma InsertYear(ys: seq<int>, y: int, k: nat)
    requires Ascending(ys) && y !in ys && k <= |ys|
    requires forall i :: 0 <= i < k ==> ys[i] < y
    requires k < |ys| ==> y <= ys[k]
    ensures Ascending(ys[..k] + [y] + ys[k..])
    ensures Years(ys[..k] + [y] + ys[k..]) == Years(ys) + {y}
  {
    var zs := ys[..k] + [y] + ys[k..];
    forall i | k <= i < |ys| ensures y < ys[i] { assert k < i ==> ys[k] < ys[i]; }
    forall i, j | 0 <= i < j < |zs| ensures zs[i] < zs[j] {
      assert i < k ==> zs[i] == ys[i];
      assert i > k ==> zs[i] == ys[i - 1];
      assert j < k ==> zs[j] == ys[j];
      assert j > k ==> zs[j] == ys[j - 1];
    }
    assert ys == ys[..k] + ys[k..];
  }

  /** The printing loop: `first` and `second` are the open run, `output` the runs before it. */
  method PrintRuns(ys: seq<int>) returns (text: string)
    requires ys != []
    ensures text == DateStr(ys)
  {
    var output := [];
    var first := ys[0];
    var second := first;
    var rest := ys[1..];
    ghost var k := 1;
    assert ys[..1] == [ys[0]];
    while rest != []
      invariant 1 <= k <= |ys| && rest == ys[k..]
      invariant Scanned(ys[..k]).open == Run(first, second)
      invariant output == RunStrs(Scanned(ys[..k]).done)
      decreases |rest|
    {
      var next := rest[0];
      assert ys[..k + 1][..k] == ys[..k];
      ghost var done := Scanned(ys[..k]).done;
      if next == second + 1 {
        second := next;
      } else {
        output := output + [RunStr(Run(first, second))];
        assert (done + [Run(first, second)])[..|done|] == done;
        first, second := next, next;
      }
      rest, k := rest[1..], k + 1;
    }
    assert ys[..k] == ys;
    ghost var runs := Runs(ys);
    assert runs[..|runs| - 1] == Scanned(ys).done;
    output := output + [RunStr(Run(first, second))];
    text := JoinOn(output, ',');
  }

  /** Prints a set of years; there is no text for the empty set, on which taking the first year fails. */
  method PrintYears(dates: set<int>) returns (text: Option<string>)
    ensures text.None? <==> dates == {}
    ensures text.Some? ==> exists ys :: Ascending(ys) && Years(ys) == dates && text.value == DateStr(ys)
    ensures text.Some? ==> (ProcessDates(text.value) == dates <==> FourDigitPairs(dates))
  {
    var ys := SortYears(dates);
    if ys == [] {
      return None;
    }
    assert ys[0] in Years(ys);
    var printed := PrintRuns(ys);
    RoundTripExactly(ys);
    text := Some(printed);
  }

  /** The years of a range, added one by one. */
  method AddRange(years: set<int>, r: Run) returns (output: set<int>)
    ensures output == years + Span(r)
  {
    var y := r.first;
    output := years;
    while y < r.last + 1
      invariant r.first <= y && (y <= r.last + 1 || y == r.first)
      invariant output == years + Span(Run(r.first, y - 1))
    {
      output := output + {y};
      y := y + 1;
    }
    assert Span(Run(r.first, y - 1)) == Span(r);
  }

  /** Reads a list of years. */
  method ReadYears(dates: string) returns (output: set<int>)
    ensures output == ProcessDates(dates)
  {
    var items := SplitOn(dates, ',');
    output := {};
    for k := 0 to |items|
      invariant output == ItemsYears(items[..k])
    {
      var item := Strip(items[k]);
      assert items[..k + 1][..k] == items[..k];
      var range := MatchRange(item);
      if range.Some? {
        output := AddRange(output, range.value);
      } else {
        var year := ParseInt(item);
        if year.Some? {
          output := output + {year.value};
        }
      }
    }
    assert items[..|items|] == items;
  }
}
