/** Splitting a source file into the comment blocks that may hold a copyright notice. */
module CopyrightBlocks {
  import opened Common
  import opened Text
  import opened CopyrightYears

  // ---------------------------------------------------------------------------------------------
  // What a line looks like
  // ---------------------------------------------------------------------------------------------

  predicate OccursAt(s: string, part: string, i: nat) { i + |part| <= |s| && s[i..i + |part|] == part }

  /** The first occurrence of `part` at or after `i`. */
  function Find(s: string, part: string, i: nat := 0): (r: Option<nat>)
    requires i <= |s|
    ensures r.Some? ==> i <= r.value && OccursAt(s, part, r.value)
    ensures r.Some? ==> forall k :: i <= k < r.value ==> !OccursAt(s, part, k)
    ensures r.None? ==> forall k :: i <= k ==> !OccursAt(s, part, k)
    decreases |s| - i
  {
    if OccursAt(s, part, i) then Some(i) else if i == |s| then None else Find(s, part, i + 1)
  }

  predicate Blank(s: string) { forall i :: 0 <= i < |s| ==> IsSpace(s[i]) }

  predicate StartsWith(s: string, part: string) { OccursAt(s, part, 0) }

  /** An editor mode line: `-*-`, blanks, `mode:`, anything on the same line, and `-*-` again. */
  predicate ModeLine(s: string)
  {
    exists i :: 0 <= i <= |s| && OccursAt(s, "-*-", i) && ModeAfter(s, SkipBlanks(s, i + 3))
  }

  function SkipBlanks(s: string, i: nat): nat
    decreases |s| - i
  {
    if i < |s| && s[i] == ' ' then SkipBlanks(s, i + 1) else i
  }

  predicate ModeAfter(s: string, j: nat)
  {
    OccursAt(s, "mode:", j) &&
    exists k :: j + 5 <= k <= |s| && OccursAt(s, "-*-", k) && Free(s[j + 5..k], '\n')
  }

  /** The languages told apart: scripts with `#`, lisp with `;`, the C family, and all others. */
  datatype Language = Script | Lisp | CLike | Unknown

  predicate SkipsFirst(lang: Language, line: string)
  {
    ModeLine(line) || (lang.Script? && StartsWith(line, "#!"))
  }

  /** The first line looked at: a mode line or an interpreter line on top is passed over. */
  function Base(lang: Language, lines: seq<string>): nat
  {
    if lines != [] && SkipsFirst(lang, lines[0]) then 1 else 0
  }

  /** A comment line of a script or of lisp. */
  predicate IsComment(lang: Language, line: string)
  {
    if lang.Script? then StartsWith(StripLeft(line), "#") else Find(line, ";").Some?
  }

  predicate CodeBefore(line: string)
  {
    var slashes := Find(line, "//");
    slashes.Some? && !Blank(line[..slashes.value])
  }

  predicate CopyrightComment(line: string)
  {
    var slashes := Find(line, "//");
    slashes.Some? && StartsWith(StripLeft(line[slashes.value + 2..]), "Copyright")
  }

  /** A line as the scan sees it. The marks are those of the C family: `//`, and the two of block comments. */
  datatype Look = Look(blank: bool, comment: bool, slashes: bool, open: bool, close: bool, code: bool, copyright: bool)

  function LookOf(lang: Language, line: string): Look
  {
    Look(Blank(line), IsComment(lang, line), Find(line, "//").Some?, Find(line, "/*").Some?,
         Find(line, "*/").Some?, CodeBefore(line), CopyrightComment(line))
  }

  /** The first place where `part` occurs. */
  ghost predicate FirstAt(s: string, part: string, i: nat)
  {
    OccursAt(s, part, i) && forall k: nat :: k < i ==> !OccursAt(s, part, k)
  }

  /** `part` comes next at or after `i`, behind white space only. */
  ghost predicate NextIs(s: string, i: nat, part: string)
  {
    exists j: nat :: i <= j <= |s| && Blank(s[i..j]) && OccursAt(s, part, j)
  }

  /** A script comment has `#` behind white space only, a lisp comment has `;` anywhere. */
  lemma {:induction false} CommentIs(lang: Language, line: string)
    ensures IsComment(lang, line) <==>
            if lang.Script? then NextIs(line, 0, "#") else exists i :: 0 <= i < |line| && line[i] == ';'
  {
    assert line[0..] == line;
    if lang.Script? {
      StripFinds(line, 0, "#");
    } else {
      HasSemicolon(line);
    }
  }

  /** Code stands before the first `//`, and a notice begins right behind it. */
  lemma {:induction false} SlashesAre(line: string)
    ensures CodeBefore(line) <==> exists i: nat :: FirstAt(line, "//", i) && !Blank(line[..i])
    ensures CopyrightComment(line) <==> exists i: nat :: FirstAt(line, "//", i) && NextIs(line, i + 2, "Copyright")
  {
    var f := Find(line, "//");
    if f.Some? {
      assert FirstAt(line, "//", f.value);
      assert forall i: nat :: FirstAt(line, "//", i) ==> i == f.value;
      StripFinds(line, f.value + 2, "Copyright");
    }
  }

  /** What the scan sees of a line, character by character. */
  lemma {:induction false} LooksLike(lang: Language, line: string)
    ensures var k := LookOf(lang, line);
      && (k.blank <==> forall i :: 0 <= i < |line| ==> IsSpace(line[i]))
      && (k.comment <==> if lang.Script? then NextIs(line, 0, "#") else exists i :: 0 <= i < |line| && line[i] == ';')
      && (k.slashes <==> exists i: nat :: OccursAt(line, "//", i))
      && (k.open <==> exists i: nat :: OccursAt(line, "/*", i))
      && (k.close <==> exists i: nat :: OccursAt(line, "*/", i))
      && (k.code <==> exists i: nat :: FirstAt(line, "//", i) && !Blank(line[..i]))
      && (k.copyright <==> exists i: nat :: FirstAt(line, "//", i) && NextIs(line, i + 2, "Copyright"))
  {
    CommentIs(lang, line);
    SlashesAre(line);
  }

  lemma {:induction false} HasSemicolon(line: string)
    ensures Find(line, ";").Some? <==> exists i :: 0 <= i < |line| && line[i] == ';'
  {
    var f := Find(line, ";");
    if f.Some? {
      assert line[f.value] == line[f.value..f.value + 1][0];
    }
    if exists i :: 0 <= i < |line| && line[i] == ';' {
      var i :| 0 <= i < |line| && line[i] == ';';
      assert OccursAt(line, ";", i) by { assert line[i..i + 1] == ";"; }
    }
  }

  /** Stripping on the left and looking at the start is looking behind white space. */
  lemma {:induction false} StripFinds(s: string, i: nat, part: string)
    requires i <= |s| && part != "" && !IsSpace(part[0])
    ensures StartsWith(StripLeft(s[i..]), part) <==> NextIs(s, i, part)
    decreases |s| - i
  {
    if i < |s| && IsSpace(s[i]) {
      assert s[i..][1..] == s[i + 1..];
      StripFinds(s, i + 1, part);
      SpaceThenNext(s, i, part);
    } else {
      assert s[i..][..0] == "" && s[i..i] == "";
      assert |part| <= |s[i..]| ==> s[i..][0..|part|] == s[i..i + |part|];
      assert forall j: nat :: i < j <= |s| ==> s[i..j][0] == s[i];
    }
  }

  lemma {:induction false} SpaceThenNext(s: string, i: nat, part: string)
    requires i < |s| && IsSpace(s[i]) && part != "" && !IsSpace(part[0])
    ensures NextIs(s, i, part) <==> NextIs(s, i + 1, part)
  {
    if NextIs(s, i, part) {
      var j: nat :| i <= j <= |s| && Blank(s[i..j]) && OccursAt(s, part, j);
      assert s[j] == s[j..j + |part|][0];
      assert s[i + 1..j] == s[i..j][1..];
    }
    if NextIs(s, i + 1, part) {
      var j: nat :| i + 1 <= j <= |s| && Blank(s[i + 1..j]) && OccursAt(s, part, j);
      assert s[i..j] == [s[i]] + s[i + 1..j];
    }
  }

  ghost predicate ModeMarks(s: string, i: nat, j: nat, k: nat)
  {
    && OccursAt(s, "-*-", i) && OccursAt(s, "mode:", j) && OccursAt(s, "-*-", k)
    && i + 3 <= j && j + 5 <= k && OnlyBlanks(s[i + 3..j]) && Free(s[j + 5..k], '\n')
  }

  lemma {:induction false} ModeLineHas(s: string) returns (i: nat, j: nat, k: nat)
    requires ModeLine(s)
    ensures ModeMarks(s, i, j, k)
  {
    i :| 0 <= i <= |s| && OccursAt(s, "-*-", i) && ModeAfter(s, SkipBlanks(s, i + 3));
    SkipBlanksIs(s, i + 3);
    j := SkipBlanks(s, i + 3);
    k :| j + 5 <= k <= |s| && OccursAt(s, "-*-", k) && Free(s[j + 5..k], '\n');
  }

  lemma {:induction false} MarksMakeModeLine(s: string, i: nat, j: nat, k: nat)
    requires ModeMarks(s, i, j, k)
    ensures ModeLine(s)
  {
    assert s[j] == s[j..j + 5][0] == 'm';
    SkipBlanksTo(s, i + 3, j);
    assert ModeAfter(s, j);
  }

  /** A mode line: `-*-`, blanks, `mode:`, and `-*-` again on the same line. */
  lemma {:induction false} ModeLineIs(s: string)
    ensures ModeLine(s) <==> exists i: nat, j: nat, k: nat :: ModeMarks(s, i, j, k)
  {
    if ModeLine(s) {
      var i, j, k := ModeLineHas(s);
    }
    forall i: nat, j: nat, k: nat | ModeMarks(s, i, j, k) ensures ModeLine(s) { MarksMakeModeLine(s, i, j, k); }
  }

  /** Only a first line is passed over: a mode line, or in a script a line that begins with `#!`. */
  lemma {:induction false} BaseIs(lang: Language, lines: seq<string>)
    ensures Base(lang, lines) ==
      if lines != [] && ((exists i: nat, j: nat, k: nat :: ModeMarks(lines[0], i, j, k)) ||
                         (lang.Script? && "#!" <= lines[0]))
      then 1 else 0
  {
    if lines != [] {
      ModeLineIs(lines[0]);
    }
  }

  ghost predicate OnlyBlanks(s: string) { forall i :: 0 <= i < |s| ==> s[i] == ' ' }

  lemma {:induction false} SkipBlanksIs(s: string, i: nat)
    requires i <= |s|
    ensures i <= SkipBlanks(s, i) <= |s| && OnlyBlanks(s[i..SkipBlanks(s, i)])
    decreases |s| - i
  {
    if i < |s| && s[i] == ' ' {
      SkipBlanksIs(s, i + 1);
      var j := SkipBlanks(s, i);
      assert s[i..j] == [s[i]] + s[i + 1..j];
    }
  }

  lemma {:induction false} SkipBlanksTo(s: string, i: nat, j: nat)
    requires i <= j < |s| && OnlyBlanks(s[i..j]) && s[j] != ' '
    ensures SkipBlanks(s, i) == j
    decreases j - i
  {
    if i < j {
      assert s[i] == s[i..j][0];
      assert s[i + 1..j] == s[i..j][1..];
      SkipBlanksTo(s, i + 1, j);
    }
  }

  function Looks(lang: Language, lines: seq<string>): (ks: seq<Look>)
    ensures |ks| == |lines| && forall i :: 0 <= i < |lines| ==> ks[i] == LookOf(lang, lines[i])
  {
    seq(|lines|, i requires 0 <= i < |lines| => LookOf(lang, lines[i]))
  }

  // ---------------------------------------------------------------------------------------------
  // Blocks
  // ---------------------------------------------------------------------------------------------

  datatype Block = Block(first: nat, last: nat)

  predicate In(b: Block, k: nat) { b.first <= k <= b.last }

  /** Non-empty, within `lo` and `hi`, ascending and disjoint. */
  ghost predicate Ordered(blocks: seq<Block>, lo: nat, hi: nat)
  {
    if blocks == [] then lo <= hi
    else
      var n := |blocks| - 1;
      blocks[n].first <= blocks[n].last < hi && Ordered(blocks[..n], lo, blocks[n].first)
  }

  ghost predicate Covered(blocks: seq<Block>, k: nat)
  {
    exists n :: 0 <= n < |blocks| && In(blocks[n], k)
  }

  lemma {:induction false} OrderedMeans(blocks: seq<Block>, lo: nat, hi: nat, i: nat, j: nat)
    requires Ordered(blocks, lo, hi) && i <= j < |blocks|
    ensures lo <= blocks[i].first <= blocks[i].last < hi
    ensures i < j ==> blocks[i].last < blocks[j].first
    decreases |blocks|
  {
    var n := |blocks| - 1;
    OrderedRange(blocks[..n], lo, blocks[n].first);
    if j < n {
      OrderedMeans(blocks[..n], lo, blocks[n].first, i, j);
    } else if i < n {
      OrderedMeans(blocks[..n], lo, blocks[n].first, i, n - 1);
    }
  }

  lemma {:induction false} OrderedRange(blocks: seq<Block>, lo: nat, hi: nat)
    requires Ordered(blocks, lo, hi)
    ensures lo <= hi
    decreases |blocks|
  {
    if blocks != [] {
      OrderedRange(blocks[..|blocks| - 1], lo, blocks[|blocks| - 1].first);
    }
  }

  lemma OrderedSnoc(blocks: seq<Block>, lo: nat, b: Block, hi: nat)
    requires Ordered(blocks, lo, b.first) && b.first <= b.last < hi
    ensures Ordered(blocks + [b], lo, hi)
  {
    assert (blocks + [b])[..|blocks|] == blocks;
  }

  lemma OrderedWider(blocks: seq<Block>, lo: nat, mid: nat, hi: nat)
    requires Ordered(blocks, lo, mid) && mid <= hi
    ensures Ordered(blocks, lo, hi)
  {
  }

  lemma CoveredSnoc(blocks: seq<Block>, b: Block, k: nat)
    ensures Covered(blocks + [b], k) <==> Covered(blocks, k) || In(b, k)
  {
    var all := blocks + [b];
    assert all[|blocks|] == b;
    if Covered(blocks, k) {
      var n :| 0 <= n < |blocks| && In(blocks[n], k);
      assert all[n] == blocks[n];
    }
    if Covered(all, k) && !In(b, k) {
      var n :| 0 <= n < |all| && In(all[n], k);
      assert blocks[n] == all[n];
    }
  }

  // ---------------------------------------------------------------------------------------------
  // Scripts and lisp: maximal runs of comment lines
  // ---------------------------------------------------------------------------------------------

  /** All lines from `lo` up to `hi` are comments, and the line before is not. */
  ghost predicate RunFrom(ks: seq<Look>, base: nat, lo: nat, hi: nat)
  {
    && base <= lo < hi <= |ks|
    && (forall k :: lo <= k < hi ==> ks[k].comment)
    && (lo > base ==> !ks[lo - 1].comment)
  }

  /** A maximal run of comment lines, ended by another line. */
  ghost predicate MaximalRun(ks: seq<Look>, base: nat, b: Block)
  {
    && RunFrom(ks, base, b.first, b.last + 1)
    && b.last + 1 < |ks| && !ks[b.last + 1].comment
  }

  ghost predicate AllMaximal(ks: seq<Look>, base: nat, blocks: seq<Block>)
  {
    forall n :: 0 <= n < |blocks| ==> MaximalRun(ks, base, blocks[n])
  }

  /** A comment line is in a block; any other line is blank or directly follows a comment. */
  ghost predicate Settled(ks: seq<Look>, base: nat, blocks: seq<Block>, k: nat)
    requires k < |ks|
  {
    if ks[k].comment then Covered(blocks, k)
    else ks[k].blank || (k > base && ks[k - 1].comment)
  }

  ghost predicate AllSettled(ks: seq<Look>, base: nat, blocks: seq<Block>, hi: nat)
    requires hi <= |ks|
  {
    forall k :: base <= k < hi ==> Settled(ks, base, blocks, k)
  }

  /** A line of code that does not directly follow a comment. */
  ghost predicate EndsScan(ks: seq<Look>, base: nat, k: nat)
    requires k < |ks|
  {
    && !ks[k].comment && !ks[k].blank
    && (k > base ==> !ks[k - 1].comment)
  }

  lemma SettledSnoc(ks: seq<Look>, base: nat, blocks: seq<Block>, b: Block)
    requires MaximalRun(ks, base, b) && AllSettled(ks, base, blocks, b.first)
    ensures AllSettled(ks, base, blocks + [b], b.last + 2)
  {
    forall k | base <= k < b.last + 2 ensures Settled(ks, base, blocks + [b], k) {
      CoveredSnoc(blocks, b, k);
      assert k < b.first ==> Settled(ks, base, blocks, k);
    }
  }

  lemma MaximalSnoc(ks: seq<Look>, base: nat, blocks: seq<Block>, b: Block)
    requires AllMaximal(ks, base, blocks) && MaximalRun(ks, base, b)
    ensures AllMaximal(ks, base, blocks + [b])
  {
  }

  /** What holds before line `i` is looked at: the lines up to `open` are settled, the rest is an open run. */
  ghost predicate Scanning(ks: seq<Look>, base: nat, i: nat, start: Option<nat>, blocks: seq<Block>)
  {
    var open := if start.Some? then start.value else i;
    && base <= i <= |ks| && open <= i
    && Ordered(blocks, base, open) && AllMaximal(ks, base, blocks)
    && AllSettled(ks, base, blocks, open)
    && (start.Some? ==> RunFrom(ks, base, open, i))
    && (start.None? && i > base ==> !ks[i - 1].comment)
  }

  lemma ScanComment(ks: seq<Look>, base: nat, i: nat, start: Option<nat>, blocks: seq<Block>)
    requires i < |ks| && Scanning(ks, base, i, start, blocks) && ks[i].comment
    ensures Scanning(ks, base, i + 1, if start.None? then Some(i) else start, blocks)
  {
  }

  lemma ScanBlank(ks: seq<Look>, base: nat, i: nat, blocks: seq<Block>)
    requires i < |ks| && Scanning(ks, base, i, None, blocks)
    requires !ks[i].comment && ks[i].blank
    ensures Scanning(ks, base, i + 1, None, blocks)
  {
    OrderedWider(blocks, base, i, i + 1);
  }

  lemma ScanClose(ks: seq<Look>, base: nat, i: nat, start: nat, blocks: seq<Block>)
    requires i < |ks| && Scanning(ks, base, i, Some(start), blocks) && !ks[i].comment
    ensures start < i && Scanning(ks, base, i + 1, None, blocks + [Block(start, i - 1)])
  {
    var b := Block(start, i - 1);
    OrderedSnoc(blocks, base, b, i + 1);
    SettledSnoc(ks, base, blocks, b);
    MaximalSnoc(ks, base, blocks, b);
  }

  lemma ScanBase(ks: seq<Look>, base: nat)
    ensures base <= |ks| ==> Scanning(ks, base, base, None, [])
  {
  }

  /**
   * The scan passes the lines up to `stop`, the first code line that does not directly follow a
   * comment. Its blocks are exactly the maximal runs of comments among them; only a run that
   * reaches the end of the file, from `open` on, is lost.
   */
  ghost predicate RunsFound(ks: seq<Look>, base: nat, blocks: seq<Block>, open: nat, stop: nat)
  {
    && open <= stop <= |ks|
    && Ordered(blocks, base, open) && AllMaximal(ks, base, blocks) && AllSettled(ks, base, blocks, open)
    && (open < stop ==> stop == |ks| && RunFrom(ks, base, open, stop))
    && (stop < |ks| ==> EndsScan(ks, base, stop))
  }

  lemma ScanEnd(ks: seq<Look>, base: nat, i: nat, start: Option<nat>, blocks: seq<Block>)
    requires Scanning(ks, base, i, start, blocks)
    requires i < |ks| ==> start.None? && !ks[i].comment && !ks[i].blank
    ensures RunsFound(ks, base, blocks, if start.Some? then start.value else i, i)
  {
  }

  /** Scripts and lisp; a first line to be passed over makes `base` 1. */
  method FindRuns(ks: seq<Look>, base: nat) returns (blocks: seq<Block>)
    requires base <= 1 && base <= |ks|
    ensures exists open, stop :: RunsFound(ks, base, blocks, open, stop)
  {
    blocks := [];
    var start: Option<nat> := None;
    var i := 0;
    ScanBase(ks, base);
    while i < |ks|
      invariant i <= |ks|
      invariant i == 0 ==> start.None? && blocks == []
      invariant i > 0 || base == 0 ==> Scanning(ks, base, i, start, blocks)
    {
      if i < base {
        i := i + 1;
        continue;
      }
      if ks[i].comment {
        ScanComment(ks, base, i, start, blocks);
        if start.None? {
          start := Some(i);
        }
      } else if start.None? {
        if !ks[i].blank {
          ScanEnd(ks, base, i, None, blocks);
          return;
        }
        ScanBlank(ks, base, i, blocks);
      } else {
        ScanClose(ks, base, i, start.value, blocks);
        blocks := blocks + [Block(start.value, i - 1)];
        start := None;
      }
      i := i + 1;
    }
    ScanEnd(ks, base, i, start, blocks);
  }

  lemma {:induction false} SameStart(ks: seq<Look>, base: nat, a: Block, b: Block, k: nat)
    requires MaximalRun(ks, base, a) && MaximalRun(ks, base, b) && In(a, k) && In(b, k)
    ensures b.first <= a.first && b.last >= a.last
  {
    assert b.first > base ==> !ks[b.first - 1].comment;
    assert !ks[b.last + 1].comment;
  }

  lemma {:induction false} SameRun(ks: seq<Look>, base: nat, a: Block, b: Block, k: nat)
    requires MaximalRun(ks, base, a) && MaximalRun(ks, base, b) && In(a, k) && In(b, k)
    ensures a == b
  {
    SameStart(ks, base, a, b, k);
    SameStart(ks, base, b, a, k);
  }

  /** The blocks found are exactly the maximal runs of comments before `open`. */
  lemma {:induction false} RunsExactly(ks: seq<Look>, base: nat, blocks: seq<Block>, open: nat, stop: nat, b: Block)
    requires RunsFound(ks, base, blocks, open, stop)
    ensures b in blocks <==> MaximalRun(ks, base, b) && b.last < open
  {
    if b in blocks {
      var n :| 0 <= n < |blocks| && blocks[n] == b;
      OrderedMeans(blocks, base, open, n, n);
    }
    if MaximalRun(ks, base, b) && b.last < open {
      assert Settled(ks, base, blocks, b.first);
      var n :| 0 <= n < |blocks| && In(blocks[n], b.first);
      SameRun(ks, base, blocks[n], b, b.first);
    }
  }

  /** Before `stop` there is no line that ends the scan. */
  lemma {:induction false} NoEndBefore(ks: seq<Look>, base: nat, blocks: seq<Block>, open: nat, stop: nat, k: nat)
    requires RunsFound(ks, base, blocks, open, stop) && base <= k < stop
    ensures !EndsScan(ks, base, k)
  {
    assert k < open ==> Settled(ks, base, blocks, k);
  }

  lemma {:induction false} SameStop(ks: seq<Look>, base: nat, a: seq<Block>, aOpen: nat, aStop: nat,
                                    b: seq<Block>, bOpen: nat, bStop: nat)
    requires RunsFound(ks, base, a, aOpen, aStop) && RunsFound(ks, base, b, bOpen, bStop)
    ensures aStop <= bStop
  {
    OrderedRange(b, base, bOpen);
    if bStop < aStop {
      NoEndBefore(ks, base, a, aOpen, aStop, bStop);
    }
  }

  /** A comment before `open` is followed by some other line. */
  lemma {:induction false} CommentEnds(ks: seq<Look>, base: nat, blocks: seq<Block>, open: nat, stop: nat, k: nat)
      returns (m: nat)
    requires RunsFound(ks, base, blocks, open, stop) && base <= k < open && ks[k].comment
    ensures k < m < |ks| && !ks[m].comment
  {
    assert Settled(ks, base, blocks, k);
    var n :| 0 <= n < |blocks| && In(blocks[n], k);
    m := blocks[n].last + 1;
  }

  /** The run at the end of the file begins where its comments begin. */
  lemma {:induction false} SameOpen(ks: seq<Look>, base: nat, a: seq<Block>, aOpen: nat,
                                    b: seq<Block>, bOpen: nat, stop: nat)
    requires RunsFound(ks, base, a, aOpen, stop) && RunsFound(ks, base, b, bOpen, stop)
    ensures bOpen <= aOpen
  {
    OrderedRange(a, base, aOpen);
    if aOpen < bOpen {
      var m := CommentEnds(ks, base, b, bOpen, stop, aOpen);
    }
  }

  lemma {:induction false} SameOrdered(a: seq<Block>, b: seq<Block>, lo: nat, hi: nat)
    requires Ordered(a, lo, hi) && Ordered(b, lo, hi) && forall x :: x in a <==> x in b
    ensures a == b
    decreases |a|
  {
    assert |a| > 0 ==> a[0] in a;
    assert |b| > 0 ==> b[0] in b;
    if a != [] {
      var m, n := |a| - 1, |b| - 1;
      LastIsLast(a, b, lo, hi);
      LastIsLast(b, a, lo, hi);
      SameFirst(a, lo, hi, a[m], b[n]);
      forall x ensures x in a[..m] <==> x in b[..n] {
        HeadHas(a, lo, hi, x);
        HeadHas(b, lo, hi, x);
      }
      SameOrdered(a[..m], b[..n], lo, a[m].first);
      assert a == a[..m] + [a[m]] && b == b[..n] + [b[n]];
    }
  }

  lemma {:induction false} LastIsLast(a: seq<Block>, b: seq<Block>, lo: nat, hi: nat)
    requires Ordered(a, lo, hi) && a != [] && b != [] && forall x :: x in b ==> x in a
    ensures b[|b| - 1].first <= a[|a| - 1].first && b[|b| - 1] in a
  {
    assert b[|b| - 1] in b;
    var i :| 0 <= i < |a| && a[i] == b[|b| - 1];
    OrderedMeans(a, lo, hi, i, |a| - 1);
  }

  lemma {:induction false} SameFirst(a: seq<Block>, lo: nat, hi: nat, x: Block, y: Block)
    requires Ordered(a, lo, hi) && x in a && y in a && x.first == y.first
    ensures x == y
  {
    var i :| 0 <= i < |a| && a[i] == x;
    var j :| 0 <= j < |a| && a[j] == y;
    OrderedMeans(a, lo, hi, if i <= j then i else j, if i <= j then j else i);
    OrderedMeans(a, lo, hi, i, i);
    OrderedMeans(a, lo, hi, j, j);
  }

  lemma {:induction false} HeadHas(a: seq<Block>, lo: nat, hi: nat, x: Block)
    requires Ordered(a, lo, hi) && a != []
    ensures x in a[..|a| - 1] <==> x in a && x != a[|a| - 1]
  {
    var m := |a| - 1;
    assert a == a[..m] + [a[m]];
    if x in a[..m] {
      var i :| 0 <= i < m && a[..m][i] == x;
      OrderedMeans(a, lo, hi, i, m);
    }
  }

  /** There is one result only. */
  lemma {:induction false} RunsUnique(ks: seq<Look>, base: nat, a: seq<Block>, aOpen: nat, aStop: nat,
                                      b: seq<Block>, bOpen: nat, bStop: nat)
    requires RunsFound(ks, base, a, aOpen, aStop) && RunsFound(ks, base, b, bOpen, bStop)
    ensures a == b
  {
    SameStop(ks, base, a, aOpen, aStop, b, bOpen, bStop);
    SameStop(ks, base, b, bOpen, bStop, a, aOpen, aStop);
    SameOpen(ks, base, a, aOpen, b, bOpen, aStop);
    SameOpen(ks, base, b, bOpen, a, aOpen, aStop);
    forall x ensures x in a <==> x in b {
      RunsExactly(ks, base, a, aOpen, aStop, x);
      RunsExactly(ks, base, b, bOpen, bStop, x);
    }
    SameOrdered(a, b, base, aOpen);
  }

  // ---------------------------------------------------------------------------------------------
  // The C family: block comments, and groups of line comments split at each copyright line
  // ---------------------------------------------------------------------------------------------

  datatype Mode = Outside | InC | InCpp

  predicate OpensC(k: Look) { k.open && !k.slashes }

  /** A line that is nothing but a `//` comment. */
  predicate CppLine(k: Look) { k.slashes && !k.open && !k.code }

  /** A line that goes on with a group of line comments. */
  predicate CppRest(k: Look) { if k.slashes then CppLine(k) && !k.copyright else k.blank }

  /** A line that ends a group of line comments. */
  predicate CppEnd(k: Look) { if k.slashes then CppLine(k) && k.copyright else !k.blank }

  /** Code: the scan ends here, unless a block comment is open. */
  predicate CodeLine(k: Look) { !k.open && if k.slashes then k.code else !k.blank }

  ghost predicate OpenC(ks: seq<Look>, base: nat, lo: nat, hi: nat)
  {
    && base <= lo < hi <= |ks| && OpensC(ks[lo])
    && forall k :: lo < k < hi ==> !ks[k].close
  }

  ghost predicate OpenCpp(ks: seq<Look>, base: nat, lo: nat, hi: nat)
  {
    && base <= lo < hi <= |ks| && CppLine(ks[lo])
    && forall k :: lo < k < hi ==> CppRest(ks[k])
  }

  /**
   * A block comment runs to the first line after its opening line with a closing mark; a group of
   * line comments runs to the next copyright line or to the next line that is not blank and not a
   * line comment.
   */
  ghost predicate Comment(ks: seq<Look>, base: nat, b: Block)
  {
    b.first <= b.last < |ks| &&
    if OpensC(ks[b.first]) then OpenC(ks, base, b.first, b.last) && ks[b.last].close
    else
      OpenCpp(ks, base, b.first, b.last + 1) && b.last + 1 < |ks| && CppEnd(ks[b.last + 1])
  }

  ghost predicate AllComments(ks: seq<Look>, base: nat, blocks: seq<Block>)
  {
    forall n :: 0 <= n < |blocks| ==> Comment(ks, base, blocks[n])
  }

  ghost predicate Passed(ks: seq<Look>, blocks: seq<Block>, k: nat)
    requires k < |ks|
  {
    Covered(blocks, k) || ks[k].blank
  }

  /** Every line is in a block or blank. */
  ghost predicate AllPassed(ks: seq<Look>, base: nat, blocks: seq<Block>, hi: nat)
    requires hi <= |ks|
  {
    forall k :: base <= k < hi ==> Passed(ks, blocks, k)
  }

  lemma PassedSnoc(ks: seq<Look>, base: nat, blocks: seq<Block>, b: Block)
    requires b.first <= b.last < |ks| && AllPassed(ks, base, blocks, b.first)
    ensures AllPassed(ks, base, blocks + [b], b.last + 1)
  {
    forall k | base <= k < b.last + 1 ensures Passed(ks, blocks + [b], k) {
      CoveredSnoc(blocks, b, k);
      assert k < b.first ==> Passed(ks, blocks, k);
    }
  }

  ghost predicate CScanning(ks: seq<Look>, base: nat, i: nat, mode: Mode, start: Option<nat>, blocks: seq<Block>)
  {
    && base <= i <= |ks|
    && (!mode.Outside? ==> start.Some?)
    && var open := if mode.Outside? then i else start.value;
    && open <= i && Ordered(blocks, base, open) && AllComments(ks, base, blocks)
    && AllPassed(ks, base, blocks, open)
    && (mode.InC? ==> OpenC(ks, base, open, i))
    && (mode.InCpp? ==> OpenCpp(ks, base, open, i))
  }

  lemma CBase(ks: seq<Look>, base: nat)
    ensures base <= |ks| ==> CScanning(ks, base, base, Outside, None, [])
  {
  }

  lemma CYield(ks: seq<Look>, base: nat, b: Block, blocks: seq<Block>, start: Option<nat>)
    requires Comment(ks, base, b)
    requires Ordered(blocks, base, b.first) && AllComments(ks, base, blocks)
    requires AllPassed(ks, base, blocks, b.first)
    ensures CScanning(ks, base, b.last + 1, Outside, start, blocks + [b])
  {
    OrderedSnoc(blocks, base, b, b.last + 1);
    OrderedRange(blocks, base, b.first);
    PassedSnoc(ks, base, blocks, b);
  }

  lemma InsideC(ks: seq<Look>, base: nat, i: nat, start: Option<nat>, blocks: seq<Block>)
    requires i < |ks| && CScanning(ks, base, i, InC, start, blocks)
    ensures if ks[i].close then CScanning(ks, base, i + 1, Outside, start, blocks + [Block(start.value, i)])
            else CScanning(ks, base, i + 1, InC, start, blocks)
  {
    if ks[i].close {
      CYield(ks, base, Block(start.value, i), blocks, start);
    }
  }

  /** A copyright line or code ends the open group of line comments. */
  lemma EndCpp(ks: seq<Look>, base: nat, i: nat, start: Option<nat>, blocks: seq<Block>)
    requires i < |ks| && CScanning(ks, base, i, InCpp, start, blocks)
    requires CppEnd(ks[i])
    ensures start.value < i && CScanning(ks, base, i, Outside, start, blocks + [Block(start.value, i - 1)])
  {
    CYield(ks, base, Block(start.value, i - 1), blocks, start);
  }

  lemma StayCpp(ks: seq<Look>, base: nat, i: nat, start: Option<nat>, blocks: seq<Block>)
    requires i < |ks| && CScanning(ks, base, i, InCpp, start, blocks) && CppRest(ks[i])
    ensures CScanning(ks, base, i + 1, InCpp, start, blocks)
  {
  }

  lemma EnterCpp(ks: seq<Look>, base: nat, i: nat, start: Option<nat>, blocks: seq<Block>)
    requires i < |ks| && CScanning(ks, base, i, Outside, start, blocks) && CppLine(ks[i])
    ensures CScanning(ks, base, i + 1, InCpp, Some(i), blocks)
  {
  }

  lemma EnterC(ks: seq<Look>, base: nat, i: nat, start: Option<nat>, blocks: seq<Block>)
    requires i < |ks| && CScanning(ks, base, i, Outside, start, blocks) && OpensC(ks[i])
    ensures CScanning(ks, base, i + 1, InC, Some(i), blocks)
  {
  }

  lemma StayOutside(ks: seq<Look>, base: nat, i: nat, start: Option<nat>, blocks: seq<Block>)
    requires i < |ks| && CScanning(ks, base, i, Outside, start, blocks) && ks[i].blank
    ensures CScanning(ks, base, i + 1, Outside, start, blocks)
  {
    OrderedWider(blocks, base, i, i + 1);
    assert Passed(ks, blocks, i);
  }

  /** How far the scan of a file of the C family got, and what was open there. */
  ghost predicate CStopped(ks: seq<Look>, base: nat, blocks: seq<Block>, ok: bool, open: nat, stop: nat)
  {
    && open <= stop <= |ks|
    && Ordered(blocks, base, open) && AllComments(ks, base, blocks)
    && AllPassed(ks, base, blocks, open)
    && (open < stop < |ks| ==> ks[stop].slashes)
    && (open < stop ==> OpenCpp(ks, base, open, stop) || (stop == |ks| && OpenC(ks, base, open, stop)))
    && (ok && stop < |ks| ==> CodeLine(ks[stop]))
    && (!ok ==> stop < |ks| && ks[stop].slashes && ks[stop].open)
  }

  lemma CStop(ks: seq<Look>, base: nat, i: nat, mode: Mode, start: Option<nat>, blocks: seq<Block>, ok: bool)
    requires CScanning(ks, base, i, mode, start, blocks) && (mode.InC? ==> i == |ks|)
    requires mode.InCpp? && i < |ks| ==> ks[i].slashes
    requires ok && i < |ks| ==> CodeLine(ks[i])
    requires !ok ==> i < |ks| && ks[i].slashes && ks[i].open
    ensures CStopped(ks, base, blocks, ok, if mode.Outside? then i else start.value, i)
  {
  }

  /**
   * The C family. The only assertion of the scan that can fail is the one that rejects a line with
   * both comment marks outside a block comment: `ok` is false then. The comment open at `stop` is lost.
   */
  method FindCBlocks(ks: seq<Look>, base: nat) returns (blocks: seq<Block>, ok: bool)
    requires base <= 1 && base <= |ks|
    ensures exists open, stop :: CStopped(ks, base, blocks, ok, open, stop)
  {
    blocks, ok := [], true;
    var start: Option<nat> := None;
    var mode := Outside;
    var i := 0;
    CBase(ks, base);
    while i < |ks|
      invariant i <= |ks|
      invariant i == 0 ==> mode.Outside? && start.None? && blocks == []
      invariant i > 0 || base == 0 ==> CScanning(ks, base, i, mode, start, blocks)
    {
      var k := ks[i];
      if i < base {
        i := i + 1;
        continue;
      }
      if mode.InC? {
        assert start.Some?;
        InsideC(ks, base, i, start, blocks);
        if k.close {
          blocks, mode := blocks + [Block(start.value, i)], Outside;
        }
        i := i + 1;
        continue;
      }
      if k.slashes {
        if k.open {
          CStop(ks, base, i, mode, start, blocks, false);
          return blocks, false;
        }
        if k.code {
          CStop(ks, base, i, mode, start, blocks, true);
          return;
        }
        if mode.Outside? {
          EnterCpp(ks, base, i, start, blocks);
          mode, start := InCpp, Some(i);
        } else if k.copyright {
          EndCpp(ks, base, i, start, blocks);
          EnterCpp(ks, base, i, start, blocks + [Block(start.value, i - 1)]);
          blocks := blocks + [Block(start.value, i - 1)];
          start := Some(i);
        } else {
          StayCpp(ks, base, i, start, blocks);
        }
        i := i + 1;
        continue;
      }
      if mode.InCpp? {
        assert start.Some?;
        if k.blank {
          StayCpp(ks, base, i, start, blocks);
          i := i + 1;
          continue;
        }
        EndCpp(ks, base, i, start, blocks);
        blocks, mode := blocks + [Block(start.value, i - 1)], Outside;
        if !k.open {
          CStop(ks, base, i, mode, start, blocks, true);
          return;
        }
      }
      assert mode.Outside?;
      if k.open {
        EnterC(ks, base, i, start, blocks);
        mode, start := InC, Some(i);
      } else if !k.blank {
        CStop(ks, base, i, mode, start, blocks, true);
        return;
      } else {
        StayOutside(ks, base, i, start, blocks);
      }
      i := i + 1;
    }
    CStop(ks, base, i, mode, start, blocks, true);
  }

  /** A blank line has no comment marks. */
  ghost predicate Sane(ks: seq<Look>)
  {
    forall i :: 0 <= i < |ks| ==> (ks[i].blank ==> !ks[i].slashes && !ks[i].open)
  }

  lemma {:induction false} LooksAreSane(lang: Language, lines: seq<string>)
    ensures Sane(Looks(lang, lines))
  {
    forall i | 0 <= i < |lines|
      ensures Looks(lang, lines)[i].blank ==> Find(lines[i], "//").None? && Find(lines[i], "/*").None?
    {
      BlankHasNone(lines[i], "//");
      BlankHasNone(lines[i], "/*");
    }
  }

  lemma {:induction false} BlankHasNone(line: string, mark: string)
    requires mark != "" && mark[0] == '/'
    ensures Blank(line) ==> Find(line, mark).None?
  {
    var f := Find(line, mark);
    assert f.Some? ==> line[f.value..f.value + |mark|][0] == '/' && line[f.value] == '/';
  }

  /** The first line at or after `lo` that is not blank. */
  ghost predicate FirstLine(ks: seq<Look>, lo: nat, f: nat)
  {
    lo <= f <= |ks| && (forall k :: lo <= k < f ==> ks[k].blank) && (f < |ks| ==> !ks[f].blank)
  }

  function EndOf(base: nat, blocks: seq<Block>, n: nat): nat
    requires n <= |blocks|
  {
    if n == 0 then base else blocks[n - 1].last + 1
  }

  lemma {:induction false} BlankBetween(ks: seq<Look>, base: nat, blocks: seq<Block>, open: nat, n: nat, k: nat)
    requires open <= |ks| && Ordered(blocks, base, open) && AllPassed(ks, base, blocks, open)
    requires n <= |blocks| && EndOf(base, blocks, n) <= k < (if n < |blocks| then blocks[n].first else open)
    ensures k < open && ks[k].blank
  {
    if n < |blocks| { OrderedMeans(blocks, base, open, n, n); }
    if n > 0 { OrderedMeans(blocks, base, open, n - 1, n - 1); }
    assert Passed(ks, blocks, k);
    if Covered(blocks, k) {
      var m :| 0 <= m < |blocks| && In(blocks[m], k);
      if m < n {
        OrderedMeans(blocks, base, open, m, n - 1);
      } else {
        OrderedMeans(blocks, base, open, n, m);
      }
    }
  }

  /** The next block begins at the first line behind the last one that is not blank. */
  lemma {:induction false} NextBlock(ks: seq<Look>, base: nat, blocks: seq<Block>, ok: bool, open: nat, stop: nat,
                                     n: nat)
    requires Sane(ks) && CStopped(ks, base, blocks, ok, open, stop) && n < |blocks|
    ensures FirstLine(ks, EndOf(base, blocks, n), blocks[n].first)
  {
    OrderedMeans(blocks, base, open, n, n);
    if n > 0 { OrderedMeans(blocks, base, open, n - 1, n); }
    assert Comment(ks, base, blocks[n]);
    forall k | EndOf(base, blocks, n) <= k < blocks[n].first ensures ks[k].blank {
      BlankBetween(ks, base, blocks, open, n, k);
    }
  }

  /** So does what is open at the end. */
  lemma {:induction false} OpenIsNext(ks: seq<Look>, base: nat, blocks: seq<Block>, ok: bool, open: nat, stop: nat)
    requires Sane(ks) && CStopped(ks, base, blocks, ok, open, stop)
    ensures FirstLine(ks, EndOf(base, blocks, |blocks|), open)
  {
    var n := |blocks|;
    OrderedRange(blocks, base, open);
    if n > 0 { OrderedMeans(blocks, base, open, n - 1, n - 1); }
    forall k | EndOf(base, blocks, n) <= k < open ensures ks[k].blank {
      BlankBetween(ks, base, blocks, open, n, k);
    }
  }

  /** A comment ends in one place only. */
  lemma {:induction false} SameEnd(ks: seq<Look>, base: nat, a: Block, b: Block)
    requires Comment(ks, base, a) && Comment(ks, base, b) && a.first == b.first
    ensures a.last <= b.last
  {
    assert OpensC(ks[a.first]) ==> ks[b.last].close;
    assert !OpensC(ks[a.first]) ==> CppEnd(ks[b.last + 1]);
  }

  /** No complete comment begins where the scan was left in one, or stopped. */
  lemma {:induction false} OpenIsIncomplete(ks: seq<Look>, base: nat, blocks: seq<Block>, ok: bool, open: nat,
                                            stop: nat, b: Block)
    requires CStopped(ks, base, blocks, ok, open, stop) && Comment(ks, base, b)
    ensures b.first != open
  {
  }

  lemma {:induction false} SameBlocks(ks: seq<Look>, base: nat, a: seq<Block>, aOk: bool, aOpen: nat, aStop: nat,
                                      b: seq<Block>, bOk: bool, bOpen: nat, bStop: nat, n: nat)
    requires Sane(ks) && CStopped(ks, base, a, aOk, aOpen, aStop) && CStopped(ks, base, b, bOk, bOpen, bStop)
    requires n <= |a| && n <= |b|
    ensures a[..n] == b[..n]
    decreases n
  {
    if n > 0 {
      var m := n - 1;
      SameBlocks(ks, base, a, aOk, aOpen, aStop, b, bOk, bOpen, bStop, m);
      assert EndOf(base, a, m) == EndOf(base, b, m) by {
        assert m > 0 ==> a[m - 1] == a[..m][m - 1] && b[m - 1] == b[..m][m - 1];
      }
      NextBlock(ks, base, a, aOk, aOpen, aStop, m);
      NextBlock(ks, base, b, bOk, bOpen, bStop, m);
      assert a[m].first == b[m].first;
      assert Comment(ks, base, a[m]) && Comment(ks, base, b[m]);
      SameEnd(ks, base, a[m], b[m]);
      SameEnd(ks, base, b[m], a[m]);
      assert a[..n] == a[..m] + [a[m]] && b[..n] == b[..m] + [b[m]];
    }
  }

  lemma {:induction false} NoFewer(ks: seq<Look>, base: nat, a: seq<Block>, aOk: bool, aOpen: nat, aStop: nat,
                                   b: seq<Block>, bOk: bool, bOpen: nat, bStop: nat)
    requires Sane(ks) && CStopped(ks, base, a, aOk, aOpen, aStop) && CStopped(ks, base, b, bOk, bOpen, bStop)
    ensures |a| <= |b|
  {
    var n := |b|;
    if n < |a| {
      SameBlocks(ks, base, a, aOk, aOpen, aStop, b, bOk, bOpen, bStop, n);
      assert EndOf(base, a, n) == EndOf(base, b, n) by {
        assert n > 0 ==> a[n - 1] == a[..n][n - 1] && b[n - 1] == b[..n][n - 1];
      }
      NextBlock(ks, base, a, aOk, aOpen, aStop, n);
      OpenIsNext(ks, base, b, bOk, bOpen, bStop);
      assert Comment(ks, base, a[n]);
      OpenIsIncomplete(ks, base, b, bOk, bOpen, bStop, a[n]);
    }
  }

  lemma {:induction false} SameOk(ks: seq<Look>, base: nat, blocks: seq<Block>, open: nat, aOk: bool, aStop: nat,
                                  bOk: bool, bStop: nat)
    requires CStopped(ks, base, blocks, aOk, open, aStop) && CStopped(ks, base, blocks, bOk, open, bStop)
    ensures aOk ==> bOk
  {
  }

  /** There is one result only. */
  lemma {:induction false} CUnique(ks: seq<Look>, base: nat, a: seq<Block>, aOk: bool, aOpen: nat, aStop: nat,
                                   b: seq<Block>, bOk: bool, bOpen: nat, bStop: nat)
    requires Sane(ks) && CStopped(ks, base, a, aOk, aOpen, aStop) && CStopped(ks, base, b, bOk, bOpen, bStop)
    ensures a == b && aOk == bOk
  {
    NoFewer(ks, base, a, aOk, aOpen, aStop, b, bOk, bOpen, bStop);
    NoFewer(ks, base, b, bOk, bOpen, bStop, a, aOk, aOpen, aStop);
    SameBlocks(ks, base, a, aOk, aOpen, aStop, b, bOk, bOpen, bStop, |a|);
    assert a == a[..|a|] && b == b[..|b|];
    OpenIsNext(ks, base, a, aOk, aOpen, aStop);
    OpenIsNext(ks, base, b, bOk, bOpen, bStop);
    SameOk(ks, base, a, aOpen, aOk, aStop, bOk, bStop);
    SameOk(ks, base, a, aOpen, bOk, bStop, aOk, aStop);
  }

  // ---------------------------------------------------------------------------------------------
  // The blocks of a file
  // ---------------------------------------------------------------------------------------------

  /** What the scan of a file gives: its blocks, or nothing on a failed assertion or an unknown language. */
  ghost predicate Scans(lang: Language, lines: seq<string>, found: Option<seq<Block>>)
  {
    var ks, base := Looks(lang, lines), Base(lang, lines);
    match lang
    case Unknown => found.None?
    case CLike =>
      exists blocks, open, stop ::
        CStopped(ks, base, blocks, found.Some?, open, stop) && (found.Some? ==> found.value == blocks)
    case _ => found.Some? && exists open, stop :: RunsFound(ks, base, found.value, open, stop)
  }

  /** The scan gives one result only. */
  lemma {:induction false} ScanIsUnique(lang: Language, lines: seq<string>, a: Option<seq<Block>>,
                                        b: Option<seq<Block>>)
    requires Scans(lang, lines, a) && Scans(lang, lines, b)
    ensures a == b
  {
    var ks, base := Looks(lang, lines), Base(lang, lines);
    match lang {
      case Unknown =>
      case CLike =>
        LooksAreSane(lang, lines);
        var x, xOpen, xStop :| CStopped(ks, base, x, a.Some?, xOpen, xStop) && (a.Some? ==> a.value == x);
        var y, yOpen, yStop :| CStopped(ks, base, y, b.Some?, yOpen, yStop) && (b.Some? ==> b.value == y);
        CUnique(ks, base, x, a.Some?, xOpen, xStop, y, b.Some?, yOpen, yStop);
      case _ =>
        var xOpen, xStop :| RunsFound(ks, base, a.value, xOpen, xStop);
        var yOpen, yStop :| RunsFound(ks, base, b.value, yOpen, yStop);
        RunsUnique(ks, base, a.value, xOpen, xStop, b.value, yOpen, yStop);
    }
  }

  lemma {:induction false} ScanIsOrdered(lang: Language, lines: seq<string>, blocks: seq<Block>)
    requires Scans(lang, lines, Some(blocks))
    ensures Ordered(blocks, Base(lang, lines), |lines|)
  {
    var ks, base := Looks(lang, lines), Base(lang, lines);
    if lang.CLike? {
      var x, open, stop :| CStopped(ks, base, x, true, open, stop) && blocks == x;
      OrderedWider(blocks, base, open, |lines|);
    } else {
      var open, stop :| RunsFound(ks, base, blocks, open, stop);
      OrderedWider(blocks, base, open, |lines|);
    }
  }

  /** The blocks of a file, or nothing where the scan fails. */
  method FindBlocks(lang: Language, lines: seq<string>) returns (found: Option<seq<Block>>)
    ensures Scans(lang, lines, found)
    ensures found.Some? ==> Ordered(found.value, Base(lang, lines), |lines|)
  {
    var ks, base := Looks(lang, lines), Base(lang, lines);
    match lang {
      case Script =>
        var blocks := FindRuns(ks, base);
        found := Some(blocks);
      case Lisp =>
        var blocks := FindRuns(ks, base);
        found := Some(blocks);
      case CLike =>
        var blocks, ok := FindCBlocks(ks, base);
        found := if ok then Some(blocks) else None;
      case Unknown =>
        found := None;
    }
    if found.Some? {
      ScanIsOrdered(lang, lines, found.value);
    }
  }

  // ---------------------------------------------------------------------------------------------
  // The authors of a block, and the block cut after them
  // ---------------------------------------------------------------------------------------------

  /** A line that ends the lines after the authors: a blank one, or a line comment with text. */
  predicate Cuts(line: string)
  {
    var text := Strip(line);
    text == "" || (StartsWith(text, "//") && StripLeft(text[2..]) != "")
  }

  /** The last line kept when the lines from `i` on come after the authors. */
  ghost predicate CutFrom(lines: seq<string>, i: nat, last: nat, kept: nat)
    requires last < |lines|
  {
    if exists j :: i <= j <= last && Cuts(lines[j]) then
      exists j :: i <= j <= last && Cuts(lines[j]) && (forall m :: i <= m < j ==> !Cuts(lines[m])) &&
                  kept == if Strip(lines[j]) == "" then j else j - 1
    else kept == last
  }

  /** `names` are read from line `a` on, one a line, by `head` first and `more` after it. */
  ghost predicate Named(lines: seq<string>, head: string -> Option<string>, more: string -> Option<string>,
                        a: nat, names: seq<string>)
    requires a + |names| <= |lines|
  {
    && names != [] && head(lines[a]) == Some(names[0])
    && forall n :: 1 <= n < |names| ==> more(lines[a + n]) == Some(names[n])
  }

  /** The authors start at the first line with one and go on as long as each line has one. */
  ghost predicate AuthorsAre(lines: seq<string>, b: Block, head: string -> Option<string>,
                             more: string -> Option<string>, names: seq<string>, kept: nat)
    requires b.first <= b.last < |lines|
  {
    if names == [] then kept == b.last && forall k :: b.first <= k <= b.last ==> head(lines[k]).None?
    else exists a ::
      && b.first <= a && a + |names| <= b.last + 1 && Named(lines, head, more, a, names)
      && (forall k :: b.first <= k < a ==> head(lines[k]).None?)
      && if a + |names| > b.last then kept == b.last
         else more(lines[a + |names|]).None? && CutFrom(lines, a + |names|, b.last, kept)
  }

  /** The loop that looks for the place to cut. */
  method CutBlock(lines: seq<string>, i: nat, last: nat) returns (kept: nat)
    requires 0 < i <= last < |lines|
    ensures i - 1 <= kept <= last && CutFrom(lines, i, last, kept)
  {
    kept := last;
    for j := i to last + 1
      invariant kept == last && forall m :: i <= m < j ==> !Cuts(lines[m])
    {
      var text := Strip(lines[j]);
      if text == "" {
        assert Cuts(lines[j]);
        return j;
      }
      if StartsWith(text, "//") {
        text := StripLeft(text[2..]);
        if text != "" {
          assert Cuts(lines[j]);
          return j - 1;
        }
      }
    }
  }

  /**
   * The authors of a block and its last line. `head` recognises the line with the first author and
   * `more` a further one. The cut block is never empty and lies within the block.
   */
  method Authors(lines: seq<string>, b: Block, head: string -> Option<string>, more: string -> Option<string>)
      returns (names: seq<string>, kept: nat)
    requires b.first <= b.last < |lines|
    ensures b.first <= kept <= b.last && AuthorsAre(lines, b, head, more, names, kept)
  {
    names, kept := [], b.last;
    ghost var a := b.first;
    for i := b.first to b.last + 1
      invariant kept == b.last && b.first <= a <= i
      invariant forall k :: b.first <= k < a ==> head(lines[k]).None?
      invariant if names == [] then a == i else a + |names| == i && Named(lines, head, more, a, names)
    {
      if names == [] {
        var name := head(lines[i]);
        if name.Some? {
          names := [name.value];
        } else {
          a := i + 1;
        }
      } else {
        var name := more(lines[i]);
        if name.None? {
          kept := CutBlock(lines, i, b.last);
          return;
        }
        names := names + [name.value];
      }
    }
  }

  // ---------------------------------------------------------------------------------------------
  // The notices of a file
  // ---------------------------------------------------------------------------------------------

  datatype Notice = Notice(owner: string, years: set<int>, authors: seq<string>, block: Block)

  function Joined(lines: seq<string>): string
  {
    if lines == [] then "" else Joined(lines[..|lines| - 1]) + lines[|lines| - 1]
  }

  function BlockText(lines: seq<string>, b: Block): string
  {
    if b.first <= b.last < |lines| then Joined(lines[b.first..b.last + 1]) else ""
  }

  /** `text` is the lines from `i` to before `end`, one directly behind the other. */
  ghost predicate Spells(lines: seq<string>, i: nat, end: nat, text: string)
    requires i <= end <= |lines|
    decreases end - i
  {
    if i == end then text == ""
    else lines[i] <= text && Spells(lines, i + 1, end, text[|lines[i]|..])
  }

  lemma {:induction false} JoinedOne(line: string)
    ensures Joined([line]) == line
  {
    assert [line][..0] == [] && Joined([]) + line == line;
  }

  /** A block of one line has the text of that line. */
  lemma {:induction false} OneLineText(lines: seq<string>, b: nat)
    requires b < |lines|
    ensures BlockText(lines, Block(b, b)) == lines[b]
  {
    assert lines[b..b + 1] == [lines[b]];
    JoinedOne(lines[b]);
  }

  /** The texts of two halves make up that of the whole. */
  lemma {:induction false} BlockTextIs(lines: seq<string>, a: nat, b: nat, c: nat)
    requires a <= b < c < |lines|
    ensures BlockText(lines, Block(a, c)) == BlockText(lines, Block(a, b)) + BlockText(lines, Block(b + 1, c))
  {
    var x, y, z := lines[a..c + 1], lines[a..b + 1], lines[b + 1..c + 1];
    assert x == y + z;
    JoinedAppend(y, z);
    assert BlockText(lines, Block(a, c)) == Joined(x);
    assert BlockText(lines, Block(a, b)) == Joined(y);
    assert BlockText(lines, Block(b + 1, c)) == Joined(z);
  }

  lemma {:induction false} JoinedAppend(a: seq<string>, b: seq<string>)
    ensures Joined(a + b) == Joined(a) + Joined(b)
    decreases |b|
  {
    if b == [] {
      assert a + b == a;
    } else {
      var n := |b| - 1;
      JoinedAppend(a, b[..n]);
      assert (a + b)[..|a| + n] == a + b[..n];
      Regroup(Joined(a), Joined(b[..n]), b[n]);
    }
  }

  lemma {:induction false} JoinedSpells(lines: seq<string>, i: nat, end: nat)
    requires i <= end <= |lines|
    ensures Spells(lines, i, end, Joined(lines[i..end]))
    decreases end - i
  {
    if i < end {
      JoinedSpells(lines, i + 1, end);
      assert lines[i..end] == [lines[i]] + lines[i + 1..end];
      JoinedAppend([lines[i]], lines[i + 1..end]);
      JoinedOne(lines[i]);
      assert Joined(lines[i..end])[|lines[i]|..] == Joined(lines[i + 1..end]);
    }
  }

  lemma {:induction false} SpellsOnce(lines: seq<string>, i: nat, end: nat, s: string, t: string)
    requires i <= end <= |lines| && Spells(lines, i, end, s) && Spells(lines, i, end, t)
    ensures s == t
    decreases end - i
  {
    if i < end {
      var n := |lines[i]|;
      SpellsOnce(lines, i + 1, end, s[n..], t[n..]);
      assert s == s[..n] + s[n..] && t == t[..n] + t[n..];
    }
  }

  /** `found` is what the search finds in the text of the block. */
  ghost predicate Finds(lines: seq<string>, b: Block, search: string -> Option<(string, string)>,
                        found: Option<(string, string)>)
  {
    b.first <= b.last < |lines| && exists text :: Spells(lines, b.first, b.last + 1, text) && search(text) == found
  }

  lemma {:induction false} SearchFinds(lines: seq<string>, b: Block, search: string -> Option<(string, string)>,
                                       found: Option<(string, string)>)
    requires b.first <= b.last < |lines|
    ensures Finds(lines, b, search, found) <==> search(BlockText(lines, b)) == found
  {
    JoinedSpells(lines, b.first, b.last + 1);
    if Finds(lines, b, search, found) {
      var text :| Spells(lines, b.first, b.last + 1, text) && search(text) == found;
      SpellsOnce(lines, b.first, b.last + 1, text, BlockText(lines, b));
    }
  }

  /** The blocks in which `search` finds a notice. */
  ghost function WithNotice(lines: seq<string>, blocks: seq<Block>, search: string -> Option<(string, string)>):
      seq<Block>
  {
    if blocks == [] then []
    else
      var n := |blocks| - 1;
      WithNotice(lines, blocks[..n], search) + if Finds(lines, blocks[n], search, None) then [] else [blocks[n]]
  }

  /** The three patterns searched for: a notice, the line of the first author, and a further author. */
  datatype Patterns = Patterns(search: string -> Option<(string, string)>,
                               head: string -> Option<string>, more: string -> Option<string>)

  /** A notice read from block `b`: its block is `b`, cut short after the authors. */
  ghost predicate ReadFrom(lines: seq<string>, p: Patterns, d: Notice, b: Block)
  {
    && (exists dates, owner :: Finds(lines, b, p.search, Some((dates, owner))) &&
          d.years == ProcessDates(Strip(dates)) && d.owner == Strip(owner))
    && d.block.first == b.first <= d.block.last <= b.last < |lines|
    && AuthorsAre(lines, b, p.head, p.more, d.authors, d.block.last)
  }

  ghost predicate AllRead(lines: seq<string>, p: Patterns, data: seq<Notice>, blocks: seq<Block>)
  {
    |data| == |blocks| && forall n :: 0 <= n < |data| ==> ReadFrom(lines, p, data[n], blocks[n])
  }

  lemma {:induction false} NoticeSnoc(lines: seq<string>, blocks: seq<Block>, b: Block,
                                      search: string -> Option<(string, string)>)
    ensures WithNotice(lines, blocks + [b], search) ==
            WithNotice(lines, blocks, search) + if Finds(lines, b, search, None) then [] else [b]
  {
    assert (blocks + [b])[..|blocks|] == blocks;
  }

  lemma {:induction false} AllReadSnoc(lines: seq<string>, p: Patterns, data: seq<Notice>, blocks: seq<Block>,
                                       d: Notice, b: Block)
    requires AllRead(lines, p, data, blocks) && ReadFrom(lines, p, d, b)
    ensures AllRead(lines, p, data + [d], blocks + [b])
  {
  }

  function BlocksOf(data: seq<Notice>): seq<Block>
  {
    if data == [] then [] else BlocksOf(data[..|data| - 1]) + [data[|data| - 1].block]
  }

  /** Leaving out blocks and cutting others short keeps them ascending and disjoint. */
  lemma {:induction false} StillOrdered(lines: seq<string>, p: Patterns, blocks: seq<Block>, data: seq<Notice>,
                                        lo: nat, hi: nat)
    requires Ordered(blocks, lo, hi) && AllRead(lines, p, data, WithNotice(lines, blocks, p.search))
    ensures Ordered(BlocksOf(data), lo, hi)
    decreases |blocks|
  {
    if blocks == [] {
      assert data == [];
    } else {
      var n := |blocks| - 1;
      var rest, all := WithNotice(lines, blocks[..n], p.search), WithNotice(lines, blocks, p.search);
      if !Finds(lines, blocks[n], p.search, None) {
        var m := |data| - 1;
        forall k | 0 <= k < m ensures ReadFrom(lines, p, data[..m][k], rest[k]) {
          assert all[k] == rest[k] && data[k] == data[..m][k];
        }
        StillOrdered(lines, p, blocks[..n], data[..m], lo, blocks[n].first);
        assert ReadFrom(lines, p, data[m], all[m]);
        OrderedSnoc(BlocksOf(data[..m]), lo, data[m].block, hi);
      } else {
        assert all == rest;
        StillOrdered(lines, p, blocks[..n], data, lo, blocks[n].first);
        OrderedWider(BlocksOf(data), lo, blocks[n].first, hi);
      }
    }
  }

  /** One block. */
  method ReadBlock(lines: seq<string>, p: Patterns, b: Block) returns (read: Option<Notice>)
    requires b.first <= b.last < |lines|
    ensures read.None? <==> Finds(lines, b, p.search, None)
    ensures read.Some? ==> ReadFrom(lines, p, read.value, b)
  {
    var notice := p.search(BlockText(lines, b));
    SearchFinds(lines, b, p.search, notice);
    SearchFinds(lines, b, p.search, None);
    if notice.None? {
      return None;
    }
    var years := ReadYears(Strip(notice.value.0));
    var names, kept := Authors(lines, b, p.head, p.more);
    var (dates, owner) := notice.value;
    assert Finds(lines, b, p.search, Some((dates, owner)));
    read := Some(Notice(Strip(owner), years, names, Block(b.first, kept)));
  }

  /** The loop over the blocks. */
  method ReadBlocks(lines: seq<string>, p: Patterns, blocks: seq<Block>, ghost lo: nat) returns (data: seq<Notice>)
    requires Ordered(blocks, lo, |lines|)
    ensures AllRead(lines, p, data, WithNotice(lines, blocks, p.search))
  {
    data := [];
    for n := 0 to |blocks|
      invariant AllRead(lines, p, data, WithNotice(lines, blocks[..n], p.search))
    {
      var b := blocks[n];
      OrderedMeans(blocks, lo, |lines|, n, n);
      assert blocks[..n + 1] == blocks[..n] + [b];
      var read := ReadBlock(lines, p, b);
      NoticeSnoc(lines, blocks[..n], b, p.search);
      if read.Some? {
        AllReadSnoc(lines, p, data, WithNotice(lines, blocks[..n], p.search), read.value, b);
        data := data + [read.value];
      }
    }
    assert blocks[..|blocks|] == blocks;
  }

  /**
   * What is read from a file: one notice for each block of the scan in which dates and an owner are
   * found, in the order of the file, or nothing where the scan fails.
   */
  ghost predicate NoticesOf(lang: Language, lines: seq<string>, p: Patterns, data: Option<seq<Notice>>,
                            blocks: Option<seq<Block>>)
  {
    && Scans(lang, lines, blocks) && (data.Some? <==> blocks.Some?)
    && (data.Some? ==> AllRead(lines, p, data.value, WithNotice(lines, blocks.value, p.search)))
  }

  /** The notices of a file, with disjoint blocks. */
  method GetData(lang: Language, lines: seq<string>, p: Patterns) returns (data: Option<seq<Notice>>)
    ensures exists blocks :: NoticesOf(lang, lines, p, data, blocks)
    ensures data.Some? ==> Ordered(BlocksOf(data.value), Base(lang, lines), |lines|)
  {
    var blocks := FindBlocks(lang, lines);
    if blocks.None? {
      data := None;
    } else {
      var notices := ReadBlocks(lines, p, blocks.value, Base(lang, lines));
      StillOrdered(lines, p, blocks.value, notices, Base(lang, lines), |lines|);
      data := Some(notices);
    }
    assert NoticesOf(lang, lines, p, data, blocks);
  }
}
