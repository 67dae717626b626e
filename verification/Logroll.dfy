/** The circular buffer for text output. */
module Logroll {
  /** What is printed: the lines from `idx` on, then those before it. */
  function Dump(lines: seq<string>, idx: nat): seq<string>
    requires idx <= |lines|
  {
    lines[idx..] + lines[..idx]
  }

  /** The last `target` lines, or all of them where there are not so many; a target below 1 keeps all. */
  function Latest(target: int, seen: seq<string>): seq<string>
  {
    if target < 1 || |seen| <= target then seen else seen[|seen| - target..]
  }

  /** The buffer has gone round: it is full and `idx` is its oldest line. */
  ghost predicate Rolling(target: int, seen: seq<string>, lines: seq<string>, idx: nat)
  {
    && 1 <= target <= |seen| && |lines| == target && idx < target
    && Dump(lines, idx) == Latest(target, seen)
  }

  function Next(target: int, idx: nat): nat { if idx == target - 1 then 0 else idx + 1 }

  /** Overwriting the oldest line and moving on keeps the latest lines in order. */
  lemma Overwrite(target: int, seen: seq<string>, lines: seq<string>, idx: nat, line: string)
    requires Rolling(target, seen, lines, idx)
    ensures Rolling(target, seen + [line], lines[idx := line], Next(target, idx))
  {
    var after, all := lines[idx := line], seen + [line];
    var older := lines[idx + 1..] + lines[..idx];
    assert older == Dump(lines, idx)[1..] == seen[|seen| - target + 1..];
    assert Latest(target, all) == older + [line];
    if idx == target - 1 {
      assert Dump(after, 0) == after == older + [line];
    } else {
      assert Dump(after, idx + 1) == older + [line];
    }
  }

  /** The buffer is not yet full: it holds all lines seen, and `idx` is past the last. */
  ghost predicate Filling(target: int, seen: seq<string>, lines: seq<string>, idx: nat)
  {
    lines == seen && idx == |seen| && (target >= 1 ==> |seen| < target)
  }

  /** What is printed is right in either state. */
  lemma Settled(target: int, seen: seq<string>, lines: seq<string>, idx: nat)
    requires Filling(target, seen, lines, idx) || Rolling(target, seen, lines, idx)
    ensures idx <= |lines| && Dump(lines, idx) == Latest(target, seen)
  {
    if Filling(target, seen, lines, idx) {
      assert Dump(lines, idx) == lines;
    }
  }

  lemma Append(target: int, seen: seq<string>, idx: nat, line: string)
    requires Filling(target, seen, seen, idx)
    ensures idx == target - 1 ==> Rolling(target, seen + [line], seen + [line], 0)
    ensures idx != target - 1 ==> Filling(target, seen + [line], seen + [line], idx + 1)
  {
    var all := seen + [line];
    assert Dump(all, 0) == all;
  }

  /** Every recorded dump shows the latest of the lines read before it. */
  ghost predicate AllLatest(target: int, incoming: seq<string>, dumps: seq<seq<string>>)
  {
    |dumps| <= |incoming| + 1 && forall k :: 0 <= k < |dumps| ==> dumps[k] == Latest(target, incoming[..k])
  }

  /** The buffer after the first `n` lines, with what a signal prints at each point so far. */
  ghost predicate Running(target: int, incoming: seq<string>, n: nat, full: bool, lines: seq<string>, idx: nat,
                          awaiting: seq<seq<string>>)
  {
    && n <= |incoming| && |awaiting| == n + 1 && AllLatest(target, incoming, awaiting)
    && if full then Rolling(target, incoming[..n], lines, idx) else Filling(target, incoming[..n], lines, idx)
  }

  lemma {:induction false} OneMoreLine(target: int, incoming: seq<string>, n: nat, full: bool, lines: seq<string>,
                                       idx: nat, awaiting: seq<seq<string>>)
    requires n < |incoming| && AllLatest(target, incoming, awaiting) && |awaiting| == n + 1
    requires var seen := incoming[..n] + [incoming[n]];
             if full then Rolling(target, seen, lines, idx) else Filling(target, seen, lines, idx)
    ensures idx <= |lines| && Running(target, incoming, n + 1, full, lines, idx, awaiting + [Dump(lines, idx)])
  {
    assert incoming[..n] + [incoming[n]] == incoming[..n + 1];
    Settled(target, incoming[..n + 1], lines, idx);
    LatestSnoc(target, incoming, awaiting, Dump(lines, idx));
  }

  lemma {:induction false} LatestSnoc(target: int, incoming: seq<string>, dumps: seq<seq<string>>, dump: seq<string>)
    requires AllLatest(target, incoming, dumps) && |dumps| <= |incoming|
    requires dump == Latest(target, incoming[..|dumps|])
    ensures AllLatest(target, incoming, dumps + [dump])
  {
  }

  /** The first loop fills the buffer. */
  method Fill(target: int, incoming: seq<string>)
      returns (lines: seq<string>, idx: nat, n: nat, awaiting: seq<seq<string>>, ghost full: bool)
    ensures Running(target, incoming, n, full, lines, idx, awaiting) && (!full ==> n == |incoming|)
  {
    lines, idx, n, full := [], 0, 0, false;
    var lastIdx := target - 1;
    Settled(target, [], lines, idx);
    awaiting := [Dump(lines, idx)];
    while n < |incoming|
      invariant Running(target, incoming, n, false, lines, idx, awaiting)
    {
      Append(target, incoming[..n], idx, incoming[n]);
      lines := lines + [incoming[n]];
      if idx == lastIdx {
        idx, full := 0, true;
        OneMoreLine(target, incoming, n, true, lines, idx, awaiting);
        awaiting, n := awaiting + [Dump(lines, idx)], n + 1;
        return;
      }
      idx := idx + 1;
      OneMoreLine(target, incoming, n, false, lines, idx, awaiting);
      awaiting, n := awaiting + [Dump(lines, idx)], n + 1;
    }
  }

  /**
   * The program: once the buffer is full, the second loop overwrites it. `awaiting[k]` is what a
   * signal prints while the program waits for the next line after the first `k` lines.
   */
  method Run(target: int, incoming: seq<string>) returns (shown: seq<string>, awaiting: seq<seq<string>>)
    ensures shown == Latest(target, incoming)
    ensures |awaiting| == |incoming| + 1 && AllLatest(target, incoming, awaiting)
  {
    var lines: seq<string>, idx: nat, n: nat;
    ghost var full: bool;
    lines, idx, n, awaiting, full := Fill(target, incoming);
    var lastIdx := target - 1;
    while n < |incoming|
      invariant Running(target, incoming, n, full, lines, idx, awaiting) && (!full ==> n == |incoming|)
    {
      Overwrite(target, incoming[..n], lines, idx, incoming[n]);
      lines := lines[idx := incoming[n]];
      idx := if idx == lastIdx then 0 else idx + 1;
      OneMoreLine(target, incoming, n, true, lines, idx, awaiting);
      awaiting, n := awaiting + [Dump(lines, idx)], n + 1;
    }
    assert incoming[..n] == incoming;
    Settled(target, incoming, lines, idx);
    shown := Dump(lines, idx);
  }

  // ---------------------------------------------------------------------------------------------
  // A signal between storing a line and moving on
  // ---------------------------------------------------------------------------------------------

  lemma {:induction false} RotationsAgree(s: seq<string>, x: string)
    ensures [x] + s == s + [x] <==> forall i :: 0 <= i < |s| ==> s[i] == x
    decreases |s|
  {
    if s != [] {
      var t := s[1..];
      RotationsAgree(t, x);
      assert s == [s[0]] + t;
      if [x] + s == s + [x] {
        assert ([x] + s)[0] == (s + [x])[0];
        assert [x] + t == ([x] + s)[1..] == (s + [x])[1..] == t + [x];
        forall i | 0 <= i < |s| ensures s[i] == x { assert i > 0 ==> s[i] == t[i - 1]; }
      }
      if forall i :: 0 <= i < |s| ==> s[i] == x {
        assert [x] + s == s + [x];
      }
    }
  }

  /**
   * A dump taken after the new line is stored but before the index moves prints the new line first:
   * it is right exactly when all the lines held before are equal to it.
   */
  lemma {:induction false} TornDump(target: int, seen: seq<string>, lines: seq<string>, idx: nat, line: string)
    requires Rolling(target, seen, lines, idx)
    ensures Dump(lines[idx := line], idx) == [line] + Dump(lines, idx)[1..]
    ensures Dump(lines[idx := line], idx) == Latest(target, seen + [line]) <==>
            forall i :: 1 <= i < target ==> Dump(lines, idx)[i] == line
  {
    var dump := Dump(lines, idx);
    TornIs(lines, idx, line);
    assert Latest(target, seen + [line]) == dump[1..] + [line];
    RotationsAgree(dump[1..], line);
    AllButFirst(dump, line);
  }

  lemma {:induction false} TornIs(lines: seq<string>, idx: nat, line: string)
    requires idx < |lines|
    ensures Dump(lines[idx := line], idx) == [line] + Dump(lines, idx)[1..]
  {
  }

  lemma {:induction false} AllButFirst(s: seq<string>, line: string)
    requires s != []
    ensures (forall i :: 0 <= i < |s[1..]| ==> s[1..][i] == line) <==> forall i :: 1 <= i < |s| ==> s[i] == line
  {
    assert forall i :: 1 <= i < |s| ==> s[i] == s[1..][i - 1];
  }

  /** The same while the buffer fills. */
  lemma {:induction false} TornFill(target: int, seen: seq<string>, idx: nat, line: string)
    requires Filling(target, seen, seen, idx)
    ensures Dump(seen + [line], idx) == [line] + seen
    ensures Dump(seen + [line], idx) == Latest(target, seen + [line]) <==>
            forall i :: 0 <= i < |seen| ==> seen[i] == line
  {
    assert Latest(target, seen + [line]) == seen + [line];
    RotationsAgree(seen, line);
  }

  /** Three different lines and a buffer of two: the signal prints the newest line first. */
  lemma {:induction false} TornExample()
    ensures Rolling(2, ["a", "b"], ["a", "b"], 0)
    ensures Dump(["a", "b"][0 := "c"], 0) == ["c", "b"] && Latest(2, ["a", "b"] + ["c"]) == ["b", "c"]
  {
    assert Dump(["a", "b"], 0) == ["a", "b"];
    assert ["a", "b"][0 := "c"] == ["c", "b"];
    assert Dump(["c", "b"], 0) == ["c", "b"];
    assert ["a", "b"] + ["c"] == ["a", "b", "c"];
  }
}
