/** Naming the sections of merged checkpoints: "cpu" is numbered by the checkpoint it comes from. */
module AggregatorNames {
  import opened Text

  predicate StartsCpu(s: string) { |s| >= 3 && s[0] == 'c' && s[1] == 'p' && s[2] == 'u' }

  predicate HasCpu(s: string) { s != "" && (StartsCpu(s) || HasCpu(s[1..])) }

  /** Every "cpu" in a name, from left to right, is followed by `tag`. */
  function Rename(s: string, tag: string): string
  {
    if s == "" then ""
    else if StartsCpu(s) then "cpu" + tag + Rename(s[3..], tag)
    else [s[0]] + Rename(s[1..], tag)
  }

  ghost predicate CpuAt(s: string, k: nat) { k + 3 <= |s| && s[k..k + 3] == "cpu" }

  lemma {:induction false} CpuAtNext(s: string, k: nat)
    requires s != ""
    ensures CpuAt(s, k + 1) <==> CpuAt(s[1..], k)
    ensures StartsCpu(s) <==> CpuAt(s, 0)
  {
    if k + 4 <= |s| { assert s[k + 1..k + 4] == s[1..][k..k + 3]; }
    if |s| >= 3 { assert s[0..3] == [s[0], s[1], s[2]]; }
  }

  /** A processor section has "cpu" somewhere in its name. */
  lemma {:induction false} HasCpuIs(s: string)
    ensures HasCpu(s) <==> exists k: nat :: CpuAt(s, k)
    decreases |s|
  {
    if s != "" {
      HasCpuIs(s[1..]);
      CpuAtNext(s, 0);
      if exists k: nat :: CpuAt(s[1..], k) {
        var k: nat :| CpuAt(s[1..], k);
        CpuAtNext(s, k);
      }
      if exists k: nat :: CpuAt(s, k) {
        var k: nat :| CpuAt(s, k);
        if k > 0 { CpuAtNext(s, k - 1); }
      }
    }
  }

  lemma {:induction false} NotAtStart(a: string, b: string)
    requires a != "" && !StartsCpu(a + "cp")
    ensures !StartsCpu(a + "cpu" + b) && !StartsCpu(a)
  {
    var s, t := a + "cpu" + b, a + "cp";
    assert s[0] == t[0] && s[1] == t[1] && s[2] == t[2];
    assert |a| >= 3 ==> t[0] == a[0] && t[1] == a[1] && t[2] == a[2];
  }

  /** The number goes behind the first "cpu", and so on in the rest; without one the name is kept. */
  lemma {:induction false} RenameIs(a: string, b: string, tag: string)
    requires !HasCpu(a + "cp")
    ensures Rename(a + "cpu" + b, tag) == a + "cpu" + tag + Rename(b, tag)
    ensures Rename(a, tag) == a
    decreases |a|
  {
    var s := a + "cpu" + b;
    if a == "" {
      assert s[3..] == b && StartsCpu(s);
    } else {
      assert (a + "cp")[1..] == a[1..] + "cp" && s[1..] == a[1..] + "cpu" + b;
      RenameIs(a[1..], b, tag);
      NotAtStart(a, b);
      assert a == [a[0]] + a[1..] && s[0] == a[0];
    }
  }

  function Zeros(n: nat): string { if n == 0 then "" else Zeros(n - 1) + "0" }

  /** The number of a checkpoint, filled up with zeros on the left. */
  function Tag(i: nat, width: nat): string
  {
    if |Str(i)| < width then Zeros(width - |Str(i)|) + Str(i) else Str(i)
  }

  /** The digits needed for the last of `n` checkpoints. */
  function Width(n: nat): nat
    requires n > 0
  {
    |Str(n - 1)|
  }

  // ---------------------------------------------------------------------------------------------
  // Tags have the same width and differ
  // ---------------------------------------------------------------------------------------------

  lemma {:induction false} LongerNumbers(i: nat, m: nat)
    requires i <= m
    ensures |Str(i)| <= |Str(m)|
    decreases m
  {
    if m >= 10 && i >= 10 {
      LongerNumbers(i / 10, m / 10);
    }
  }

  lemma {:induction false} ZerosAre(n: nat)
    ensures |Zeros(n)| == n && AllDigits(Zeros(n)) && NatValue(Zeros(n)) == 0
  {
    if n > 0 {
      ZerosAre(n - 1);
      assert Zeros(n)[..n - 1] == Zeros(n - 1);
    }
  }

  lemma {:induction false} LeadingZeros(n: nat, s: string)
    requires AllDigits(s)
    ensures AllDigits(Zeros(n) + s) && NatValue(Zeros(n) + s) == NatValue(s)
    decreases |s|
  {
    ZerosAre(n);
    if s == "" {
      assert Zeros(n) + s == Zeros(n);
    } else {
      var head := s[..|s| - 1];
      LeadingZeros(n, head);
      assert (Zeros(n) + s)[..n + |head|] == Zeros(n) + head;
    }
  }

  lemma PaddedIs(i: nat, n: nat)
    ensures AllDigits(Zeros(n) + Str(i)) && NatValue(Zeros(n) + Str(i)) == i
    ensures |Zeros(n) + Str(i)| == n + |Str(i)|
  {
    StrIsDecimal(i);
    LeadingZeros(n, Str(i));
    ZerosAre(n);
  }

  lemma TagIs(i: nat, width: nat)
    ensures AllDigits(Tag(i, width)) && NatValue(Tag(i, width)) == i
    ensures |Str(i)| <= width ==> |Tag(i, width)| == width
  {
    if |Str(i)| < width {
      PaddedIs(i, width - |Str(i)|);
    } else {
      StrIsDecimal(i);
    }
  }

  /** The name of a section of checkpoint `i` of `n`: numbered, with as many digits as the last number. */
  ghost predicate NumberedName(name: string, i: nat, n: nat, out: string)
    requires n > 0
  {
    exists tag :: AllDigits(tag) && NatValue(tag) == i && |tag| == |Str(n - 1)| && out == Rename(name, tag)
  }

  lemma {:induction false} TagNumbers(name: string, i: nat, n: nat)
    requires i < n
    ensures NumberedName(name, i, n, Rename(name, Tag(i, Width(n))))
  {
    LongerNumbers(i, n - 1);
    TagIs(i, Width(n));
  }

  lemma TagsDiffer(i: nat, j: nat, n: nat)
    requires i < n && j < n
    ensures |Tag(i, Width(n))| == |Tag(j, Width(n))|
    ensures Tag(i, Width(n)) == Tag(j, Width(n)) ==> i == j
  {
    LongerNumbers(i, n - 1);
    LongerNumbers(j, n - 1);
    TagIs(i, Width(n));
    TagIs(j, Width(n));
  }

  // ---------------------------------------------------------------------------------------------
  // Renaming is injective
  // ---------------------------------------------------------------------------------------------

  lemma RenameFirst(s: string, tag: string)
    ensures s == "" <==> Rename(s, tag) == ""
    ensures s != "" ==> Rename(s, tag)[0] == s[0]
  {
  }

  lemma RenameStarts(s: string, tag: string)
    ensures StartsCpu(Rename(s, tag)) <==> StartsCpu(s)
  {
    if StartsCpu(Rename(s, tag)) && !StartsCpu(s) {
      RenameFirst(s, tag);
      RenameFirst(s[1..], tag);
      assert s[0] == 'c' && s[1..] != "" && s[1] == 'p';
      assert Rename(s[1..], tag) == ['p'] + Rename(s[2..], tag) by { assert s[1..][1..] == s[2..]; }
      RenameFirst(s[2..], tag);
      assert false;
    }
  }

  lemma {:induction false} KeepsCpu(s: string, tag: string)
    ensures HasCpu(s) ==> HasCpu(Rename(s, tag))
    decreases |s|
  {
    if s != "" && !StartsCpu(s) {
      KeepsCpu(s[1..], tag);
      assert Rename(s, tag)[1..] == Rename(s[1..], tag);
    }
  }

  lemma SamePrefix(s: string, t: string, a: string, b: string)
    requires |s| == |t| && "cpu" + s + a == "cpu" + t + b
    ensures s == t && a == b
  {
    var x := "cpu" + s + a;
    assert s == x[3..3 + |s|] && t == x[3..3 + |t|];
    assert a == x[3 + |s|..] && b == x[3 + |t|..];
  }

  /** Tags of the same width: equal new names come from the same name and the same tag. */
  lemma {:induction false} RenameInjective(a: string, s: string, b: string, t: string)
    requires |s| == |t| && Rename(a, s) == Rename(b, t)
    ensures a == b && (HasCpu(a) ==> s == t)
    decreases |a|
  {
    RenameFirst(a, s);
    RenameFirst(b, t);
    if a != "" {
      RenameStarts(a, s);
      RenameStarts(b, t);
      if StartsCpu(a) {
        SamePrefix(s, t, Rename(a[3..], s), Rename(b[3..], t));
        RenameInjective(a[3..], s, b[3..], t);
        assert a == a[..3] + a[3..] && b == b[..3] + b[3..] && a[..3] == b[..3];
      } else {
        assert Rename(a[1..], s) == Rename(a, s)[1..] && Rename(b[1..], t) == Rename(b, t)[1..];
        RenameInjective(a[1..], s, b[1..], t);
        assert a == [a[0]] + a[1..] && b == [b[0]] + b[1..];
      }
    }
  }

  /** The new name of a processor section tells the checkpoint and the section apart from all others. */
  lemma NewNamesDiffer(n: nat, i: nat, a: string, j: nat, b: string)
    requires i < n && j < n && HasCpu(a)
    requires Rename(a, Tag(i, Width(n))) == Rename(b, Tag(j, Width(n)))
    ensures i == j && a == b
  {
    TagsDiffer(i, j, n);
    RenameInjective(a, Tag(i, Width(n)), b, Tag(j, Width(n)));
  }

  /** Without the zeros two sections can meet: "cpu" of checkpoint 10 and "cpu0" of checkpoint 1. */
  lemma UnpaddedMeet()
    ensures Rename("cpu", Str(10)) == Rename("cpu0", Str(1))
  {
    assert Str(10) == "10" && Str(1) == "1";
    assert "cpu"[3..] == "" && "cpu0"[3..] == "0" && "0"[1..] == "";
    assert Rename("cpu", "10") == "cpu10";
    assert Rename("cpu0", "1") == "cpu" + "1" + Rename("0", "1");
  }

  // ---------------------------------------------------------------------------------------------
  // All names of the merged configuration
  // ---------------------------------------------------------------------------------------------

  ghost predicate Distinct(names: seq<string>)
  {
    forall i, j :: 0 <= i < j < |names| ==> names[i] != names[j]
  }

  lemma DistinctSnoc(names: seq<string>, name: string)
    requires Distinct(names) && name !in names
    ensures Distinct(names + [name])
  {
  }

  lemma DistinctHead(names: seq<string>)
    requires Distinct(names) && names != []
    ensures Distinct(names[..|names| - 1]) && names[|names| - 1] !in names[..|names| - 1]
  {
  }

  /** The names under which one section is written: at most one. */
  function NewName(name: string, i: nat, n: nat): seq<string>
    requires i < n
  {
    if HasCpu(name) then [Rename(name, Tag(i, Width(n)))]
    else if name == "system" || name == "Globals" || i != n - 1 then []
    else [name]
  }

  function NewNames(names: seq<string>, i: nat, n: nat): seq<string>
    requires i < n
  {
    if names == [] then []
    else NewNames(names[..|names| - 1], i, n) + NewName(names[|names| - 1], i, n)
  }

  function AllNames(cpts: seq<seq<string>>, k: nat): seq<string>
    requires k <= |cpts|
  {
    if k == 0 then [] else AllNames(cpts, k - 1) + NewNames(cpts[k - 1], k - 1, |cpts|)
  }

  /** A written name comes from a processor section of checkpoint `i`, or it is a name of the last one. */
  ghost predicate Origin(x: string, names: seq<string>, i: nat, n: nat)
    requires i < n
  {
    exists m :: 0 <= m < |names| && NewName(names[m], i, n) == [x]
  }

  lemma SameNewName(n: nat, i: nat, a: string, j: nat, b: string)
    requires i < n && j < n && NewName(a, i, n) == NewName(b, j, n) != []
    ensures i == j && a == b
  {
    if HasCpu(a) && HasCpu(b) {
      NewNamesDiffer(n, i, a, j, b);
    } else {
      KeepsCpu(a, Tag(i, Width(n)));
      KeepsCpu(b, Tag(j, Width(n)));
    }
  }

  lemma {:induction false} NewNamesFrom(names: seq<string>, i: nat, n: nat, x: string)
    requires i < n && x in NewNames(names, i, n)
    ensures Origin(x, names, i, n)
    decreases |names|
  {
    var m := |names| - 1;
    if x in NewName(names[m], i, n) {
      assert NewName(names[m], i, n) == [x];
    } else {
      NewNamesFrom(names[..m], i, n, x);
      var k :| 0 <= k < m && NewName(names[..m][k], i, n) == [x];
      assert names[..m][k] == names[k];
    }
  }

  lemma {:induction false} NewNamesDistinct(names: seq<string>, i: nat, n: nat)
    requires i < n && Distinct(names)
    ensures Distinct(NewNames(names, i, n))
    decreases |names|
  {
    if names != [] {
      var m := |names| - 1;
      DistinctHead(names);
      NewNamesDistinct(names[..m], i, n);
      var before, added := NewNames(names[..m], i, n), NewName(names[m], i, n);
      if added != [] {
        if added[0] in before {
          NewNamesFrom(names[..m], i, n, added[0]);
          var k :| 0 <= k < m && NewName(names[..m][k], i, n) == [added[0]];
          SameNewName(n, i, names[..m][k], i, names[m]);
          assert false;
        }
        DistinctSnoc(before, added[0]);
      } else {
        assert before + added == before;
      }
    }
  }

  lemma {:induction false} AllNamesFrom(cpts: seq<seq<string>>, k: nat, x: string)
    requires k <= |cpts| && x in AllNames(cpts, k)
    ensures exists i :: 0 <= i < k && Origin(x, cpts[i], i, |cpts|)
    decreases k
  {
    if x in NewNames(cpts[k - 1], k - 1, |cpts|) {
      NewNamesFrom(cpts[k - 1], k - 1, |cpts|, x);
    } else {
      AllNamesFrom(cpts, k - 1, x);
    }
  }

  lemma DistinctAppend(a: seq<string>, b: seq<string>)
    requires Distinct(a) && Distinct(b) && forall x :: x in a ==> x !in b
    ensures Distinct(a + b)
  {
    var c := a + b;
    forall i, j | 0 <= i < j < |c| ensures c[i] != c[j] {
      assert i < |a| <= j ==> c[i] == a[i] && a[i] in a && c[j] == b[j - |a|] && b[j - |a|] in b;
      assert i >= |a| ==> c[i] == b[i - |a|] && c[j] == b[j - |a|];
    }
  }

  /** All sections written have different names, whatever the checkpoints hold. */
  lemma {:induction false} AllDistinct(cpts: seq<seq<string>>, k: nat)
    requires k <= |cpts| && forall i :: 0 <= i < |cpts| ==> Distinct(cpts[i])
    ensures Distinct(AllNames(cpts, k))
    decreases k
  {
    if k > 0 {
      AllDistinct(cpts, k - 1);
      NewNamesDistinct(cpts[k - 1], k - 1, |cpts|);
      NoneAgain(cpts, k - 1);
      DistinctAppend(AllNames(cpts, k - 1), NewNames(cpts[k - 1], k - 1, |cpts|));
    }
  }

  lemma {:induction false} NoneAgain(cpts: seq<seq<string>>, k: nat)
    requires k < |cpts|
    ensures forall x :: x in AllNames(cpts, k) ==> x !in NewNames(cpts[k], k, |cpts|)
  {
    forall x | x in AllNames(cpts, k) ensures x !in NewNames(cpts[k], k, |cpts|) {
      AllNamesFrom(cpts, k, x);
      NotAgain(cpts, k, x);
    }
  }

  lemma NotAgain(cpts: seq<seq<string>>, k: nat, x: string)
    requires k < |cpts| && exists i :: 0 <= i < k && Origin(x, cpts[i], i, |cpts|)
    ensures x !in NewNames(cpts[k], k, |cpts|)
  {
    var n := |cpts|;
    if x in NewNames(cpts[k], k, n) {
      var i :| 0 <= i < k && Origin(x, cpts[i], i, n);
      NewNamesFrom(cpts[k], k, n, x);
      var a :| 0 <= a < |cpts[i]| && NewName(cpts[i][a], i, n) == [x];
      var b :| 0 <= b < |cpts[k]| && NewName(cpts[k][b], k, n) == [x];
      SameNewName(n, i, cpts[i][a], k, cpts[k][b]);
      assert false;
    }
  }

  lemma {:induction false} CpuHasC(s: string)
    requires 'c' !in s
    ensures !HasCpu(s)
    decreases |s|
  {
    if s != "" {
      CpuHasC(s[1..]);
    }
  }

  /** The two sections added at the end are new as well. */
  lemma ClosingNames(cpts: seq<seq<string>>, x: string)
    requires x in AllNames(cpts, |cpts|)
    ensures x != "system" && x != "Globals"
  {
    AllNamesFrom(cpts, |cpts|, x);
    var i :| 0 <= i < |cpts| && Origin(x, cpts[i], i, |cpts|);
    var m :| 0 <= m < |cpts[i]| && NewName(cpts[i][m], i, |cpts|) == [x];
    NeverClosing(cpts[i][m], i, |cpts|, x);
  }

  lemma {:induction false} NeverClosing(name: string, i: nat, n: nat, x: string)
    requires i < n && NewName(name, i, n) == [x]
    ensures x != "system" && x != "Globals"
  {
    if HasCpu(name) {
      KeepsCpu(name, Tag(i, Width(n)));
      CpuHasC("system");
      CpuHasC("Globals");
    }
  }

  lemma AllAndClosing(cpts: seq<seq<string>>)
    requires forall i :: 0 <= i < |cpts| ==> Distinct(cpts[i])
    ensures Distinct(AllNames(cpts, |cpts|) + ["system", "Globals"])
  {
    var names := AllNames(cpts, |cpts|);
    AllDistinct(cpts, |cpts|);
    forall x | x in names ensures x !in ["system", "Globals"] { ClosingNames(cpts, x); }
    DistinctAppend(names, ["system", "Globals"]);
  }

  /** A name without "cpu", other than the two kept for the end, is written for the last checkpoint as it is. */
  lemma {:induction false} PlainName(names: seq<string>, n: nat, x: string)
    requires n > 0 && !HasCpu(x) && x != "system" && x != "Globals"
    ensures x in NewNames(names, n - 1, n) <==> x in names
    decreases |names|
  {
    if names != [] {
      var m := |names| - 1;
      PlainName(names[..m], n, x);
      KeepsCpu(names[m], Tag(n - 1, Width(n)));
      assert x in NewName(names[m], n - 1, n) <==> x == names[m];
      assert names == names[..m] + [names[m]];
    }
  }
}
