/** Merging checkpoints: sections are renamed, addresses relocated and memories put one after another. */
module Aggregator {
  import opened Common
  import opened Text
  import opened AggregatorNames

  const PAGE: nat := 4096
  const STORE: string := "system.physmem.store0"

  datatype Item = Item(key: string, value: string)

  datatype Section = Section(name: string, items: seq<Item>)

  datatype Checkpoint = Checkpoint(sections: seq<Section>, memory: seq<Byte>)

  // ---------------------------------------------------------------------------------------------
  // Sections
  // ---------------------------------------------------------------------------------------------

  function Lookup(items: seq<Item>, key: string): Option<string>
  {
    if items == [] then None
    else if items[|items| - 1].key == key then Some(items[|items| - 1].value)
    else Lookup(items[..|items| - 1], key)
  }

  /** Set an option: its value is replaced where it stands, a new option goes to the end. */
  function Set(items: seq<Item>, key: string, value: string): seq<Item>
  {
    if items == [] then [Item(key, value)]
    else if items[|items| - 1].key == key then items[..|items| - 1] + [Item(key, value)]
    else if Lookup(items, key).None? then items + [Item(key, value)]
    else Set(items[..|items| - 1], key, value) + [items[|items| - 1]]
  }

  lemma {:induction false} LookupSet(items: seq<Item>, key: string, value: string, x: string)
    ensures Lookup(Set(items, key, value), x) == if x == key then Some(value) else Lookup(items, x)
    decreases |items|
  {
    var out := Set(items, key, value);
    if items != [] {
      var n := |items| - 1;
      if items[n].key == key {
        assert out[..n] == items[..n];
      } else if Lookup(items, key).None? {
        assert out[..n + 1] == items;
      } else {
        LookupSet(items[..n], key, value, x);
        assert out[..|out| - 1] == Set(items[..n], key, value);
      }
    } else {
      assert out[..0] == [];
    }
  }

  /** The value written for an option: a physical address of a processor moves by `base` pages. */
  function NewValue(item: Item, cpu: bool, base: nat): Option<string>
  {
    if cpu && item.key == "paddr" then
      match ParseInt(item.value) case Some(a) => Some(IntStr(a + PAGE * base)) case None => None
    else Some(item.value)
  }

  function Copied(items: seq<Item>, cpu: bool, base: nat): Option<seq<Item>>
  {
    if items == [] then Some([])
    else
      var item := items[|items| - 1];
      var before, value := Copied(items[..|items| - 1], cpu, base), NewValue(item, cpu, base);
      if before.None? || value.None? then None else Some(Set(before.value, item.key, value.value))
  }

  /** Every option of the copy has its new value, and there are no others. */
  lemma {:induction false} CopiedIs(items: seq<Item>, cpu: bool, base: nat, key: string)
    requires Copied(items, cpu, base).Some?
    ensures match Lookup(items, key)
            case None => Lookup(Copied(items, cpu, base).value, key) == None
            case Some(v) => NewValue(Item(key, v), cpu, base).Some? &&
                            Lookup(Copied(items, cpu, base).value, key) == NewValue(Item(key, v), cpu, base)
    decreases |items|
  {
    if items != [] {
      var n := |items| - 1;
      CopiedIs(items[..n], cpu, base, key);
      LookupSet(Copied(items[..n], cpu, base).value, items[n].key, NewValue(items[n], cpu, base).value, key);
      assert items[n] == Item(items[n].key, items[n].value);
    }
  }

  /** The section whose process number is set: its name ends with "workload", any character, "FdMap256". */
  predicate IsFdMap(name: string)
  {
    |name| >= 17 && name[|name| - 8..] == "FdMap256" && name[|name| - 9] != '\n' &&
    name[|name| - 17..|name| - 9] == "workload"
  }

  /** A processor section of checkpoint `i`, as it is written. */
  function Relocated(s: Section, i: nat, n: nat, base: nat): Option<Section>
    requires i < n
  {
    match Copied(s.items, true, base)
    case None => None
    case Some(items) =>
      Some(Section(Rename(s.name, Tag(i, Width(n))), if IsFdMap(s.name) then Set(items, "M5_pid", Str(i)) else items))
  }

  function Tick(s: Section): Option<int>
  {
    match Lookup(s.items, "curTick") case Some(v) => ParseInt(v) case None => None
  }

  /** What is written for one section: nothing for the two kept for the end, or for others than the last. */
  function SectionOut(s: Section, i: nat, n: nat, base: nat): Option<seq<Section>>
    requires i < n
  {
    if HasCpu(s.name) then (match Relocated(s, i, n, base) case Some(t) => Some([t]) case None => None)
    else if s.name == "system" then Some([])
    else if s.name == "Globals" then (if Tick(s).Some? then Some([]) else None)
    else if i != n - 1 then Some([])
    else match Copied(s.items, false, base) case Some(items) => Some([Section(s.name, items)]) case None => None
  }

  function SectionsOut(ss: seq<Section>, i: nat, n: nat, base: nat): Option<seq<Section>>
    requires i < n
  {
    if ss == [] then Some([])
    else
      var before, out := SectionsOut(ss[..|ss| - 1], i, n, base), SectionOut(ss[|ss| - 1], i, n, base);
      if before.None? || out.None? then None else Some(before.value + out.value)
  }

  /** The largest tick of the sections named "Globals", at least `start`. */
  function MaxTick(ss: seq<Section>, start: int): int
  {
    if ss == [] then start
    else
      var before, s := MaxTick(ss[..|ss| - 1], start), ss[|ss| - 1];
      if s.name == "Globals" && Tick(s).Some? && Tick(s).value > before then Tick(s).value else before
  }

  function Names(ss: seq<Section>): seq<string>
  {
    if ss == [] then [] else Names(ss[..|ss| - 1]) + [ss[|ss| - 1].name]
  }

  lemma {:induction false} NamesSnoc(ss: seq<Section>, s: Section)
    ensures Names(ss + [s]) == Names(ss) + [s.name]
  {
    assert (ss + [s])[..|ss|] == ss;
  }

  lemma {:induction false} NamesAppend(a: seq<Section>, b: seq<Section>)
    ensures Names(a + b) == Names(a) + Names(b)
    decreases |b|
  {
    if b == [] {
      assert a + b == a;
    } else {
      var n := |b| - 1;
      NamesAppend(a, b[..n]);
      assert a + b == (a + b[..n]) + [b[n]];
      NamesSnoc(a + b[..n], b[n]);
      Regroup(Names(a), Names(b[..n]), [b[n].name]);
    }
  }

  lemma NameOut(s: Section, i: nat, n: nat, base: nat)
    requires i < n && SectionOut(s, i, n, base).Some?
    ensures Names(SectionOut(s, i, n, base).value) == NewName(s.name, i, n)
  {
    var out := SectionOut(s, i, n, base).value;
    assert |out| == 1 ==> Names(out) == Names(out[..0]) + [out[0].name] && Names(out[..0]) == [];
  }

  lemma {:induction false} NamesOut(ss: seq<Section>, i: nat, n: nat, base: nat)
    requires i < n && SectionsOut(ss, i, n, base).Some?
    ensures Names(SectionsOut(ss, i, n, base).value) == NewNames(Names(ss), i, n)
    decreases |ss|
  {
    if ss != [] {
      var m := |ss| - 1;
      NamesOut(ss[..m], i, n, base);
      NameOut(ss[m], i, n, base);
      NamesAppend(SectionsOut(ss[..m], i, n, base).value, SectionOut(ss[m], i, n, base).value);
      assert Names(ss)[..|Names(ss[..m])|] == Names(ss[..m]);
    }
  }

  lemma OutSnoc(ss: seq<Section>, s: Section, i: nat, n: nat, base: nat)
    requires i < n && SectionsOut(ss + [s], i, n, base).Some?
    ensures SectionsOut(ss, i, n, base).Some? && SectionOut(s, i, n, base).Some?
    ensures SectionsOut(ss + [s], i, n, base).value ==
            SectionsOut(ss, i, n, base).value + SectionOut(s, i, n, base).value
  {
    assert (ss + [s])[..|ss|] == ss;
  }

  /** Every processor section is written. */
  lemma {:induction false} CpuWritten(ss: seq<Section>, i: nat, n: nat, base: nat, s: Section)
    requires i < n && SectionsOut(ss, i, n, base).Some? && s in ss && HasCpu(s.name)
    ensures Relocated(s, i, n, base).Some? && Relocated(s, i, n, base).value in SectionsOut(ss, i, n, base).value
    decreases |ss|
  {
    var head, t := ss[..|ss| - 1], ss[|ss| - 1];
    assert ss == head + [t];
    OutSnoc(head, t, i, n, base);
    if s == t {
      assert SectionOut(s, i, n, base).value == [Relocated(s, i, n, base).value];
    } else {
      CpuWritten(head, i, n, base, s);
    }
  }

  // ---------------------------------------------------------------------------------------------
  // Memory
  // ---------------------------------------------------------------------------------------------

  function Find(ss: seq<Section>, name: string): Option<Section>
  {
    if ss == [] then None
    else if ss[|ss| - 1].name == name then Some(ss[|ss| - 1])
    else Find(ss[..|ss| - 1], name)
  }

  function PagePtr(c: Checkpoint): Option<nat>
  {
    match Find(c.sections, "system")
    case None => None
    case Some(s) => match Lookup(s.items, "pagePtr") case Some(v) => ParseNat(v) case None => None
  }

  function Pages(c: Checkpoint): nat { match PagePtr(c) case Some(p) => p case None => 0 }

  /** The pages of the first `k` checkpoints: where the addresses of checkpoint `k` move to. */
  function PagesBefore(cpts: seq<Checkpoint>, k: nat): nat
    requires k <= |cpts|
  {
    if k == 0 then 0 else PagesBefore(cpts, k - 1) + Pages(cpts[k - 1])
  }

  function Prefix(memory: seq<Byte>, size: nat): seq<Byte> { if |memory| <= size then memory else memory[..size] }

  /** The bytes copied from a checkpoint: its pages, or fewer where its memory file is shorter. */
  function Taken(c: Checkpoint): seq<Byte> { Prefix(c.memory, PAGE * Pages(c)) }

  function Merged(cpts: seq<Checkpoint>, k: nat): seq<Byte>
    requires k <= |cpts|
  {
    if k == 0 then [] else Merged(cpts, k - 1) + Taken(cpts[k - 1])
  }

  /** The memory file holds all pages of the checkpoint. */
  predicate Complete(c: Checkpoint) { |c.memory| >= PAGE * Pages(c) }

  ghost predicate CompleteBefore(cpts: seq<Checkpoint>, k: nat)
    requires k <= |cpts|
  {
    forall i :: 0 <= i < k ==> Complete(cpts[i])
  }

  lemma TakenSize(c: Checkpoint)
    ensures |Taken(c)| <= PAGE * Pages(c)
    ensures |Taken(c)| == PAGE * Pages(c) <==> Complete(c)
  {
  }

  lemma {:induction false} MergedSize(cpts: seq<Checkpoint>, k: nat)
    requires k <= |cpts|
    ensures |Merged(cpts, k)| <= PAGE * PagesBefore(cpts, k)
    ensures |Merged(cpts, k)| == PAGE * PagesBefore(cpts, k) <==> CompleteBefore(cpts, k)
    decreases k
  {
    if k > 0 {
      MergedSize(cpts, k - 1);
      TakenSize(cpts[k - 1]);
      assert CompleteBefore(cpts, k) <==> CompleteBefore(cpts, k - 1) && Complete(cpts[k - 1]);
    }
  }

  ghost predicate HoldsAt(all: seq<Byte>, at: nat, part: seq<Byte>)
  {
    at + |part| <= |all| && all[at..at + |part|] == part
  }

  lemma HoldsAtEnd(a: seq<Byte>, part: seq<Byte>)
    ensures HoldsAt(a + part, |a|, part)
  {
  }

  lemma HoldsLonger(all: seq<Byte>, at: nat, part: seq<Byte>, more: seq<Byte>)
    requires HoldsAt(all, at, part)
    ensures HoldsAt(all + more, at, part)
  {
    assert (all + more)[at..at + |part|] == all[at..at + |part|];
  }

  lemma {:induction false} MergedHolds(cpts: seq<Checkpoint>, k: nat, m: nat)
    requires k < m <= |cpts|
    ensures HoldsAt(Merged(cpts, m), |Merged(cpts, k)|, Taken(cpts[k]))
    decreases m
  {
    if k == m - 1 {
      HoldsAtEnd(Merged(cpts, k), Taken(cpts[k]));
    } else {
      MergedHolds(cpts, k, m - 1);
      HoldsLonger(Merged(cpts, m - 1), |Merged(cpts, k)|, Taken(cpts[k]), Taken(cpts[m - 1]));
    }
  }

  /** How far the bytes of checkpoint `k` stand before the place its addresses move to. */
  function Lag(cpts: seq<Checkpoint>, k: nat): int
    requires k <= |cpts|
  {
    PAGE * PagesBefore(cpts, k) - |Merged(cpts, k)|
  }

  lemma {:induction false} HeldByte(all: seq<Byte>, at: nat, part: seq<Byte>, i: nat)
    requires HoldsAt(all, at, part) && i < |part|
    ensures all[at + i] == part[i]
  {
    assert all[at..at + |part|][i] == all[at + i];
  }

  /**
   * An address of checkpoint `k` finds, at its new place, the byte that stands further on by the
   * bytes missing from earlier memory files. It finds its own byte exactly when none is missing.
   */
  lemma {:induction false} RelocationExact(cpts: seq<Checkpoint>, k: nat, address: nat)
    requires k < |cpts|
    ensures Lag(cpts, k) >= 0 && (Lag(cpts, k) == 0 <==> CompleteBefore(cpts, k))
    ensures address + Lag(cpts, k) < |Taken(cpts[k])| ==>
      && address + PAGE * PagesBefore(cpts, k) < |Merged(cpts, |cpts|)|
      && Merged(cpts, |cpts|)[address + PAGE * PagesBefore(cpts, k)] == Taken(cpts[k])[address + Lag(cpts, k)]
  {
    MergedSize(cpts, k);
    MergedHolds(cpts, k, |cpts|);
    if address + Lag(cpts, k) < |Taken(cpts[k])| {
      HeldByte(Merged(cpts, |cpts|), |Merged(cpts, k)|, Taken(cpts[k]), address + Lag(cpts, k));
    }
  }

  /** An address within the pages of a checkpoint finds the same byte at its new place. */
  lemma SameByte(cpts: seq<Checkpoint>, k: nat, address: nat)
    requires k < |cpts| && CompleteBefore(cpts, k)
    requires address < PAGE * Pages(cpts[k]) && address < |cpts[k].memory|
    ensures address + PAGE * PagesBefore(cpts, k) < |Merged(cpts, |cpts|)|
    ensures Merged(cpts, |cpts|)[address + PAGE * PagesBefore(cpts, k)] == cpts[k].memory[address]
  {
    RelocationExact(cpts, k, address);
    assert Taken(cpts[k])[address] == cpts[k].memory[address];
  }

  function OnePage(memory: seq<Byte>): Checkpoint
  {
    Checkpoint([Section("system", [Item("pagePtr", "1")])], memory)
  }

  lemma {:induction false} OnePageIs(memory: seq<Byte>)
    ensures Pages(OnePage(memory)) == 1 && Taken(OnePage(memory)) == Prefix(memory, PAGE)
  {
    var ss := OnePage(memory).sections;
    assert ss[|ss| - 1].name == "system" && Find(ss, "system") == Some(ss[0]);
    assert Lookup(ss[0].items, "pagePtr") == Some("1");
    ParseStr(1);
    assert Str(1) == "1";
  }

  /** One byte missing from the first memory file: address 0 of the second one finds the byte of address 1. */
  lemma {:induction false} ShortFileMisplaces(first: seq<Byte>, second: seq<Byte>)
    requires |first| == PAGE - 1 && |second| == PAGE && second[0] != second[1]
    ensures var cpts := [OnePage(first), OnePage(second)];
      && !CompleteBefore(cpts, 1) && PAGE * PagesBefore(cpts, 1) < |Merged(cpts, 2)|
      && Merged(cpts, 2)[PAGE * PagesBefore(cpts, 1)] == second[1] != second[0]
  {
    var cpts := [OnePage(first), OnePage(second)];
    OnePageIs(first);
    OnePageIs(second);
    assert Merged(cpts, 0) == [] && PagesBefore(cpts, 0) == 0;
    assert Merged(cpts, 1) == [] + Taken(cpts[0]) && PagesBefore(cpts, 1) == 1;
    assert !Complete(cpts[0]);
    RelocationExact(cpts, 1, 0);
  }

  /** The new addresses of different checkpoints never meet. */
  lemma {:induction false} RangesDisjoint(cpts: seq<Checkpoint>, i: nat, j: nat)
    requires i < j <= |cpts|
    ensures PagesBefore(cpts, i) + Pages(cpts[i]) <= PagesBefore(cpts, j)
    decreases j
  {
    if i < j - 1 {
      RangesDisjoint(cpts, i, j - 1);
    }
  }

  /** Two checkpoints share a new address only if they are the same. */
  lemma {:induction false} AddressesDiffer(cpts: seq<Checkpoint>, i: nat, a: nat, j: nat, b: nat)
    requires i < |cpts| && j < |cpts| && a < PAGE * Pages(cpts[i]) && b < PAGE * Pages(cpts[j])
    requires a + PAGE * PagesBefore(cpts, i) == b + PAGE * PagesBefore(cpts, j)
    ensures i == j && a == b
  {
    if i < j {
      RangesDisjoint(cpts, i, j);
    } else if j < i {
      RangesDisjoint(cpts, j, i);
    }
  }

  // ---------------------------------------------------------------------------------------------
  // The loops
  // ---------------------------------------------------------------------------------------------

  /** Read a memory file page by page; reading stops yielding bytes at the end of the file. */
  method CopyPages(memory: seq<Byte>, pages: nat) returns (copied: seq<Byte>)
    ensures copied == Prefix(memory, PAGE * pages)
  {
    copied := [];
    var pos: nat := 0;
    for x := 0 to pages
      invariant pos <= |memory| && pos == |Prefix(memory, PAGE * x)| && copied == memory[..pos]
    {
      var end := if pos + PAGE <= |memory| then pos + PAGE else |memory|;
      copied := copied + memory[pos..end];
      pos := end;
    }
  }

  method CopyItems(items: seq<Item>, cpu: bool, base: nat) returns (out: Option<seq<Item>>)
    ensures out == Copied(items, cpu, base)
  {
    var copy: seq<Item> := [];
    for j := 0 to |items|
      invariant Copied(items[..j], cpu, base) == Some(copy)
    {
      assert items[..j + 1][..j] == items[..j];
      var value := NewValue(items[j], cpu, base);
      if value.None? {
        CopyFails(items, cpu, base, j + 1);
        return None;
      }
      copy := Set(copy, items[j].key, value.value);
    }
    assert items[..|items|] == items;
    return Some(copy);
  }

  lemma {:induction false} CopyFails(items: seq<Item>, cpu: bool, base: nat, j: nat)
    requires j <= |items| && Copied(items[..j], cpu, base).None?
    ensures Copied(items, cpu, base).None?
    decreases |items| - j
  {
    if j < |items| {
      assert items[..j + 1][..j] == items[..j];
      CopyFails(items, cpu, base, j + 1);
    } else {
      assert items[..j] == items;
    }
  }

  /** One section of checkpoint `i`. */
  method MergeSection(s: Section, i: nat, n: nat, base: nat) returns (out: Option<seq<Section>>)
    requires i < n
    ensures out == SectionOut(s, i, n, base)
  {
    if HasCpu(s.name) {
      var items := CopyItems(s.items, true, base);
      if items.None? {
        return None;
      }
      var all := if IsFdMap(s.name) then Set(items.value, "M5_pid", Str(i)) else items.value;
      return Some([Section(Rename(s.name, Tag(i, Width(n))), all)]);
    }
    if s.name == "system" {
      return Some([]);
    }
    if s.name == "Globals" {
      return if Tick(s).Some? then Some([]) else None;
    }
    if i != n - 1 {
      return Some([]);
    }
    var items := CopyItems(s.items, false, base);
    return if items.Some? then Some([Section(s.name, items.value)]) else None;
  }

  /** The sections of checkpoint `i`; `tick` is the largest tick so far. */
  method MergeSections(ss: seq<Section>, i: nat, n: nat, base: nat, tick: int)
      returns (out: Option<seq<Section>>, maxTick: int)
    requires i < n
    ensures out == SectionsOut(ss, i, n, base)
    ensures out.Some? ==> maxTick == MaxTick(ss, tick)
  {
    var merged: seq<Section> := [];
    maxTick := tick;
    for j := 0 to |ss|
      invariant SectionsOut(ss[..j], i, n, base) == Some(merged) && maxTick == MaxTick(ss[..j], tick)
    {
      assert ss[..j + 1][..j] == ss[..j];
      var one := MergeSection(ss[j], i, n, base);
      if one.None? {
        MergeFails(ss, i, n, base, j + 1);
        return None, maxTick;
      }
      merged := merged + one.value;
      if ss[j].name == "Globals" && Tick(ss[j]).Some? && Tick(ss[j]).value > maxTick {
        maxTick := Tick(ss[j]).value;
      }
    }
    assert ss[..|ss|] == ss;
    out := Some(merged);
  }

  lemma {:induction false} MergeFails(ss: seq<Section>, i: nat, n: nat, base: nat, j: nat)
    requires i < n && j <= |ss| && SectionsOut(ss[..j], i, n, base).None?
    ensures SectionsOut(ss, i, n, base).None?
    decreases |ss| - j
  {
    if j < |ss| {
      assert ss[..j + 1][..j] == ss[..j];
      MergeFails(ss, i, n, base, j + 1);
    } else {
      assert ss[..j] == ss;
    }
  }

  /** Fill the memory with pages of the character "0" up to the size asked for. */
  method Pad(memory: seq<Byte>, pages: nat, size: int) returns (padded: seq<Byte>, allPages: nat)
    ensures pages <= allPages && size <= PAGE * allPages
    ensures pages < allPages ==> PAGE * (allPages - 1) < size
    ensures |padded| == |memory| + PAGE * (allPages - pages) && padded[..|memory|] == memory
    ensures forall i :: |memory| <= i < |padded| ==> padded[i] == 48
  {
    padded, allPages := memory, pages;
    var fileSize := PAGE * pages;
    var page := seq(PAGE, i => 48);
    while fileSize < size
      invariant pages <= allPages && fileSize == PAGE * allPages
      invariant pages < allPages ==> PAGE * (allPages - 1) < size
      invariant |padded| == |memory| + PAGE * (allPages - pages) && padded[..|memory|] == memory
      invariant forall i :: |memory| <= i < |padded| ==> padded[i] == 48
      decreases size - fileSize
    {
      padded := padded + page;
      fileSize, allPages := fileSize + PAGE, allPages + 1;
    }
  }

  // ---------------------------------------------------------------------------------------------
  // The whole merge
  // ---------------------------------------------------------------------------------------------

  /** What is written for the first `k` checkpoints, or nothing if one of them cannot be read. */
  function Configs(cpts: seq<Checkpoint>, k: nat): Option<seq<Section>>
    requires k <= |cpts|
  {
    if k == 0 then Some([])
    else
      var before, out := Configs(cpts, k - 1), OutOf(cpts, k - 1);
      if before.None? || out.None? then None else Some(before.value + out.value)
  }

  function OutOf(cpts: seq<Checkpoint>, i: nat): Option<seq<Section>>
    requires i < |cpts|
  {
    if PagePtr(cpts[i]).None? then None else SectionsOut(cpts[i].sections, i, |cpts|, PagesBefore(cpts, i))
  }

  function NameLists(cpts: seq<Checkpoint>): (r: seq<seq<string>>)
    ensures |r| == |cpts| && forall i :: 0 <= i < |cpts| ==> r[i] == Names(cpts[i].sections)
  {
    seq(|cpts|, i requires 0 <= i < |cpts| => Names(cpts[i].sections))
  }

  function TickAll(cpts: seq<Checkpoint>, k: nat): int
    requires k <= |cpts|
  {
    if k == 0 then 0 else MaxTick(cpts[k - 1].sections, TickAll(cpts, k - 1))
  }

  /** Some section named "Globals" of the first `k` checkpoints has this tick. */
  ghost predicate HasTick(cpts: seq<Checkpoint>, k: nat, tick: int)
    requires k <= |cpts|
  {
    exists i, s :: 0 <= i < k && s in cpts[i].sections && TickIs(s, tick)
  }

  ghost predicate TickIs(s: Section, tick: int)
  {
    s.name == "Globals" && Lookup(s.items, "curTick").Some? && ParseInt(Lookup(s.items, "curTick").value) == Some(tick)
  }

  lemma {:induction false} MaxTickIs(ss: seq<Section>, start: int, tick: int)
    ensures start <= MaxTick(ss, start)
    ensures (exists s :: s in ss && TickIs(s, tick)) ==> tick <= MaxTick(ss, start)
    ensures MaxTick(ss, start) == start || exists s :: s in ss && TickIs(s, MaxTick(ss, start))
    decreases |ss|
  {
    if ss != [] {
      var head, t := ss[..|ss| - 1], ss[|ss| - 1];
      assert ss == head + [t];
      MaxTickIs(head, start, tick);
      assert MaxTick(ss, start) != MaxTick(head, start) ==> t in ss && TickIs(t, MaxTick(ss, start));
    }
  }

  /** The tick written is the largest of all checkpoints, and zero only if none is larger. */
  lemma {:induction false} TickAllIs(cpts: seq<Checkpoint>, k: nat, tick: int)
    requires k <= |cpts|
    ensures 0 <= TickAll(cpts, k) && (HasTick(cpts, k, tick) ==> tick <= TickAll(cpts, k))
    ensures TickAll(cpts, k) == 0 || HasTick(cpts, k, TickAll(cpts, k))
    decreases k
  {
    if k > 0 {
      TickAllIs(cpts, k - 1, tick);
      MaxTickIs(cpts[k - 1].sections, TickAll(cpts, k - 1), tick);
    }
  }

  lemma {:induction false} OutNames(cpts: seq<Checkpoint>, i: nat)
    requires i < |cpts| && OutOf(cpts, i).Some?
    ensures Names(OutOf(cpts, i).value) == NewNames(NameLists(cpts)[i], i, |cpts|)
  {
    NamesOut(cpts[i].sections, i, |cpts|, PagesBefore(cpts, i));
  }

  lemma {:induction false} ConfigSnoc(cpts: seq<Checkpoint>, k: nat)
    requires 0 < k <= |cpts| && Configs(cpts, k).Some?
    ensures Configs(cpts, k - 1).Some? && OutOf(cpts, k - 1).Some?
    ensures Names(Configs(cpts, k).value) == Names(Configs(cpts, k - 1).value) + Names(OutOf(cpts, k - 1).value)
  {
    NamesAppend(Configs(cpts, k - 1).value, OutOf(cpts, k - 1).value);
  }

  ghost predicate NamesMatch(cpts: seq<Checkpoint>, k: nat)
    requires k <= |cpts|
  {
    Configs(cpts, k).Some? && Names(Configs(cpts, k).value) == AllNames(NameLists(cpts), k)
  }

  lemma {:induction false} NamesMatchNext(cpts: seq<Checkpoint>, k: nat)
    requires k < |cpts| && NamesMatch(cpts, k) && Configs(cpts, k + 1).Some?
    ensures NamesMatch(cpts, k + 1)
  {
    ConfigSnoc(cpts, k + 1);
    OutNames(cpts, k);
  }

  lemma {:induction false} ConfigNames(cpts: seq<Checkpoint>, k: nat)
    requires k <= |cpts| && Configs(cpts, k).Some?
    ensures NamesMatch(cpts, k)
    decreases k
  {
    if k == 0 {
      assert Configs(cpts, 0).value == [];
    } else {
      ConfigNames(cpts, k - 1);
      NamesMatchNext(cpts, k - 1);
    }
  }

  /** Section `s` of checkpoint `i` is in `config` under its new name, with its address relocated. */
  ghost predicate Written(cpts: seq<Checkpoint>, i: nat, s: Section, config: seq<Section>)
    requires i < |cpts|
  {
    var out := Relocated(s, i, |cpts|, PagesBefore(cpts, i));
    out.Some? && out.value in config
  }

  lemma {:induction false} ConfigHolds(cpts: seq<Checkpoint>, k: nat, i: nat, s: Section)
    requires i < k <= |cpts| && Configs(cpts, k).Some? && s in cpts[i].sections && HasCpu(s.name)
    ensures Written(cpts, i, s, Configs(cpts, k).value)
    decreases k
  {
    if i == k - 1 {
      CpuWritten(cpts[i].sections, i, |cpts|, PagesBefore(cpts, i), s);
    } else {
      ConfigHolds(cpts, k - 1, i, s);
    }
  }

  /** Set an option of the section called `name`. */
  function WithOption(ss: seq<Section>, name: string, key: string, value: string): seq<Section>
  {
    if ss == [] then []
    else
      var s := ss[|ss| - 1];
      WithOption(ss[..|ss| - 1], name, key, value) +
      [if s.name == name then Section(name, Set(s.items, key, value)) else s]
  }

  lemma {:induction false} WithOptionKeeps(ss: seq<Section>, name: string, key: string, value: string)
    ensures Names(WithOption(ss, name, key, value)) == Names(ss)
    ensures forall s :: s in ss && s.name != name ==> s in WithOption(ss, name, key, value)
    decreases |ss|
  {
    if ss != [] {
      var n := |ss| - 1;
      WithOptionKeeps(ss[..n], name, key, value);
      var out := WithOption(ss, name, key, value);
      assert out[..n] == WithOption(ss[..n], name, key, value) by { WithOptionSize(ss[..n], name, key, value); }
      assert Names(out) == Names(out[..n]) + [out[n].name];
    }
  }

  lemma {:induction false} WithOptionSize(ss: seq<Section>, name: string, key: string, value: string)
    ensures |WithOption(ss, name, key, value)| == |ss|
    decreases |ss|
  {
    if ss != [] {
      WithOptionSize(ss[..|ss| - 1], name, key, value);
    }
  }

  /** The checkpoint can be merged: it has a page count, and its addresses and ticks are numbers. */
  ghost predicate Readable(c: Checkpoint)
  {
    PagePtr(c).Some? && forall s :: s in c.sections ==> SectionReadable(s)
  }

  ghost predicate SectionReadable(s: Section)
  {
    if HasCpu(s.name) then forall item :: item in s.items && item.key == "paddr" ==> ParseInt(item.value).Some?
    else s.name == "Globals" ==> exists tick :: TickIs(s, tick)
  }

  lemma {:induction false} CopiedExactly(items: seq<Item>, cpu: bool, base: nat)
    ensures Copied(items, cpu, base).Some? <==>
            !cpu || forall item :: item in items && item.key == "paddr" ==> ParseInt(item.value).Some?
    decreases |items|
  {
    if items != [] {
      CopiedExactly(items[..|items| - 1], cpu, base);
      assert items == items[..|items| - 1] + [items[|items| - 1]];
    }
  }

  lemma {:induction false} TickReads(s: Section)
    ensures s.name == "Globals" ==> (Tick(s).Some? <==> exists tick :: TickIs(s, tick))
  {
    if s.name == "Globals" && Tick(s).Some? {
      assert TickIs(s, Tick(s).value);
    }
  }

  lemma {:induction false} SectionsExactly(ss: seq<Section>, i: nat, n: nat, base: nat)
    requires i < n
    ensures SectionsOut(ss, i, n, base).Some? <==> forall s :: s in ss ==> SectionReadable(s)
    decreases |ss|
  {
    if ss != [] {
      var head, t := ss[..|ss| - 1], ss[|ss| - 1];
      SectionsExactly(head, i, n, base);
      CopiedExactly(t.items, HasCpu(t.name), base);
      TickReads(t);
      assert SectionOut(t, i, n, base).Some? <==> SectionReadable(t);
      assert ss == head + [t];
    }
  }

  lemma OutExactly(cpts: seq<Checkpoint>, i: nat)
    requires i < |cpts|
    ensures OutOf(cpts, i).Some? <==> Readable(cpts[i])
  {
    SectionsExactly(cpts[i].sections, i, |cpts|, PagesBefore(cpts, i));
  }

  ghost predicate AllReadable(cpts: seq<Checkpoint>, k: nat)
    requires k <= |cpts|
  {
    forall i :: 0 <= i < k ==> Readable(cpts[i])
  }

  lemma {:induction false} ConfigsExactly(cpts: seq<Checkpoint>, k: nat)
    requires k <= |cpts|
    ensures Configs(cpts, k).Some? <==> AllReadable(cpts, k)
    decreases k
  {
    if k > 0 {
      ConfigsExactly(cpts, k - 1);
      OutExactly(cpts, k - 1);
      assert AllReadable(cpts, k) <==> AllReadable(cpts, k - 1) && Readable(cpts[k - 1]);
    }
  }

  datatype Output = Output(config: seq<Section>, memory: seq<Byte>)

  /** The state of the loop after `k` checkpoints. */
  ghost predicate MergedSoFar(cpts: seq<Checkpoint>, k: nat, written: seq<Section>, last: seq<Section>,
                              memory: seq<Byte>, pages: nat, tick: int)
  {
    && k <= |cpts| && Configs(cpts, k) == Some(written + last)
    && (if k < |cpts| then last == [] else k > 0 ==> OutOf(cpts, k - 1) == Some(last))
    && memory == Merged(cpts, k) && pages == PagesBefore(cpts, k) && tick == TickAll(cpts, k)
  }

  lemma {:induction false} MergeStep(cpts: seq<Checkpoint>, k: nat, written: seq<Section>, memory: seq<Byte>,
                                     pages: nat, tick: int, out: seq<Section>)
    requires k < |cpts| && MergedSoFar(cpts, k, written, [], memory, pages, tick) && OutOf(cpts, k) == Some(out)
    ensures MergedSoFar(cpts, k + 1, if k == |cpts| - 1 then written else written + out,
                        if k == |cpts| - 1 then out else [], memory + Taken(cpts[k]),
                        pages + Pages(cpts[k]), MaxTick(cpts[k].sections, tick))
  {
    assert written + [] == written && written + out + [] == written + out;
  }

  /** The loop over the checkpoints; `written` are the sections written, `last` those still open. */
  method MergeAll(cpts: seq<Checkpoint>)
      returns (ok: bool, written: seq<Section>, last: seq<Section>, memory: seq<Byte>, pages: nat, tick: int)
    requires cpts != []
    ensures ok <==> AllReadable(cpts, |cpts|)
    ensures ok ==> MergedSoFar(cpts, |cpts|, written, last, memory, pages, tick)
  {
    ok, written, last, memory, pages, tick := true, [], [], [], 0, 0;
    var n := |cpts|;
    assert written + last == [];
    for i := 0 to n
      invariant MergedSoFar(cpts, i, written, last, memory, pages, tick)
    {
      OutExactly(cpts, i);
      ghost var before := tick;
      var out;
      out, tick := MergeSections(cpts[i].sections, i, n, pages, tick);
      if out.None? {
        return false, written, last, memory, pages, tick;
      }
      var count := PagePtr(cpts[i]);
      if count.None? {
        return false, written, last, memory, pages, tick;
      }
      MergeStep(cpts, i, written, memory, pages, before, out.value);
      if i != n - 1 {
        written := written + out.value;
      } else {
        last := out.value;
      }
      pages := pages + count.value;
      var copied := CopyPages(cpts[i].memory, count.value);
      memory := memory + copied;
    }
    ConfigsExactly(cpts, n);
  }

  /** Every processor section of every checkpoint is in `config`. */
  ghost predicate AllWritten(cpts: seq<Checkpoint>, config: seq<Section>)
  {
    forall i, s :: 0 <= i < |cpts| && s in cpts[i].sections && HasCpu(s.name) ==> Written(cpts, i, s, config)
  }

  ghost predicate HasOption(config: seq<Section>, name: string, key: string, value: string)
  {
    exists s :: s in config && s.name == name && Lookup(s.items, key) == Some(value)
  }

  lemma {:induction false} WithOptionSets(ss: seq<Section>, name: string, key: string, value: string)
    requires name in Names(ss)
    ensures HasOption(WithOption(ss, name, key, value), name, key, value)
    decreases |ss|
  {
    var n := |ss| - 1;
    var out, s := WithOption(ss, name, key, value), ss[n];
    if s.name == name {
      LookupSet(s.items, key, value, key);
      assert out[|out| - 1] in out;
    } else {
      WithOptionSets(ss[..n], name, key, value);
      var t :| t in WithOption(ss[..n], name, key, value) && t.name == name && Lookup(t.items, key) == Some(value);
      assert t in out;
    }
  }

  lemma {:induction false} StillIn(s: Section, written: seq<Section>, last: seq<Section>, value: string,
                                   more: seq<Section>)
    requires s in written + last && s.name != STORE
    ensures s in written + WithOption(last, STORE, "range_size", value) + more
  {
    WithOptionKeeps(last, STORE, "range_size", value);
  }

  lemma {:induction false} StillWritten(cpts: seq<Checkpoint>, i: nat, s: Section, written: seq<Section>,
                                        last: seq<Section>, value: string, more: seq<Section>)
    requires i < |cpts| && HasCpu(s.name) && Written(cpts, i, s, written + last)
    ensures Written(cpts, i, s, written + WithOption(last, STORE, "range_size", value) + more)
  {
    KeepsCpu(s.name, Tag(i, Width(|cpts|)));
    StoreIsPlain();
    StillIn(Relocated(s, i, |cpts|, PagesBefore(cpts, i)).value, written, last, value, more);
  }

  /** The configuration that is written: the sections of the checkpoints, the range set, and two more. */
  function Closed(written: seq<Section>, last: seq<Section>, pages: nat, n: nat, range: nat, tick: int): seq<Section>
  {
    written + WithOption(last, STORE, "range_size", Str(range)) +
    [Section("system", [Item("pagePtr", Str(pages)), Item("nextPID", Str(n))]),
     Section("Globals", [Item("curTick", IntStr(tick))])]
  }

  /** The closing sections: all pages, the number of checkpoints and the largest tick. */
  ghost predicate Closes(config: seq<Section>, pages: nat, n: nat, tick: int)
  {
    && Section("system", [Item("pagePtr", Str(pages)), Item("nextPID", Str(n))]) in config
    && Section("Globals", [Item("curTick", IntStr(tick))]) in config
  }

  /** A section of the last checkpoint that is written as it is. */
  ghost predicate Plain(s: Section)
  {
    !HasCpu(s.name) && s.name != "system" && s.name != "Globals" && s.name != STORE
  }

  /** Every such section is in `config`, with the same options. */
  ghost predicate LastWritten(ss: seq<Section>, config: seq<Section>)
  {
    forall s :: s in ss && Plain(s) ==> CopyOf(s) in config
  }

  ghost function CopyOf(s: Section): Section
  {
    match Copied(s.items, false, 0) case Some(items) => Section(s.name, items) case None => s
  }

  lemma {:induction false} PlainCopy(items: seq<Item>, base: nat)
    ensures Copied(items, false, base) == Copied(items, false, 0)
    decreases |items|
  {
    if items != [] {
      PlainCopy(items[..|items| - 1], base);
    }
  }

  lemma {:induction false} PlainWritten(ss: seq<Section>, n: nat, base: nat, s: Section)
    requires n > 0 && SectionsOut(ss, n - 1, n, base).Some? && s in ss
    requires !HasCpu(s.name) && s.name != "system" && s.name != "Globals"
    ensures CopyOf(s) in SectionsOut(ss, n - 1, n, base).value
    decreases |ss|
  {
    var head, t := ss[..|ss| - 1], ss[|ss| - 1];
    assert ss == head + [t];
    OutSnoc(head, t, n - 1, n, base);
    if s == t {
      PlainCopy(s.items, base);
      assert SectionOut(s, n - 1, n, base).value == [CopyOf(s)];
    } else {
      PlainWritten(head, n, base, s);
    }
  }

  lemma {:induction false} ClosedLast(cpts: seq<Checkpoint>, written: seq<Section>, last: seq<Section>, pages: nat,
                                      range: nat, tick: int)
    requires cpts != [] && OutOf(cpts, |cpts| - 1) == Some(last)
    ensures LastWritten(cpts[|cpts| - 1].sections, Closed(written, last, pages, |cpts|, range, tick))
  {
    var ss, n := cpts[|cpts| - 1].sections, |cpts|;
    forall s | s in ss && Plain(s) ensures CopyOf(s) in Closed(written, last, pages, n, range, tick) {
      PlainWritten(ss, n, PagesBefore(cpts, n - 1), s);
      StillIn(CopyOf(s), written, last, Str(range),
              [Section("system", [Item("pagePtr", Str(pages)), Item("nextPID", Str(n))]),
               Section("Globals", [Item("curTick", IntStr(tick))])]);
    }
  }

  lemma {:induction false} ClosedNames(cpts: seq<Checkpoint>, written: seq<Section>, last: seq<Section>, pages: nat,
                                       range: nat, tick: int)
    requires Configs(cpts, |cpts|) == Some(written + last)
    requires forall i :: 0 <= i < |cpts| ==> Distinct(Names(cpts[i].sections))
    ensures Names(Closed(written, last, pages, |cpts|, range, tick)) ==
            AllNames(NameLists(cpts), |cpts|) + ["system", "Globals"]
    ensures Distinct(Names(Closed(written, last, pages, |cpts|, range, tick)))
  {
    var ranged := WithOption(last, STORE, "range_size", Str(range));
    var a := Section("system", [Item("pagePtr", Str(pages)), Item("nextPID", Str(|cpts|))]);
    var b := Section("Globals", [Item("curTick", IntStr(tick))]);
    ConfigNames(cpts, |cpts|);
    WithOptionKeeps(last, STORE, "range_size", Str(range));
    NamesAppend(written, last);
    NamesAppend(written, ranged);
    NamesAppend(written + ranged, [a, b]);
    TwoNames(a, b);
    AllAndClosing(NameLists(cpts));
  }

  lemma TwoNames(a: Section, b: Section)
    ensures Names([a, b]) == [a.name, b.name]
  {
    assert [a, b][..1] == [a] && [a][..0] == [];
    assert Names([a]) == Names([]) + [a.name];
  }

  lemma {:induction false} ClosedWritten(cpts: seq<Checkpoint>, written: seq<Section>, last: seq<Section>, pages: nat,
                                         range: nat, tick: int)
    requires Configs(cpts, |cpts|) == Some(written + last)
    ensures AllWritten(cpts, Closed(written, last, pages, |cpts|, range, tick))
  {
    var config := Closed(written, last, pages, |cpts|, range, tick);
    forall i, s | 0 <= i < |cpts| && s in cpts[i].sections && HasCpu(s.name) ensures Written(cpts, i, s, config) {
      ConfigHolds(cpts, |cpts|, i, s);
      StillWritten(cpts, i, s, written, last, Str(range),
                   [Section("system", [Item("pagePtr", Str(pages)), Item("nextPID", Str(|cpts|))]),
                    Section("Globals", [Item("curTick", IntStr(tick))])]);
    }
  }

  /** The merged memory, filled up with the fewest pages that reach the size asked for. */
  ghost predicate Padded(cpts: seq<Checkpoint>, size: int, memory: seq<Byte>, allPages: nat)
  {
    var merged, pages := Merged(cpts, |cpts|), PagesBefore(cpts, |cpts|);
    && pages <= allPages && size <= PAGE * allPages && (pages < allPages ==> PAGE * (allPages - 1) < size)
    && |memory| == |merged| + PAGE * (allPages - pages) && memory[..|merged|] == merged
    && forall i :: |merged| <= i < |memory| ==> memory[i] == 48
  }

  /** The merged memory has so many pages, and its size is in the configuration. */
  ghost predicate Recorded(cpts: seq<Checkpoint>, size: int, out: Output, pages: nat)
  {
    && Padded(cpts, size, out.memory, pages)
    && HasOption(out.config, "system.physmem.store0", "range_size", Str(PAGE * pages))
  }

  ghost predicate Mergeable(cpts: seq<Checkpoint>)
  {
    cpts != [] && AllReadable(cpts, |cpts|) && "system.physmem.store0" in Names(cpts[|cpts| - 1].sections)
  }

  lemma StoreIsPlain()
    ensures !HasCpu(STORE) && STORE != "system" && STORE != "Globals"
  {
    CpuHasC(STORE);
    assert |STORE| == 21;
  }

  lemma {:induction false} StoreKept(ss: seq<Section>, n: nat, base: nat, last: seq<Section>)
    requires n > 0 && SectionsOut(ss, n - 1, n, base) == Some(last)
    ensures STORE in Names(last) <==> STORE in Names(ss)
  {
    NamesOut(ss, n - 1, n, base);
    StoreIsPlain();
    PlainName(Names(ss), n, STORE);
  }

  // ---------------------------------------------------------------------------------------------
  // What the merged configuration says, option by option
  // ---------------------------------------------------------------------------------------------

  ghost predicate EndsInFdMap(name: string)
  {
    var k := |name| - 17;
    k >= 0 && name[k + 8] != '\n' && name == name[..k] + "workload" + [name[k + 8]] + "FdMap256"
  }

  /** The option says this number. */
  ghost predicate Reads(s: Section, key: string, n: int)
  {
    Lookup(s.items, key).Some? && ParseInt(Lookup(s.items, key).value) == Some(n)
  }

  /** An option of a processor section as it is written: a physical address moves by the pages before,
      the process number of the descriptor table is that of the checkpoint, all else is kept. */
  ghost predicate OptionMoved(s: Section, out: Section, i: nat, base: nat, key: string)
  {
    if key == "M5_pid" && EndsInFdMap(s.name) then Reads(out, key, i)
    else if key == "paddr" && Lookup(s.items, key).Some? then
      exists a :: Reads(s, key, a) && Reads(out, key, a + 4096 * base)
    else Lookup(out.items, key) == Lookup(s.items, key)
  }

  ghost predicate OptionsMoved(s: Section, out: Section, i: nat, base: nat)
  {
    forall key :: OptionMoved(s, out, i, base, key)
  }

  /** `t` is the section in the configuration for section `s` of checkpoint `i`. */
  ghost predicate MovedTo(cpts: seq<Checkpoint>, i: nat, s: Section, config: seq<Section>, t: Section)
    requires i < |cpts|
  {
    t in config && NumberedName(s.name, i, |cpts|, t.name) && OptionsMoved(s, t, i, PagesBefore(cpts, i))
  }

  /** Processor section `s` of checkpoint `i` is in the configuration, under its number. */
  ghost predicate Moved(cpts: seq<Checkpoint>, i: nat, s: Section, config: seq<Section>)
    requires i < |cpts|
  {
    exists t :: MovedTo(cpts, i, s, config, t)
  }

  ghost predicate AllMoved(cpts: seq<Checkpoint>, config: seq<Section>)
  {
    forall i, s :: 0 <= i < |cpts| && s in cpts[i].sections && HasCpu(s.name) ==> Moved(cpts, i, s, config)
  }

  /** A section of the last checkpoint is in the configuration with the same options; only the size of
      the memory is new. */
  ghost predicate Kept(s: Section, config: seq<Section>)
  {
    exists out :: out in config && out.name == s.name &&
      forall key :: (s.name == STORE ==> key != "range_size") ==> Lookup(out.items, key) == Lookup(s.items, key)
  }

  ghost predicate AllKept(ss: seq<Section>, config: seq<Section>)
  {
    forall s :: s in ss && !HasCpu(s.name) && s.name != "system" && s.name != "Globals" ==> Kept(s, config)
  }

  lemma {:induction false} FdMapIs(name: string)
    ensures IsFdMap(name) <==> EndsInFdMap(name)
  {
    var k := |name| - 17;
    if k >= 0 {
      var whole := name[..k] + name[k..k + 8] + [name[k + 8]] + name[k + 9..];
      assert name == whole;
      if EndsInFdMap(name) {
        var built := name[..k] + "workload" + [name[k + 8]] + "FdMap256";
        assert built[k..k + 8] == "workload" && built[k + 9..] == "FdMap256";
      }
    }
  }

  lemma {:induction false} ItemMoves(items: seq<Item>, base: nat, key: string)
    requires Copied(items, true, base).Some?
    ensures var s, out := Section("", items), Section("", Copied(items, true, base).value);
      if key == "paddr" && Lookup(items, key).Some? then
        exists a :: Reads(s, key, a) && Reads(out, key, a + 4096 * base)
      else Lookup(out.items, key) == Lookup(items, key)
  {
    CopiedIs(items, true, base, key);
    if key == "paddr" && Lookup(items, key).Some? {
      var a := ParseInt(Lookup(items, key).value).value;
      assert Lookup(Copied(items, true, base).value, key) == Some(IntStr(a + 4096 * base));
      ParseIntStr(a + 4096 * base);
      assert Reads(Section("", items), key, a);
    }
  }

  lemma {:induction false} OptionMoves(s: Section, i: nat, n: nat, base: nat, key: string)
    requires i < n && Relocated(s, i, n, base).Some?
    ensures OptionMoved(s, Relocated(s, i, n, base).value, i, base, key)
  {
    var items := Copied(s.items, true, base).value;
    var out := Relocated(s, i, n, base).value;
    FdMapIs(s.name);
    ItemMoves(s.items, base, key);
    LookupSet(items, "M5_pid", Str(i), key);
    ParseIntStr(i);
    assert Lookup(out.items, key) == if key == "M5_pid" && IsFdMap(s.name) then Some(Str(i)) else Lookup(items, key);
    if key == "paddr" && Lookup(s.items, key).Some? {
      var a :| Reads(Section("", s.items), key, a) && Reads(Section("", items), key, a + 4096 * base);
      assert Reads(s, key, a) && Reads(out, key, a + 4096 * base);
    }
  }

  lemma {:induction false} WrittenIsMoved(cpts: seq<Checkpoint>, i: nat, s: Section, config: seq<Section>)
    requires i < |cpts| && Written(cpts, i, s, config)
    ensures Moved(cpts, i, s, config)
  {
    var base := PagesBefore(cpts, i);
    var out := Relocated(s, i, |cpts|, base).value;
    TagNumbers(s.name, i, |cpts|);
    forall key ensures OptionMoved(s, out, i, base, key) { OptionMoves(s, i, |cpts|, base, key); }
    assert MovedTo(cpts, i, s, config, out);
  }

  lemma {:induction false} AllWrittenIsMoved(cpts: seq<Checkpoint>, config: seq<Section>)
    requires AllWritten(cpts, config)
    ensures AllMoved(cpts, config)
  {
    forall i, s | 0 <= i < |cpts| && s in cpts[i].sections && HasCpu(s.name) ensures Moved(cpts, i, s, config) {
      assert Written(cpts, i, s, config);
      WrittenIsMoved(cpts, i, s, config);
    }
  }

  lemma {:induction false} CopyKeeps(s: Section, key: string)
    ensures CopyOf(s).name == s.name && Lookup(CopyOf(s).items, key) == Lookup(s.items, key)
  {
    CopiedExactly(s.items, false, 0);
    CopiedIs(s.items, false, 0, key);
  }

  lemma {:induction false} PlainIsKept(s: Section, config: seq<Section>)
    requires CopyOf(s) in config
    ensures Kept(s, config)
  {
    forall key ensures CopyOf(s).name == s.name && Lookup(CopyOf(s).items, key) == Lookup(s.items, key) {
      CopyKeeps(s, key);
    }
  }

  /** The memory section of the last checkpoint, with its new size. */
  lemma {:induction false} StoreIsKept(s: Section, last: seq<Section>, value: string, config: seq<Section>)
    requires s.name == STORE && CopyOf(s) in last
    requires forall t :: t in WithOption(last, STORE, "range_size", value) ==> t in config
    ensures Kept(s, config)
  {
    var c := CopyOf(s);
    CopyKeeps(s, "");
    WithOptionOf(last, STORE, "range_size", value, c);
    var out := Section(STORE, Set(c.items, "range_size", value));
    forall key | key != "range_size" ensures Lookup(out.items, key) == Lookup(s.items, key) {
      LookupSet(c.items, "range_size", value, key);
      CopyKeeps(s, key);
    }
    assert out in config;
  }

  lemma {:induction false} WithOptionOf(ss: seq<Section>, name: string, key: string, value: string, s: Section)
    requires s in ss && s.name == name
    ensures Section(name, Set(s.items, key, value)) in WithOption(ss, name, key, value)
    decreases |ss|
  {
    var n := |ss| - 1;
    if s != ss[n] {
      assert ss == ss[..n] + [ss[n]];
      WithOptionOf(ss[..n], name, key, value, s);
    }
  }

  lemma {:induction false} ClosedKept(cpts: seq<Checkpoint>, written: seq<Section>, last: seq<Section>, pages: nat,
                                      range: nat, tick: int)
    requires cpts != [] && OutOf(cpts, |cpts| - 1) == Some(last)
    ensures AllKept(cpts[|cpts| - 1].sections, Closed(written, last, pages, |cpts|, range, tick))
  {
    var ss, config := cpts[|cpts| - 1].sections, Closed(written, last, pages, |cpts|, range, tick);
    ClosedLast(cpts, written, last, pages, range, tick);
    forall s | s in ss && !HasCpu(s.name) && s.name != "system" && s.name != "Globals" ensures Kept(s, config) {
      if s.name == STORE {
        ClosedStore(cpts, written, last, pages, range, tick, s);
      } else {
        PlainIsKept(s, config);
      }
    }
  }

  lemma {:induction false} ClosedStore(cpts: seq<Checkpoint>, written: seq<Section>, last: seq<Section>, pages: nat,
                                       range: nat, tick: int, s: Section)
    requires cpts != [] && OutOf(cpts, |cpts| - 1) == Some(last)
    requires s in cpts[|cpts| - 1].sections && s.name == STORE
    ensures Kept(s, Closed(written, last, pages, |cpts|, range, tick))
  {
    var n := |cpts|;
    StoreIsPlain();
    PlainWritten(cpts[n - 1].sections, n, PagesBefore(cpts, n - 1), s);
    StoreIsKept(s, last, Str(range), Closed(written, last, pages, n, range, tick));
  }

  lemma {:induction false} PaddrMoved(s: Section, t: Section, i: nat, base: nat, a: int)
    requires OptionsMoved(s, t, i, base) && Reads(s, "paddr", a)
    ensures Reads(t, "paddr", a + 4096 * base)
  {
    assert OptionMoved(s, t, i, base, "paddr");
    assert "paddr"[0] != "M5_pid"[0];
  }

  /** An address read from a section as it is written finds, in the memory as it is written, the byte the
      address read from the section had. */
  lemma {:induction false} AddressFindsItsByte(cpts: seq<Checkpoint>, i: nat, s: Section, config: seq<Section>,
                                               t: Section, memory: seq<Byte>, size: int, pages: nat, a: nat)
    requires i < |cpts| && MovedTo(cpts, i, s, config, t) && Padded(cpts, size, memory, pages)
    requires Reads(s, "paddr", a) && CompleteBefore(cpts, i) && a < PAGE * Pages(cpts[i]) && a < |cpts[i].memory|
    ensures exists b :: 0 <= b < |memory| && Reads(t, "paddr", b) && memory[b] == cpts[i].memory[a]
  {
    PaddrMoved(s, t, i, PagesBefore(cpts, i), a);
    ByteStays(cpts, size, memory, pages, i, a);
  }

  lemma {:induction false} ByteStays(cpts: seq<Checkpoint>, size: int, memory: seq<Byte>, pages: nat, i: nat, a: nat)
    requires Padded(cpts, size, memory, pages) && i < |cpts| && CompleteBefore(cpts, i)
    requires a < PAGE * Pages(cpts[i]) && a < |cpts[i].memory|
    ensures a + 4096 * PagesBefore(cpts, i) < |memory|
    ensures memory[a + 4096 * PagesBefore(cpts, i)] == cpts[i].memory[a]
  {
    SameByte(cpts, i, a);
    PaddedHolds(cpts, size, memory, pages, a + PAGE * PagesBefore(cpts, i));
  }

  lemma {:induction false} PaddedHolds(cpts: seq<Checkpoint>, size: int, memory: seq<Byte>, pages: nat, b: nat)
    requires Padded(cpts, size, memory, pages) && b < |Merged(cpts, |cpts|)|
    ensures b < |memory| && memory[b] == Merged(cpts, |cpts|)[b]
  {
    assert memory[b] == memory[..|Merged(cpts, |cpts|)|][b];
  }

  /** The pages of a checkpoint are what its section "system" says. */
  lemma {:induction false} PagesAre(c: Checkpoint, s: Section)
    requires Distinct(Names(c.sections)) && s in c.sections && s.name == "system"
    ensures PagePtr(c).Some? <==> Lookup(s.items, "pagePtr").Some? && ParseNat(Lookup(s.items, "pagePtr").value).Some?
    ensures PagePtr(c).Some? ==>
              Lookup(s.items, "pagePtr").Some? && ParseNat(Lookup(s.items, "pagePtr").value) == Some(Pages(c))
  {
    FindIs(c.sections, s);
  }

  lemma {:induction false} FindIs(ss: seq<Section>, s: Section)
    requires Distinct(Names(ss)) && s in ss
    ensures Find(ss, s.name) == Some(s)
    decreases |ss|
  {
    var n := |ss| - 1;
    NamesSnoc(ss[..n], ss[n]);
    assert ss == ss[..n] + [ss[n]];
    DistinctHead(Names(ss));
    assert Names(ss)[..|Names(ss)| - 1] == Names(ss[..n]);
    if s != ss[n] {
      FindIs(ss[..n], s);
      NameIn(ss[..n], s);
    }
  }

  lemma {:induction false} NameIn(ss: seq<Section>, s: Section)
    requires s in ss
    ensures s.name in Names(ss)
    decreases |ss|
  {
    var n := |ss| - 1;
    assert ss == ss[..n] + [ss[n]];
    if s != ss[n] {
      NameIn(ss[..n], s);
    }
  }

  /**
   * Merge checkpoints whose sections have different names each. It fails exactly on no checkpoints,
   * on one that cannot be read, and where the last one has no memory section.
   */
  method Aggregate(cpts: seq<Checkpoint>, size: int) returns (r: Option<Output>)
    requires forall i :: 0 <= i < |cpts| ==> Distinct(Names(cpts[i].sections))
    ensures r.Some? <==> Mergeable(cpts)
    ensures r.Some? ==> Distinct(Names(r.value.config)) && AllWritten(cpts, r.value.config)
    ensures r.Some? ==> Names(r.value.config) == AllNames(NameLists(cpts), |cpts|) + ["system", "Globals"]
    ensures r.Some? ==> LastWritten(cpts[|cpts| - 1].sections, r.value.config)
    ensures r.Some? ==> AllMoved(cpts, r.value.config) && AllKept(cpts[|cpts| - 1].sections, r.value.config)
    ensures r.Some? ==> Closes(r.value.config, PagesBefore(cpts, |cpts|), |cpts|, TickAll(cpts, |cpts|))
    ensures r.Some? ==> exists pages :: Recorded(cpts, size, r.value, pages)
  {
    if cpts == [] {
      return None;
    }
    var ok, written, last, memory, pages, tick := MergeAll(cpts);
    if !ok {
      return None;
    }
    StoreKept(cpts[|cpts| - 1].sections, |cpts|, PagesBefore(cpts, |cpts| - 1), last);
    var padded, total := Pad(memory, pages, size);
    if STORE !in Names(last) {
      return None;
    }
    var config := Closed(written, last, pages, |cpts|, PAGE * total, tick);
    ClosedNames(cpts, written, last, pages, PAGE * total, tick);
    ClosedWritten(cpts, written, last, pages, PAGE * total, tick);
    ClosedLast(cpts, written, last, pages, PAGE * total, tick);
    AllWrittenIsMoved(cpts, config);
    ClosedKept(cpts, written, last, pages, PAGE * total, tick);
    RangeSet(written, last, pages, |cpts|, PAGE * total, tick);
    var out := Output(config, padded);
    assert Recorded(cpts, size, out, total);
    r := Some(out);
  }

  lemma RangeSet(written: seq<Section>, last: seq<Section>, pages: nat, n: nat, range: nat, tick: int)
    requires STORE in Names(last)
    ensures HasOption(Closed(written, last, pages, n, range, tick), STORE, "range_size", Str(range))
  {
    WithOptionSets(last, STORE, "range_size", Str(range));
    var s :| s in WithOption(last, STORE, "range_size", Str(range)) && s.name == STORE &&
             Lookup(s.items, "range_size") == Some(Str(range));
    assert s in Closed(written, last, pages, n, range, tick);
  }
}
