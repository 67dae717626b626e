/**
  Instruction dependency traces as text: the printer of one converter and the parser of the other.
 */
module InstDepTrace {
  import opened Common
  import opened Text

  datatype Kind = INVALID | LOAD | STORE | COMP

  /** A trace record; the optional fields may be absent. */
  datatype Record = Record(
    seqNum: nat, pc: Option<nat>, weight: Option<nat>, kind: Kind,
    pAddr: Option<nat>, size: Option<nat>, flags: Option<nat>,
    compDelay: nat, robDep: seq<nat>, regDep: seq<nat>)

  function KindName(k: Kind): string
  {
    match k
    case INVALID => "INVALID" case LOAD => "LOAD" case STORE => "STORE" case COMP => "COMP"
  }

  function KindOf(s: string): Option<Kind>
  {
    if s == "INVALID" then Some(INVALID)
    else if s == "LOAD" then Some(LOAD)
    else if s == "STORE" then Some(STORE)
    else if s == "COMP" then Some(COMP)
    else None
  }

  // ---------------------------------------------------------------------------------------------
  // Printing
  // ---------------------------------------------------------------------------------------------

  function Or(o: Option<nat>, default: nat): nat { if o.Some? then o.value else default }

  function Optional(o: Option<nat>): seq<string> { if o.Some? then [Str(o.value)] else [] }

  /** The comma-separated fields of a record, in order. */
  function Fields(r: Record): seq<string>
  {
    [Str(r.seqNum), Str(Or(r.pc, 0)), Str(Or(r.weight, 1)), KindName(r.kind)]
    + (Optional(r.pAddr) + Optional(r.size) + Optional(r.flags) + [Str(r.compDelay)])
  }

  function Deps(ds: seq<nat>): string
  {
    if ds == [] then "" else Deps(ds[..|ds| - 1]) + "," + Str(ds[|ds| - 1])
  }

  function Body(r: Record): string
  {
    JoinOn(Fields(r), ',') + ":" + (Deps(r.robDep) + ":" + Deps(r.regDep))
  }

  function Print(r: Record): string { Body(r) + "\n" }

  // ---------------------------------------------------------------------------------------------
  // Parsing
  // ---------------------------------------------------------------------------------------------

  /** The numbers of a comma-separated list, empty items skipped. */
  function ParseDeps(items: seq<string>): Option<seq<nat>>
  {
    if items == [] then Some([])
    else
      var n := |items| - 1;
      match ParseDeps(items[..n])
      case None => None
      case Some(ds) =>
        if items[n] == "" then Some(ds)
        else match ParseNat(items[n]) case None => None case Some(d) => Some(ds + [d])
  }

  function ParseInfo(f: seq<string>, rob: seq<nat>, reg: seq<nat>): Option<Record>
  {
    if |f| < 5 then None
    else
      var seqNum, pc, weight, kind := ParseNat(f[0]), ParseNat(f[1]), ParseNat(f[2]), KindOf(f[3]);
      if seqNum.None? || pc.None? || weight.None? || kind.None? || kind.value.INVALID? then None
      else if kind.value.LOAD? || kind.value.STORE? then
        if |f| < 8 then None
        else
          var address, size, flags, delay := ParseNat(f[4]), ParseNat(f[5]), ParseNat(f[6]), ParseNat(f[7]);
          if address.None? || size.None? || flags.None? || delay.None? then None
          else Some(Record(seqNum.value, pc, weight, kind.value, address, size, flags, delay.value, rob, reg))
      else
        match ParseNat(f[4])
        case Some(d) => Some(Record(seqNum.value, pc, weight, kind.value, None, None, None, d, rob, reg))
        case None => None
  }

  /** One line of the text trace, or nothing if it is malformed. */
  function Parse(line: string): Option<Record>
  {
    var parts := SplitOn(Strip(line), ':');
    if |parts| != 3 then None
    else
      var rob, reg := ParseDeps(SplitOn(Strip(parts[1]), ',')), ParseDeps(SplitOn(parts[2], ','));
      if rob.None? || reg.None? then None else ParseInfo(SplitOn(parts[0], ','), rob.value, reg.value)
  }

  // ---------------------------------------------------------------------------------------------
  // Round trip
  // ---------------------------------------------------------------------------------------------

  /** Text made of characters that separate nothing. */
  predicate Plain(s: string) { forall i :: 0 <= i < |s| ==> s[i] != ',' && s[i] != ':' && !IsSpace(s[i]) }

  lemma StrPlain(n: nat)
    ensures Plain(Str(n)) && Str(n) != ""
  {
    StrIsDecimal(n);
    forall i | 0 <= i < |Str(n)| ensures Str(n)[i] != ',' && Str(n)[i] != ':' && !IsSpace(Str(n)[i]) {
      assert IsDigit(Str(n)[i]);
    }
  }

  lemma FieldsPlain(r: Record)
    ensures forall i :: 0 <= i < |Fields(r)| ==> Plain(Fields(r)[i])
  {
    StrPlain(r.seqNum);
    StrPlain(Or(r.pc, 0));
    StrPlain(Or(r.weight, 1));
    StrPlain(Or(r.pAddr, 0));
    StrPlain(Or(r.size, 0));
    StrPlain(Or(r.flags, 0));
    StrPlain(r.compDelay);
    assert Plain(KindName(r.kind));
  }

  /** Characters of printed lines: neither white space nor a colon. */
  predicate Inner(s: string) { forall i :: 0 <= i < |s| ==> s[i] != ':' && !IsSpace(s[i]) }

  lemma {:induction false} JoinInner(parts: seq<string>)
    requires forall i :: 0 <= i < |parts| ==> Plain(parts[i])
    ensures Inner(JoinOn(parts, ','))
    decreases |parts|
  {
    if |parts| > 1 {
      JoinInner(parts[1..]);
    }
  }

  lemma {:induction false} DepsInner(ds: seq<nat>)
    ensures Inner(Deps(ds))
    decreases |ds|
  {
    if ds != [] {
      DepsInner(ds[..|ds| - 1]);
      StrPlain(ds[|ds| - 1]);
    }
  }

  function DepItems(ds: seq<nat>): seq<string>
  {
    if ds == [] then [""] else DepItems(ds[..|ds| - 1]) + [Str(ds[|ds| - 1])]
  }

  lemma {:induction false} SplitSnoc(s: string, sep: char, part: string, a: string)
    requires Free(a, sep)
    ensures SplitFrom(s + [sep] + a, sep, part) == SplitFrom(s, sep, part) + [a]
    decreases |s|
  {
    if s == "" {
      assert s + [sep] + a == [sep] + a && ([sep] + a)[1..] == a;
      SplitFirst(a, "", sep);
    } else {
      assert (s + [sep] + a)[1..] == s[1..] + [sep] + a;
      SplitSnoc(s[1..], sep, if s[0] == sep then "" else part + [s[0]], a);
    }
  }

  lemma {:induction false} DepsRoundTrip(ds: seq<nat>)
    ensures SplitOn(Deps(ds), ',') == DepItems(ds) && ParseDeps(DepItems(ds)) == Some(ds)
    decreases |ds|
  {
    if ds == [] {
      assert [""][..0] == [];
    } else {
      var n := |ds| - 1;
      DepsRoundTrip(ds[..n]);
      StrPlain(ds[n]);
      SplitSnoc(Deps(ds[..n]), ',', "", Str(ds[n]));
      assert DepItems(ds)[..|DepItems(ds)| - 1] == DepItems(ds[..n]);
      ParseStr(ds[n]);
      assert ds == ds[..n] + [ds[n]];
    }
  }

  lemma LineParts(r: Record)
    ensures Strip(Print(r)) == Body(r)
    ensures SplitOn(Body(r), ':') == [JoinOn(Fields(r), ','), Deps(r.robDep), Deps(r.regDep)]
    ensures Strip(Deps(r.robDep)) == Deps(r.robDep)
    ensures SplitOn(JoinOn(Fields(r), ','), ',') == Fields(r)
  {
    FieldsPlain(r);
    JoinInner(Fields(r));
    DepsInner(r.robDep);
    DepsInner(r.regDep);
    StripLine(Body(r));
    StripLine(Deps(r.robDep));
    SplitFirst(JoinOn(Fields(r), ','), Deps(r.robDep) + ":" + Deps(r.regDep), ':');
    SplitFirst(Deps(r.robDep), Deps(r.regDep), ':');
    SplitFirst(Deps(r.regDep), "", ':');
    SplitJoined(Fields(r), ',');
  }

  lemma ParsePrinted(r: Record)
    ensures Parse(Print(r)) == ParseInfo(Fields(r), r.robDep, r.regDep)
  {
    LineParts(r);
    DepsRoundTrip(r.robDep);
    DepsRoundTrip(r.regDep);
  }

  /** The record with the defaults the printer fills in. */
  function WithDefaults(r: Record): Record
  {
    r.(pc := Some(Or(r.pc, 0)), weight := Some(Or(r.weight, 1)))
  }

  /** Memory accesses carry all three memory fields, other records none. */
  predicate Consistent(r: Record)
  {
    match r.kind
    case INVALID => false
    case LOAD | STORE => r.pAddr.Some? && r.size.Some? && r.flags.Some?
    case COMP => r.pAddr.None? && r.size.None? && r.flags.None?
  }

  lemma KindRoundTrip(k: Kind)
    ensures KindOf(KindName(k)) == Some(k)
  {
    assert "INVALID"[0] == 'I' && "LOAD"[0] == 'L' && "STORE"[0] == 'S' && "COMP"[0] == 'C';
  }

  lemma FieldsParse(r: Record)
    ensures ParseNat(Str(Or(r.pc, 0))) == Some(Or(r.pc, 0)) && ParseNat(Str(Or(r.weight, 1))) == Some(Or(r.weight, 1))
    ensures ParseNat(Str(r.seqNum)) == Some(r.seqNum) && ParseNat(Str(r.compDelay)) == Some(r.compDelay)
  {
    ParseStr(r.seqNum);
    ParseStr(Or(r.pc, 0));
    ParseStr(Or(r.weight, 1));
    ParseStr(r.compDelay);
  }

  /** A memory access is read back if no field is missing; otherwise the line is malformed. */
  lemma MemoryInfo(r: Record)
    requires r.kind.LOAD? || r.kind.STORE?
    ensures ParseInfo(Fields(r), r.robDep, r.regDep) == if Consistent(r) then Some(WithDefaults(r)) else None
  {
    KindRoundTrip(r.kind);
    FieldsParse(r);
    ParseStr(Or(r.pAddr, 0));
    ParseStr(Or(r.size, 0));
    ParseStr(Or(r.flags, 0));
  }

  /** Another record is read back without memory fields; if it had any, the first is taken for the
      delay. */
  lemma OtherInfo(r: Record)
    requires r.kind.COMP?
    ensures var p := ParseInfo(Fields(r), r.robDep, r.regDep);
      p.Some? && p.value == WithDefaults(r).(pAddr := None, size := None, flags := None, compDelay := p.value.compDelay)
    ensures Consistent(r) ==> ParseInfo(Fields(r), r.robDep, r.regDep) == Some(WithDefaults(r))
  {
    KindRoundTrip(r.kind);
    FieldsParse(r);
    ParseStr(Or(r.pAddr, 0));
    ParseStr(Or(r.size, 0));
    ParseStr(Or(r.flags, 0));
  }

  /** Printing and parsing a record gives it back, defaults filled in, exactly when its memory fields
      fit its kind. */
  lemma RoundTripExactly(r: Record)
    ensures Parse(Print(r)) == Some(WithDefaults(r)) <==> Consistent(r)
  {
    ParsePrinted(r);
    match r.kind {
      case INVALID => KindRoundTrip(r.kind);
      case COMP => OtherInfo(r);
      case _ => MemoryInfo(r);
    }
  }

  /** A load without its address is printed on a line that cannot be parsed. */
  lemma {:induction false} BareLoadIsLost(r: Record)
    requires r.kind.LOAD? && r.pAddr.None?
    ensures Parse(Print(r)) == None
  {
    ParsePrinted(r);
    MemoryInfo(r);
  }

  // ---------------------------------------------------------------------------------------------
  // Whole traces
  // ---------------------------------------------------------------------------------------------

  function PrintAll(rs: seq<Record>): string
  {
    if rs == [] then "" else PrintAll(rs[..|rs| - 1]) + Print(rs[|rs| - 1])
  }

  /** The lines of a text, each with its line end; `line` is the line being read. */
  function LinesFrom(s: string, line: string): seq<string>
  {
    if s == "" then (if line == "" then [] else [line])
    else if s[0] == '\n' then [line + "\n"] + LinesFrom(s[1..], "")
    else LinesFrom(s[1..], line + [s[0]])
  }

  function Lines(s: string): seq<string> { LinesFrom(s, "") }

  function ParseAll(lines: seq<string>): Option<seq<Record>>
  {
    if lines == [] then Some([])
    else
      var n := |lines| - 1;
      var rs, r := ParseAll(lines[..n]), Parse(lines[n]);
      if rs.None? || r.None? then None else Some(rs.value + [r.value])
  }

  function AllWithDefaults(rs: seq<Record>): seq<Record>
  {
    if rs == [] then [] else AllWithDefaults(rs[..|rs| - 1]) + [WithDefaults(rs[|rs| - 1])]
  }

  function PrintEach(rs: seq<Record>): seq<string>
  {
    if rs == [] then [] else PrintEach(rs[..|rs| - 1]) + [Print(rs[|rs| - 1])]
  }

  lemma {:induction false} LinesSkip(a: string, s: string, line: string)
    requires Free(a, '\n')
    ensures LinesFrom(a + s, line) == LinesFrom(s, line + a)
    decreases |a|
  {
    if a == "" {
      assert a + s == s && line + a == line;
    } else {
      assert (a + s)[1..] == a[1..] + s;
      LinesSkip(a[1..], s, line + [a[0]]);
      assert line + [a[0]] + a[1..] == line + a;
    }
  }

  lemma BodyHasNoLineEnd(r: Record)
    ensures Free(Body(r), '\n')
  {
    FieldsPlain(r);
    JoinInner(Fields(r));
    DepsInner(r.robDep);
    DepsInner(r.regDep);
  }

  /** Appending one more terminated line to a text of terminated lines. */
  lemma {:induction false} LinesSnoc(s: string, a: string, line: string)
    requires Free(a, '\n') && (s == "" ==> line == "") && (s != "" ==> s[|s| - 1] == '\n')
    ensures LinesFrom(s + (a + "\n"), line) == LinesFrom(s, line) + [a + "\n"]
    decreases |s|
  {
    if s == "" {
      assert s + (a + "\n") == a + "\n";
      LinesSkip(a, "\n", "");
      assert "" + a == a && "\n"[1..] == "";
    } else {
      assert (s + (a + "\n"))[1..] == s[1..] + (a + "\n");
      LinesSnoc(s[1..], a, if s[0] == '\n' then "" else line + [s[0]]);
    }
  }

  lemma PrintAllEnds(rs: seq<Record>)
    requires rs != []
    ensures PrintAll(rs) != "" && PrintAll(rs)[|PrintAll(rs)| - 1] == '\n'
  {
    var p := Print(rs[|rs| - 1]);
    assert p[|p| - 1] == '\n';
  }

  lemma {:induction false} LinesOfPrinted(rs: seq<Record>)
    ensures Lines(PrintAll(rs)) == PrintEach(rs)
    decreases |rs|
  {
    if rs != [] {
      var before, r := rs[..|rs| - 1], rs[|rs| - 1];
      LinesOfPrinted(before);
      BodyHasNoLineEnd(r);
      if before != [] { PrintAllEnds(before); }
      LinesSnoc(PrintAll(before), Body(r), "");
    }
  }

  lemma {:induction false} ParseEach(rs: seq<Record>)
    requires forall i :: 0 <= i < |rs| ==> Consistent(rs[i])
    ensures ParseAll(PrintEach(rs)) == Some(AllWithDefaults(rs))
    decreases |rs|
  {
    if rs != [] {
      var before, r := rs[..|rs| - 1], rs[|rs| - 1];
      ParseEach(before);
      ParseAllSnoc(PrintEach(before), Print(r));
      RoundTripExactly(r);
    }
  }

  lemma ParseAllSnoc(lines: seq<string>, line: string)
    ensures ParseAll(lines + [line]) ==
            if ParseAll(lines).None? || Parse(line).None? then None
            else Some(ParseAll(lines).value + [Parse(line).value])
  {
    assert (lines + [line])[..|lines|] == lines;
  }

  /** Trace round trip, for any number of records and dependency lists of any length. */
  lemma TraceRoundTrip(rs: seq<Record>)
    requires forall i :: 0 <= i < |rs| ==> Consistent(rs[i])
    ensures ParseAll(Lines(PrintAll(rs))) == Some(AllWithDefaults(rs))
  {
    LinesOfPrinted(rs);
    ParseEach(rs);
  }

  // ---------------------------------------------------------------------------------------------
  // The conversion loops
  // ---------------------------------------------------------------------------------------------

  /** The dependencies of one record, appended to the output. */
  method WriteDeps(out0: string, ds: seq<nat>) returns (out: string)
    ensures out == out0 + Deps(ds)
  {
    out := out0;
    for i := 0 to |ds|
      invariant out == out0 + Deps(ds[..i])
    {
      assert ds[..i + 1][..i] == ds[..i];
      assert out0 + Deps(ds[..i]) + ("," + Str(ds[i])) == out0 + Deps(ds[..i + 1]);
      out := out + ("," + Str(ds[i]));
    }
    assert ds[..|ds|] == ds;
  }

  lemma Reassociate(a: string, f: string, b: string, c: string)
    ensures ((((a + f + ":") + b) + ":") + c) + "\n" == a + ((f + ":" + (b + ":" + c)) + "\n")
  {
  }

  /** Print one record. */
  method PrintRecord(out0: string, r: Record) returns (out: string)
    ensures out == out0 + Print(r)
  {
    out := out0 + JoinOn(Fields(r), ',') + ":";
    out := WriteDeps(out, r.robDep);
    out := out + ":";
    out := WriteDeps(out, r.regDep);
    out := out + "\n";
    Reassociate(out0, JoinOn(Fields(r), ','), Deps(r.robDep), Deps(r.regDep));
  }

  /** Print every record. */
  method PrintTrace(rs: seq<Record>) returns (out: string)
    ensures out == PrintAll(rs)
  {
    out := "";
    for i := 0 to |rs|
      invariant out == PrintAll(rs[..i])
    {
      assert rs[..i + 1][..i] == rs[..i];
      out := PrintRecord(out, rs[i]);
    }
    assert rs[..|rs|] == rs;
  }

  /** The numbers of a dependency list. */
  method ReadDeps(items: seq<string>) returns (ds: Option<seq<nat>>)
    ensures ds == ParseDeps(items)
  {
    var out := [];
    for i := 0 to |items|
      invariant ParseDeps(items[..i]) == Some(out)
    {
      assert items[..i + 1][..i] == items[..i];
      if items[i] != "" {
        var d := ParseNat(items[i]);
        if d.None? {
          ParseDepsFails(items, i + 1);
          return None;
        }
        out := out + [d.value];
      }
    }
    assert items[..|items|] == items;
    return Some(out);
  }

  lemma {:induction false} ParseDepsFails(items: seq<string>, i: nat)
    requires i <= |items| && ParseDeps(items[..i]).None?
    ensures ParseDeps(items).None?
    decreases |items| - i
  {
    if i < |items| {
      assert items[..i + 1][..i] == items[..i];
      ParseDepsFails(items, i + 1);
    } else {
      assert items[..i] == items;
    }
  }

  /** Parse every line; stop at the first malformed one. */
  method ParseLines(lines: seq<string>) returns (r: Option<seq<Record>>)
    ensures r == ParseAll(lines)
  {
    var out := [];
    for i := 0 to |lines|
      invariant ParseAll(lines[..i]) == Some(out)
    {
      assert lines[..i + 1] == lines[..i] + [lines[i]];
      ParseAllSnoc(lines[..i], lines[i]);
      var p := ParseLine(lines[i]);
      if p.None? {
        ParseAllFails(lines, i + 1);
        return None;
      }
      out := out + [p.value];
    }
    assert lines[..|lines|] == lines;
    return Some(out);
  }

  /** Parse a whole trace: what was printed from consistent records is read back with the defaults filled in. */
  method ParseTrace(text: string) returns (r: Option<seq<Record>>)
    ensures r == ParseAll(Lines(text))
    ensures forall rs :: (forall i :: 0 <= i < |rs| ==> Consistent(rs[i])) && text == PrintAll(rs) ==>
      r == Some(AllWithDefaults(rs))
  {
    forall rs | (forall i :: 0 <= i < |rs| ==> Consistent(rs[i])) && text == PrintAll(rs)
      ensures ParseAll(Lines(text)) == Some(AllWithDefaults(rs))
    {
      TraceRoundTrip(rs);
    }
    r := ParseLines(Lines(text));
  }

  method ParseLine(line: string) returns (r: Option<Record>)
    ensures r == Parse(line)
  {
    var parts := SplitOn(Strip(line), ':');
    if |parts| != 3 {
      return None;
    }
    var rob := ReadDeps(SplitOn(Strip(parts[1]), ','));
    var reg := ReadDeps(SplitOn(parts[2], ','));
    if rob.None? || reg.None? {
      return None;
    }
    return ParseInfo(SplitOn(parts[0], ','), rob.value, reg.value);
  }

  lemma {:induction false} ParseAllFails(lines: seq<string>, i: nat)
    requires i <= |lines| && ParseAll(lines[..i]).None?
    ensures ParseAll(lines).None?
    decreases |lines| - i
  {
    if i < |lines| {
      assert lines[..i + 1] == lines[..i] + [lines[i]];
      ParseAllSnoc(lines[..i], lines[i]);
      ParseAllFails(lines, i + 1);
    } else {
      assert lines[..i] == lines;
    }
  }
}
