/**
  The generated parse table of the micro-assembler: 31 productions, 46 states.

  The table module stores its two tables transposed, one row per symbol with parallel lists of
  states and entries, and turns them into nested dictionaries when it is loaded.
 */
module MicroAsmTables {
  import opened Common
  import opened LrMachine

  /** Production `p` of the generated list; the length recorded there is that of the right side. */
  function ProductionOf(p: nat): Production
  {
    match p
    case 1 => Production(FILE, [N(OPT_ROM_OR_MACROS)])
    case 2 => Production(OPT_ROM_OR_MACROS, [])
    case 3 => Production(OPT_ROM_OR_MACROS, [N(ROM_OR_MACROS)])
    case 4 => Production(ROM_OR_MACROS, [N(ROM_OR_MACRO)])
    case 5 => Production(ROM_OR_MACROS, [N(ROM_OR_MACROS), N(ROM_OR_MACRO)])
    case 6 => Production(ROM_OR_MACRO, [N(ROM_BLOCK)])
    case 7 => Production(ROM_OR_MACRO, [N(MACROOP_DEF)])
    case 8 => Production(ROM_BLOCK, [T(DEF), T(ROM), N(BLOCK), T(SEMI)])
    case 9 => Production(MACROOP_DEF, [T(DEF), T(MACROOP), T(ID), T(LPAREN), T(ID), T(RPAREN), T(SEMI)])
    case 10 => Production(MACROOP_DEF, [T(DEF), T(MACROOP), T(ID), N(BLOCK), T(SEMI)])
    case 11 => Production(BLOCK, [T(LBRACE), N(STATEMENTS), T(RBRACE)])
    case 12 => Production(STATEMENTS, [N(STATEMENT)])
    case 13 => Production(STATEMENTS, [N(STATEMENTS), N(STATEMENT)])
    case 14 => Production(STATEMENT, [N(CONTENT_OF_STATEMENT), N(END_OF_STATEMENT)])
    case 15 => Production(CONTENT_OF_STATEMENT, [N(MICROOP)])
    case 16 => Production(CONTENT_OF_STATEMENT, [N(DIRECTIVE)])
    case 17 => Production(CONTENT_OF_STATEMENT, [])
    case 18 => Production(END_OF_STATEMENT, [T(NEWLINE)])
    case 19 => Production(END_OF_STATEMENT, [T(SEMI)])
    case 20 => Production(MICROOP, [N(LABELS), T(ID)])
    case 21 => Production(MICROOP, [T(ID)])
    case 22 => Production(MICROOP, [N(LABELS), T(ID), T(PARAMS)])
    case 23 => Production(MICROOP, [T(ID), T(PARAMS)])
    case 24 => Production(LABELS, [N(LABEL)])
    case 25 => Production(LABELS, [N(LABELS), N(LABEL)])
    case 26 => Production(LABELS, [N(LABELS), T(NEWLINE)])
    case 27 => Production(LABEL, [T(ID), T(COLON)])
    case 28 => Production(LABEL, [T(EXTERN), T(ID), T(COLON)])
    case 29 => Production(DIRECTIVE, [T(DOT), T(ID)])
    case 30 => Production(DIRECTIVE, [T(DOT), T(ID), T(PARAMS)])
    case _ => Production(START, [N(FILE)])
  }

  function Productions(): (ps: seq<Production>)
    ensures |ps| == 31 && forall p :: 0 <= p < 31 ==> ps[p] == ProductionOf(p)
  {
    seq(31, p requires 0 <= p < 31 => ProductionOf(p))
  }

  /** One row of the transposed table: `entries[j]` belongs to state `states[j]`. */
  datatype Row<K> = Row(key: K, states: seq<int>, entries: seq<int>)

  const ACTION_END := Row(END,
    [0, 1, 2, 3, 4, 5, 6, 8, 14, 40, 45],
    [-2, 0, -1, -3, -4, -6, -7, -5, -8, -10, -9])
  const ACTION_DEF := Row(DEF,
    [0, 3, 4, 5, 6, 8, 14, 40, 45],
    [7, 7, -4, -6, -7, -5, -8, -10, -9])
  const ACTION_ROM := Row(ROM,
    [7],
    [9])
  const ACTION_MACROOP := Row(MACROOP,
    [7],
    [10])
  const ACTION_LBRACE := Row(LBRACE,
    [9, 13],
    [12, 12])
  const ACTION_ID := Row(ID,
    [10, 12, 15, 16, 20, 22, 23, 24, 25, 28, 29, 30, 31, 33, 34, 36, 43],
    [13, 21, 21, -12, 32, 37, -24, 38, 39, -13, -14, -18, -19, -25, -26, -27, -28])
  const ACTION_SEMI := Row(SEMI,
    [11, 12, 15, 16, 17, 18, 19, 21, 26, 27, 28, 29, 30, 31, 32, 35, 37, 41, 42, 44],
    [14, -17, -17, -12, 31, -15, -16, -21, 40, -11, -13, -14, -18, -19, -20, -23, -29, -22, -30, 45])
  const ACTION_NEWLINE := Row(NEWLINE,
    [12, 15, 16, 17, 18, 19, 20, 21, 23, 28, 29, 30, 31, 32, 33, 34, 35, 36, 37, 41, 42, 43],
    [-17, -17, -12, 30, -15, -16, 34, -21, -24, -13, -14, -18, -19, -20, -25, -26, -23, -27, -29, -22, -30,
     -28])
  const ACTION_DOT := Row(DOT,
    [12, 15, 16, 28, 29, 30, 31],
    [22, 22, -12, -13, -14, -18, -19])
  const ACTION_EXTERN := Row(EXTERN,
    [12, 15, 16, 20, 23, 28, 29, 30, 31, 33, 34, 36, 43],
    [24, 24, -12, 24, -24, -13, -14, -18, -19, -25, -26, -27, -28])
  const ACTION_LPAREN := Row(LPAREN,
    [13],
    [25])
  const ACTION_RBRACE := Row(RBRACE,
    [15, 16, 28, 29, 30, 31],
    [27, -12, -13, -14, -18, -19])
  const ACTION_PARAMS := Row(PARAMS,
    [21, 32, 37],
    [35, 41, 42])
  const ACTION_COLON := Row(COLON,
    [21, 32, 38],
    [36, 36, 43])
  const ACTION_RPAREN := Row(RPAREN,
    [39],
    [44])

  const ACTION_ITEMS: seq<Row<Terminal>> := [
    ACTION_END, ACTION_DEF, ACTION_ROM, ACTION_MACROOP, ACTION_LBRACE, ACTION_ID, ACTION_SEMI,
    ACTION_NEWLINE, ACTION_DOT, ACTION_EXTERN, ACTION_LPAREN, ACTION_RBRACE, ACTION_PARAMS, ACTION_COLON,
    ACTION_RPAREN
  ]

  const GOTO_FILE := Row(FILE,
    [0],
    [1])
  const GOTO_OPT_ROM_OR_MACROS := Row(OPT_ROM_OR_MACROS,
    [0],
    [2])
  const GOTO_ROM_OR_MACROS := Row(ROM_OR_MACROS,
    [0],
    [3])
  const GOTO_ROM_OR_MACRO := Row(ROM_OR_MACRO,
    [0, 3],
    [4, 8])
  const GOTO_ROM_BLOCK := Row(ROM_BLOCK,
    [0, 3],
    [5, 5])
  const GOTO_MACROOP_DEF := Row(MACROOP_DEF,
    [0, 3],
    [6, 6])
  const GOTO_BLOCK := Row(BLOCK,
    [9, 13],
    [11, 26])
  const GOTO_STATEMENTS := Row(STATEMENTS,
    [12],
    [15])
  const GOTO_STATEMENT := Row(STATEMENT,
    [12, 15],
    [16, 28])
  const GOTO_CONTENT_OF_STATEMENT := Row(CONTENT_OF_STATEMENT,
    [12, 15],
    [17, 17])
  const GOTO_MICROOP := Row(MICROOP,
    [12, 15],
    [18, 18])
  const GOTO_DIRECTIVE := Row(DIRECTIVE,
    [12, 15],
    [19, 19])
  const GOTO_LABELS := Row(LABELS,
    [12, 15],
    [20, 20])
  const GOTO_LABEL := Row(LABEL,
    [12, 15, 20],
    [23, 23, 33])
  const GOTO_END_OF_STATEMENT := Row(END_OF_STATEMENT,
    [17],
    [29])

  const GOTO_ITEMS: seq<Row<Nonterminal>> := [
    GOTO_FILE, GOTO_OPT_ROM_OR_MACROS, GOTO_ROM_OR_MACROS, GOTO_ROM_OR_MACRO, GOTO_ROM_BLOCK,
    GOTO_MACROOP_DEF, GOTO_BLOCK, GOTO_STATEMENTS, GOTO_STATEMENT, GOTO_CONTENT_OF_STATEMENT, GOTO_MICROOP,
    GOTO_DIRECTIVE, GOTO_LABELS, GOTO_LABEL, GOTO_END_OF_STATEMENT
  ]

  /** The entry a list of rows gives to (state, key); a later row or position overrides an earlier
      one, and positions beyond the shorter list do not exist. */
  function Lookup<K(==)>(rows: seq<Row<K>>, s: int, k: K): Option<int>
  {
    if rows == [] then None
    else
      var last := rows[|rows| - 1];
      var found := if last.key == k then LookupRow(last.states, last.entries, s) else None;
      if found.Some? then found else Lookup(rows[..|rows| - 1], s, k)
  }

  function LookupRow(states: seq<int>, entries: seq<int>, s: int): Option<int>
  {
    var n := Min(|states|, |entries|);
    if n == 0 then None
    else if states[n - 1] == s then Some(entries[n - 1])
    else LookupRow(states[..n - 1], entries[..n - 1], s)
  }

  function Min(a: nat, b: nat): nat { if a < b then a else b }

  function Find<K(==)>(m: map<int, map<K, int>>, s: int, k: K): Option<int>
  {
    if s in m && k in m[s] then Some(m[s][k]) else None
  }

  /** The loading loop: nested dictionaries filled entry by entry. */
  method Nest<K(==, !new)>(rows: seq<Row<K>>) returns (m: map<int, map<K, int>>)
    ensures forall s, k :: Find(m, s, k) == Lookup(rows, s, k)
    ensures forall s :: s in m ==> m[s] != map[]
  {
    m := map[];
    for i := 0 to |rows|
      invariant forall s, k :: Find(m, s, k) == Lookup(rows[..i], s, k)
      invariant forall s :: s in m ==> m[s] != map[]
    {
      var row := rows[i];
      ghost var before := m;
      for j := 0 to Min(|row.states|, |row.entries|)
        invariant forall s, k :: Find(m, s, k) == Overlay(before, row, j, s, k)
        invariant forall s :: s in m ==> m[s] != map[]
      {
        var x, y := row.states[j], row.entries[j];
        ghost var prev := m;
        if x !in m {
          m := m[x := map[]];
        }
        m := m[x := m[x][row.key := y]];
        assert row.key in m[x];
        forall s, k ensures Find(m, s, k) == Overlay(before, row, j + 1, s, k) {
          assert Find(prev, s, k) == Overlay(before, row, j, s, k);
          assert row.states[..j + 1][..j] == row.states[..j] && row.entries[..j + 1][..j] == row.entries[..j];
        }
      }
      var n := Min(|row.states|, |row.entries|);
      forall s, k ensures Find(m, s, k) == Lookup(rows[..i + 1], s, k) {
        assert rows[..i + 1][..i] == rows[..i];
        LookupRowCut(row.states, row.entries, s);
      }
    }
    assert rows[..|rows|] == rows;
  }

  /** The dictionary part-way through a row: its first `j` positions laid over what was there. */
  ghost function Overlay<K>(before: map<int, map<K, int>>, row: Row<K>, j: nat, s: int, k: K): Option<int>
    requires j <= |row.states| && j <= |row.entries|
  {
    var found := if k == row.key then LookupRow(row.states[..j], row.entries[..j], s) else None;
    if found.Some? then found else Find(before, s, k)
  }

  lemma LookupRowCut(states: seq<int>, entries: seq<int>, s: int)
    ensures var n := Min(|states|, |entries|); LookupRow(states[..n], entries[..n], s) == LookupRow(states, entries, s)
  {
    var n := Min(|states|, |entries|);
    if n > 0 {
      assert states[..n][..n - 1] == states[..n - 1] && entries[..n][..n - 1] == entries[..n - 1];
    }
  }

  // ---------------------------------------------------------------------------------------------
  // The loaded tables, state by state
  // ---------------------------------------------------------------------------------------------

  function ActionAt(s: int, a: Terminal): Option<int>
  {
    match a
    case END => (match s case 0 => Some(-2) case 1 => Some(0) case 2 => Some(-1) case 3 => Some(-3)
      case 4 => Some(-4) case 5 => Some(-6) case 6 => Some(-7) case 8 => Some(-5) case 14 => Some(-8)
      case 40 => Some(-10) case 45 => Some(-9) case _ => None)
    case DEF => (match s case 0 | 3 => Some(7) case 4 => Some(-4) case 5 => Some(-6) case 6 => Some(-7)
      case 8 => Some(-5) case 14 => Some(-8) case 40 => Some(-10) case 45 => Some(-9) case _ => None)
    case ROM => (match s case 7 => Some(9) case _ => None)
    case MACROOP => (match s case 7 => Some(10) case _ => None)
    case LBRACE => (match s case 9 | 13 => Some(12) case _ => None)
    case ID => (match s case 10 => Some(13) case 12 | 15 => Some(21) case 16 => Some(-12)
      case 20 => Some(32) case 22 => Some(37) case 23 => Some(-24) case 24 => Some(38) case 25 => Some(39)
      case 28 => Some(-13) case 29 => Some(-14) case 30 => Some(-18) case 31 => Some(-19)
      case 33 => Some(-25) case 34 => Some(-26) case 36 => Some(-27) case 43 => Some(-28) case _ => None)
    case SEMI => (match s case 11 => Some(14) case 12 | 15 => Some(-17) case 16 => Some(-12)
      case 17 => Some(31) case 18 => Some(-15) case 19 => Some(-16) case 21 => Some(-21)
      case 26 => Some(40) case 27 => Some(-11) case 28 => Some(-13) case 29 => Some(-14)
      case 30 => Some(-18) case 31 => Some(-19) case 32 => Some(-20) case 35 => Some(-23)
      case 37 => Some(-29) case 41 => Some(-22) case 42 => Some(-30) case 44 => Some(45) case _ => None)
    case NEWLINE => (match s case 12 | 15 => Some(-17) case 16 => Some(-12) case 17 => Some(30)
      case 18 => Some(-15) case 19 => Some(-16) case 20 => Some(34) case 21 => Some(-21)
      case 23 => Some(-24) case 28 => Some(-13) case 29 => Some(-14) case 30 => Some(-18)
      case 31 => Some(-19) case 32 => Some(-20) case 33 => Some(-25) case 34 => Some(-26)
      case 35 => Some(-23) case 36 => Some(-27) case 37 => Some(-29) case 41 => Some(-22)
      case 42 => Some(-30) case 43 => Some(-28) case _ => None)
    case DOT => (match s case 12 | 15 => Some(22) case 16 => Some(-12) case 28 => Some(-13)
      case 29 => Some(-14) case 30 => Some(-18) case 31 => Some(-19) case _ => None)
    case EXTERN => (match s case 12 | 15 | 20 => Some(24) case 16 => Some(-12) case 23 => Some(-24)
      case 28 => Some(-13) case 29 => Some(-14) case 30 => Some(-18) case 31 => Some(-19)
      case 33 => Some(-25) case 34 => Some(-26) case 36 => Some(-27) case 43 => Some(-28) case _ => None)
    case LPAREN => (match s case 13 => Some(25) case _ => None)
    case RBRACE => (match s case 15 => Some(27) case 16 => Some(-12) case 28 => Some(-13)
      case 29 => Some(-14) case 30 => Some(-18) case 31 => Some(-19) case _ => None)
    case PARAMS => (match s case 21 => Some(35) case 32 => Some(41) case 37 => Some(42) case _ => None)
    case COLON => (match s case 21 | 32 => Some(36) case 38 => Some(43) case _ => None)
    case RPAREN => (match s case 39 => Some(44) case _ => None)
  }

  function GotoAt(s: int, a: Nonterminal): Option<int>
  {
    match a
    case FILE => (match s case 0 => Some(1) case _ => None)
    case OPT_ROM_OR_MACROS => (match s case 0 => Some(2) case _ => None)
    case ROM_OR_MACROS => (match s case 0 => Some(3) case _ => None)
    case ROM_OR_MACRO => (match s case 0 => Some(4) case 3 => Some(8) case _ => None)
    case ROM_BLOCK => (match s case 0 | 3 => Some(5) case _ => None)
    case MACROOP_DEF => (match s case 0 | 3 => Some(6) case _ => None)
    case BLOCK => (match s case 9 => Some(11) case 13 => Some(26) case _ => None)
    case STATEMENTS => (match s case 12 => Some(15) case _ => None)
    case STATEMENT => (match s case 12 => Some(16) case 15 => Some(28) case _ => None)
    case CONTENT_OF_STATEMENT => (match s case 12 | 15 => Some(17) case _ => None)
    case MICROOP => (match s case 12 | 15 => Some(18) case _ => None)
    case DIRECTIVE => (match s case 12 | 15 => Some(19) case _ => None)
    case LABELS => (match s case 12 | 15 => Some(20) case _ => None)
    case LABEL => (match s case 12 | 15 => Some(23) case 20 => Some(33) case _ => None)
    case END_OF_STATEMENT => (match s case 17 => Some(29) case _ => None)
    case START => None
  }

  /** A row lists exactly the states for which `f` is defined, with the values of `f`. */
  ghost predicate RowIs<K>(row: Row<K>, f: (int, K) -> Option<int>)
  {
    && |row.states| == |row.entries|
    && (forall j :: 0 <= j < |row.states| ==> f(row.states[j], row.key) == Some(row.entries[j]))
    && (forall s :: f(s, row.key).Some? ==> s in row.states)
  }

  /** The entries of a row are those of the action table. */
  ghost predicate ActionEntries(k: Terminal, states: seq<int>, entries: seq<int>)
    requires |states| == |entries|
  {
    forall j :: 0 <= j < |states| ==> ActionAt(states[j], k) == Some(entries[j])
  }

  /** A row lists all states with an entry in the action table. */
  ghost predicate ActionStates(k: Terminal, states: seq<int>)
  {
    forall s :: ActionAt(s, k).Some? ==> s in states
  }

  ghost predicate GotoEntries(k: Nonterminal, states: seq<int>, entries: seq<int>)
    requires |states| == |entries|
  {
    forall j :: 0 <= j < |states| ==> GotoAt(states[j], k) == Some(entries[j])
  }

  ghost predicate GotoStates(k: Nonterminal, states: seq<int>)
  {
    forall s :: GotoAt(s, k).Some? ==> s in states
  }

  lemma {:induction false} LookupRowIs(states: seq<int>, entries: seq<int>, f: int -> Option<int>, s: int)
    requires |states| == |entries|
    requires forall j :: 0 <= j < |states| ==> f(states[j]) == Some(entries[j])
    ensures LookupRow(states, entries, s) == if s in states then f(s) else None
  {
    var n := |states|;
    if n > 0 && states[n - 1] != s {
      LookupRowIs(states[..n - 1], entries[..n - 1], f, s);
      assert states == states[..n - 1] + [states[n - 1]];
    }
  }

  lemma {:induction false} LookupIs<K>(rows: seq<Row<K>>, f: (int, K) -> Option<int>, s: int, k: K)
    requires AllRows(rows, f)
    ensures Lookup(rows, s, k) == if exists i :: 0 <= i < |rows| && rows[i].key == k then f(s, k) else None
  {
    var n := |rows|;
    if n > 0 {
      var last := rows[n - 1];
      LookupRowIs(last.states, last.entries, x => f(x, last.key), s);
      LookupIs(rows[..n - 1], f, s, k);
      assert last.key == k ==> 0 <= n - 1 < |rows| && rows[n - 1].key == k;
    }
  }

  lemma ActionRowsEnd()
    ensures RowIs(ACTION_END, ActionAt)
  {
    assert ActionEntries(END, ACTION_END.states, ACTION_END.entries);
    assert ActionStates(END, ACTION_END.states);
  }

  lemma ActionRowsDef()
    ensures RowIs(ACTION_DEF, ActionAt)
    ensures RowIs(ACTION_ROM, ActionAt)
    ensures RowIs(ACTION_MACROOP, ActionAt)
  {
    assert ActionEntries(DEF, ACTION_DEF.states, ACTION_DEF.entries);
    assert ActionStates(DEF, ACTION_DEF.states);
    assert ActionEntries(ROM, ACTION_ROM.states, ACTION_ROM.entries);
    assert ActionStates(ROM, ACTION_ROM.states);
    assert ActionEntries(MACROOP, ACTION_MACROOP.states, ACTION_MACROOP.entries);
    assert ActionStates(MACROOP, ACTION_MACROOP.states);
  }

  lemma ActionRowsLbrace()
    ensures RowIs(ACTION_LBRACE, ActionAt)
  {
    assert ActionEntries(LBRACE, ACTION_LBRACE.states, ACTION_LBRACE.entries);
    assert ActionStates(LBRACE, ACTION_LBRACE.states);
  }

  lemma ActionIdEarlyEntry(j: nat)
    requires j < 10
    ensures ActionAt(ACTION_ID.states[j], ID) == Some(ACTION_ID.entries[j])
  {
  }

  lemma ActionIdLateEntry(j: nat)
    requires 10 <= j < |ACTION_ID.states|
    ensures ActionAt(ACTION_ID.states[j], ID) == Some(ACTION_ID.entries[j])
  {
  }

  lemma ActionIdEntries()
    ensures ActionEntries(ID, ACTION_ID.states, ACTION_ID.entries)
  {
    forall j | 0 <= j < |ACTION_ID.states|
      ensures ActionAt(ACTION_ID.states[j], ID) == Some(ACTION_ID.entries[j])
    {
      if j < 10 { ActionIdEarlyEntry(j); } else { ActionIdLateEntry(j); }
    }
  }

  lemma ActionIdStates()
    ensures ActionStates(ID, ACTION_ID.states)
  {
  }

  lemma ActionRowsId()
    ensures RowIs(ACTION_ID, ActionAt)
  {
    ActionIdEntries();
    ActionIdStates();
  }

  lemma ActionSemiEarlyEntry(j: nat)
    requires j < 10
    ensures ActionAt(ACTION_SEMI.states[j], SEMI) == Some(ACTION_SEMI.entries[j])
  {
  }

  lemma ActionSemiLateEntry(j: nat)
    requires 10 <= j < |ACTION_SEMI.states|
    ensures ActionAt(ACTION_SEMI.states[j], SEMI) == Some(ACTION_SEMI.entries[j])
  {
  }

  lemma ActionSemiEntries()
    ensures ActionEntries(SEMI, ACTION_SEMI.states, ACTION_SEMI.entries)
  {
    forall j | 0 <= j < |ACTION_SEMI.states|
      ensures ActionAt(ACTION_SEMI.states[j], SEMI) == Some(ACTION_SEMI.entries[j])
    {
      if j < 10 { ActionSemiEarlyEntry(j); } else { ActionSemiLateEntry(j); }
    }
  }

  lemma ActionSemiStates()
    ensures ActionStates(SEMI, ACTION_SEMI.states)
  {
  }

  lemma ActionRowsSemi()
    ensures RowIs(ACTION_SEMI, ActionAt)
  {
    ActionSemiEntries();
    ActionSemiStates();
  }

  lemma ActionNewlineEarlyEntry(j: nat)
    requires j < 10
    ensures ActionAt(ACTION_NEWLINE.states[j], NEWLINE) == Some(ACTION_NEWLINE.entries[j])
  {
  }

  lemma ActionNewlineLateEntry(j: nat)
    requires 10 <= j < |ACTION_NEWLINE.states|
    ensures ActionAt(ACTION_NEWLINE.states[j], NEWLINE) == Some(ACTION_NEWLINE.entries[j])
  {
  }

  lemma ActionNewlineEntries()
    ensures ActionEntries(NEWLINE, ACTION_NEWLINE.states, ACTION_NEWLINE.entries)
  {
    forall j | 0 <= j < |ACTION_NEWLINE.states|
      ensures ActionAt(ACTION_NEWLINE.states[j], NEWLINE) == Some(ACTION_NEWLINE.entries[j])
    {
      if j < 10 { ActionNewlineEarlyEntry(j); } else { ActionNewlineLateEntry(j); }
    }
  }

  lemma ActionNewlineStates()
    ensures ActionStates(NEWLINE, ACTION_NEWLINE.states)
  {
  }

  lemma ActionRowsNewline()
    ensures RowIs(ACTION_NEWLINE, ActionAt)
  {
    ActionNewlineEntries();
    ActionNewlineStates();
  }

  lemma ActionRowsDot()
    ensures RowIs(ACTION_DOT, ActionAt)
  {
    assert ActionEntries(DOT, ACTION_DOT.states, ACTION_DOT.entries);
    assert ActionStates(DOT, ACTION_DOT.states);
  }

  lemma ActionRowsExtern()
    ensures RowIs(ACTION_EXTERN, ActionAt)
  {
    assert ActionEntries(EXTERN, ACTION_EXTERN.states, ACTION_EXTERN.entries);
    assert ActionStates(EXTERN, ACTION_EXTERN.states);
  }

  lemma ActionRowsLparen()
    ensures RowIs(ACTION_LPAREN, ActionAt)
    ensures RowIs(ACTION_RBRACE, ActionAt)
    ensures RowIs(ACTION_PARAMS, ActionAt)
  {
    assert ActionEntries(LPAREN, ACTION_LPAREN.states, ACTION_LPAREN.entries);
    assert ActionStates(LPAREN, ACTION_LPAREN.states);
    assert ActionEntries(RBRACE, ACTION_RBRACE.states, ACTION_RBRACE.entries);
    assert ActionStates(RBRACE, ACTION_RBRACE.states);
    assert ActionEntries(PARAMS, ACTION_PARAMS.states, ACTION_PARAMS.entries);
    assert ActionStates(PARAMS, ACTION_PARAMS.states);
  }

  lemma ActionRowsColon()
    ensures RowIs(ACTION_COLON, ActionAt)
    ensures RowIs(ACTION_RPAREN, ActionAt)
  {
    assert ActionEntries(COLON, ACTION_COLON.states, ACTION_COLON.entries);
    assert ActionStates(COLON, ACTION_COLON.states);
    assert ActionEntries(RPAREN, ACTION_RPAREN.states, ACTION_RPAREN.entries);
    assert ActionStates(RPAREN, ACTION_RPAREN.states);
  }

  lemma GotoRowsFile()
    ensures RowIs(GOTO_FILE, GotoAt)
    ensures RowIs(GOTO_OPT_ROM_OR_MACROS, GotoAt)
    ensures RowIs(GOTO_ROM_OR_MACROS, GotoAt)
  {
    assert GotoEntries(FILE, GOTO_FILE.states, GOTO_FILE.entries);
    assert GotoStates(FILE, GOTO_FILE.states);
    assert GotoEntries(OPT_ROM_OR_MACROS, GOTO_OPT_ROM_OR_MACROS.states, GOTO_OPT_ROM_OR_MACROS.entries);
    assert GotoStates(OPT_ROM_OR_MACROS, GOTO_OPT_ROM_OR_MACROS.states);
    assert GotoEntries(ROM_OR_MACROS, GOTO_ROM_OR_MACROS.states, GOTO_ROM_OR_MACROS.entries);
    assert GotoStates(ROM_OR_MACROS, GOTO_ROM_OR_MACROS.states);
  }

  lemma GotoRowsRomOrMacro()
    ensures RowIs(GOTO_ROM_OR_MACRO, GotoAt)
    ensures RowIs(GOTO_ROM_BLOCK, GotoAt)
    ensures RowIs(GOTO_MACROOP_DEF, GotoAt)
  {
    assert GotoEntries(ROM_OR_MACRO, GOTO_ROM_OR_MACRO.states, GOTO_ROM_OR_MACRO.entries);
    assert GotoStates(ROM_OR_MACRO, GOTO_ROM_OR_MACRO.states);
    assert GotoEntries(ROM_BLOCK, GOTO_ROM_BLOCK.states, GOTO_ROM_BLOCK.entries);
    assert GotoStates(ROM_BLOCK, GOTO_ROM_BLOCK.states);
    assert GotoEntries(MACROOP_DEF, GOTO_MACROOP_DEF.states, GOTO_MACROOP_DEF.entries);
    assert GotoStates(MACROOP_DEF, GOTO_MACROOP_DEF.states);
  }

  lemma GotoRowsBlock()
    ensures RowIs(GOTO_BLOCK, GotoAt)
    ensures RowIs(GOTO_STATEMENTS, GotoAt)
    ensures RowIs(GOTO_STATEMENT, GotoAt)
  {
    assert GotoEntries(BLOCK, GOTO_BLOCK.states, GOTO_BLOCK.entries);
    assert GotoStates(BLOCK, GOTO_BLOCK.states);
    assert GotoEntries(STATEMENTS, GOTO_STATEMENTS.states, GOTO_STATEMENTS.entries);
    assert GotoStates(STATEMENTS, GOTO_STATEMENTS.states);
    assert GotoEntries(STATEMENT, GOTO_STATEMENT.states, GOTO_STATEMENT.entries);
    assert GotoStates(STATEMENT, GOTO_STATEMENT.states);
  }

  lemma GotoRowsContentOfStatement()
    ensures RowIs(GOTO_CONTENT_OF_STATEMENT, GotoAt)
    ensures RowIs(GOTO_MICROOP, GotoAt)
    ensures RowIs(GOTO_DIRECTIVE, GotoAt)
  {
    assert GotoEntries(CONTENT_OF_STATEMENT, GOTO_CONTENT_OF_STATEMENT.states, GOTO_CONTENT_OF_STATEMENT.entries);
    assert GotoStates(CONTENT_OF_STATEMENT, GOTO_CONTENT_OF_STATEMENT.states);
    assert GotoEntries(MICROOP, GOTO_MICROOP.states, GOTO_MICROOP.entries);
    assert GotoStates(MICROOP, GOTO_MICROOP.states);
    assert GotoEntries(DIRECTIVE, GOTO_DIRECTIVE.states, GOTO_DIRECTIVE.entries);
    assert GotoStates(DIRECTIVE, GOTO_DIRECTIVE.states);
  }

  lemma GotoRowsLabels()
    ensures RowIs(GOTO_LABELS, GotoAt)
    ensures RowIs(GOTO_LABEL, GotoAt)
    ensures RowIs(GOTO_END_OF_STATEMENT, GotoAt)
  {
    assert GotoEntries(LABELS, GOTO_LABELS.states, GOTO_LABELS.entries);
    assert GotoStates(LABELS, GOTO_LABELS.states);
    assert GotoEntries(LABEL, GOTO_LABEL.states, GOTO_LABEL.entries);
    assert GotoStates(LABEL, GOTO_LABEL.states);
    assert GotoEntries(END_OF_STATEMENT, GOTO_END_OF_STATEMENT.states, GOTO_END_OF_STATEMENT.entries);
    assert GotoStates(END_OF_STATEMENT, GOTO_END_OF_STATEMENT.states);
  }

  ghost predicate AllRows<K>(rows: seq<Row<K>>, f: (int, K) -> Option<int>)
  {
    forall i :: 0 <= i < |rows| ==> RowIs(rows[i], f)
  }

  lemma ActionRow(i: nat)
    requires i < |ACTION_ITEMS|
    ensures RowIs(ACTION_ITEMS[i], ActionAt)
  {
    if i == 0 { ActionRowsEnd(); }
    else if i < 4 { ActionRowsDef(); }
    else if i == 4 { ActionRowsLbrace(); }
    else if i == 5 { ActionRowsId(); }
    else if i == 6 { ActionRowsSemi(); }
    else if i == 7 { ActionRowsNewline(); }
    else if i == 8 { ActionRowsDot(); }
    else if i == 9 { ActionRowsExtern(); }
    else if i < 13 { ActionRowsLparen(); }
    else { ActionRowsColon(); }
  }

  lemma ActionRows()
    ensures AllRows(ACTION_ITEMS, ActionAt)
  {
    forall i | 0 <= i < |ACTION_ITEMS| ensures RowIs(ACTION_ITEMS[i], ActionAt) { ActionRow(i); }
  }

  lemma ActionLookup(s: int, k: Terminal)
    ensures Lookup(ACTION_ITEMS, s, k) == ActionAt(s, k)
  {
    ActionRows();
    LookupIs(ACTION_ITEMS, ActionAt, s, k);
    match k {
      case END => assert ACTION_ITEMS[0].key == k;
      case DEF => assert ACTION_ITEMS[1].key == k;
      case ROM => assert ACTION_ITEMS[2].key == k;
      case MACROOP => assert ACTION_ITEMS[3].key == k;
      case LBRACE => assert ACTION_ITEMS[4].key == k;
      case ID => assert ACTION_ITEMS[5].key == k;
      case SEMI => assert ACTION_ITEMS[6].key == k;
      case NEWLINE => assert ACTION_ITEMS[7].key == k;
      case DOT => assert ACTION_ITEMS[8].key == k;
      case EXTERN => assert ACTION_ITEMS[9].key == k;
      case LPAREN => assert ACTION_ITEMS[10].key == k;
      case RBRACE => assert ACTION_ITEMS[11].key == k;
      case PARAMS => assert ACTION_ITEMS[12].key == k;
      case COLON => assert ACTION_ITEMS[13].key == k;
      case RPAREN => assert ACTION_ITEMS[14].key == k;
    }
  }

  lemma GotoRow(i: nat)
    requires i < |GOTO_ITEMS|
    ensures RowIs(GOTO_ITEMS[i], GotoAt)
  {
    if i < 3 { GotoRowsFile(); }
    else if i < 6 { GotoRowsRomOrMacro(); }
    else if i < 9 { GotoRowsBlock(); }
    else if i < 12 { GotoRowsContentOfStatement(); }
    else { GotoRowsLabels(); }
  }

  lemma GotoRows()
    ensures AllRows(GOTO_ITEMS, GotoAt)
  {
    forall i | 0 <= i < |GOTO_ITEMS| ensures RowIs(GOTO_ITEMS[i], GotoAt) { GotoRow(i); }
  }

  lemma GotoLookup(s: int, k: Nonterminal)
    ensures Lookup(GOTO_ITEMS, s, k) == GotoAt(s, k)
  {
    GotoRows();
    LookupIs(GOTO_ITEMS, GotoAt, s, k);
    match k {
      case FILE => assert GOTO_ITEMS[0].key == k;
      case OPT_ROM_OR_MACROS => assert GOTO_ITEMS[1].key == k;
      case ROM_OR_MACROS => assert GOTO_ITEMS[2].key == k;
      case ROM_OR_MACRO => assert GOTO_ITEMS[3].key == k;
      case ROM_BLOCK => assert GOTO_ITEMS[4].key == k;
      case MACROOP_DEF => assert GOTO_ITEMS[5].key == k;
      case BLOCK => assert GOTO_ITEMS[6].key == k;
      case STATEMENTS => assert GOTO_ITEMS[7].key == k;
      case STATEMENT => assert GOTO_ITEMS[8].key == k;
      case CONTENT_OF_STATEMENT => assert GOTO_ITEMS[9].key == k;
      case MICROOP => assert GOTO_ITEMS[10].key == k;
      case DIRECTIVE => assert GOTO_ITEMS[11].key == k;
      case LABELS => assert GOTO_ITEMS[12].key == k;
      case LABEL => assert GOTO_ITEMS[13].key == k;
      case END_OF_STATEMENT => assert GOTO_ITEMS[14].key == k;
      case START =>
    }
  }

  /** A terminal on which state `s` has an entry: no state of the table is without a row. */
  function SomeEntry(s: int): (a: Terminal)
    ensures 0 <= s < 46 ==> ActionAt(s, a).Some?
  {
    match s
    case 0 | 1 | 2 | 3 | 4 | 5 | 6 | 8 | 14 | 40 | 45 => END
    case 7 => MACROOP
    case 9 | 13 => LBRACE
    case 10 | 22 | 24 | 25 => ID
    case 11 | 26 | 27 | 44 => SEMI
    case 12 | 15 | 16 | 28 | 29 | 30 | 31 => DOT
    case 17 | 18 | 19 | 35 | 37 | 41 | 42 => NEWLINE
    case 20 | 23 | 33 | 34 | 36 | 43 => EXTERN
    case 21 | 32 | 38 => COLON
    case 39 => RPAREN
    case _ => END
  }

  /** What loading produces: both tables as functions of state and symbol. */
  ghost predicate Loaded(lr: Tables)
  {
    && lr.prods == Productions()
    && (forall s, a :: Act(lr, s, a) == ActionAt(s, a))
    && (forall s, n :: Go(lr, s, n) == GotoAt(s, n))
  }

  ghost function ActionsOf(s: int): map<Terminal, int>
  {
    map a: Terminal | ActionAt(s, a).Some? :: ActionAt(s, a).value
  }

  ghost function GotosOf(s: int): map<Nonterminal, int>
  {
    map n: Nonterminal | GotoAt(s, n).Some? :: GotoAt(s, n).value
  }

  /** The tables that loading produces, as a value. */
  ghost function LoadedTables(): (lr: Tables)
    ensures Loaded(lr)
  {
    Tables(Productions(),
           map s | 0 <= s < 46 :: ActionsOf(s),
           map s | 0 <= s < 46 :: GotosOf(s))
  }

  method Load() returns (lr: Tables)
    ensures Loaded(lr)
  {
    var action := Nest(ACTION_ITEMS);
    var goto := Nest(GOTO_ITEMS);
    lr := Tables(Productions(), action, goto);
    forall s, a ensures Act(lr, s, a) == ActionAt(s, a) {
      ActionLookup(s, a);
      assert Act(lr, s, a) == Find(action, s, a);
    }
    forall s, n ensures Go(lr, s, n) == GotoAt(s, n) {
      GotoLookup(s, n);
      assert Go(lr, s, n) == Find(goto, s, n);
    }
  }
}
