/**
  The certificate of the micro-assembler's parse table, and its check.

  The annotations describe the generated automaton; the lemmas check them against the table entry by
  entry, a few productions or terminals at a time, and `TableIsCertified` assembles the result.
 */
module MicroAsmCertificate {
  import opened Common
  import opened LrMachine
  import opened LrTheory
  import opened MicroAsmTables

  /** Productions under way: `Item(s, p, d)` when, on entering state `s`, the first `d` symbols of
      production `p` have just been read. */
  predicate Item(s: int, p: nat, d: nat)
  {
    match s
    case 1 => p == 0 && d == 1
    case 2 => p == 1 && d == 1
    case 3 => (p == 3 || p == 5) && d == 1
    case 4 => p == 4 && d == 1
    case 5 => p == 6 && d == 1
    case 6 => p == 7 && d == 1
    case 7 => (p == 8 || p == 9 || p == 10) && d == 1
    case 8 => p == 5 && d == 2
    case 9 => p == 8 && d == 2
    case 10 => (p == 9 || p == 10) && d == 2
    case 11 => p == 8 && d == 3
    case 12 => p == 11 && d == 1
    case 13 => (p == 9 || p == 10) && d == 3
    case 14 => p == 8 && d == 4
    case 15 => (p == 11 && d == 2) || (p == 13 && d == 1)
    case 16 => p == 12 && d == 1
    case 17 => p == 14 && d == 1
    case 18 => p == 15 && d == 1
    case 19 => p == 16 && d == 1
    case 20 => (p == 20 || p == 22 || p == 25 || p == 26) && d == 1
    case 21 => (p == 21 || p == 23 || p == 27) && d == 1
    case 22 => (p == 29 || p == 30) && d == 1
    case 23 => p == 24 && d == 1
    case 24 => p == 28 && d == 1
    case 25 => p == 9 && d == 4
    case 26 => p == 10 && d == 4
    case 27 => p == 11 && d == 3
    case 28 => p == 13 && d == 2
    case 29 => p == 14 && d == 2
    case 30 => p == 18 && d == 1
    case 31 => p == 19 && d == 1
    case 32 => (p == 20 && d == 2) || (p == 22 && d == 2) || (p == 27 && d == 1)
    case 33 => p == 25 && d == 2
    case 34 => p == 26 && d == 2
    case 35 => p == 23 && d == 2
    case 36 => p == 27 && d == 2
    case 37 => (p == 29 || p == 30) && d == 2
    case 38 => p == 28 && d == 2
    case 39 => p == 9 && d == 5
    case 40 => p == 10 && d == 5
    case 41 => p == 22 && d == 3
    case 42 => p == 30 && d == 3
    case 43 => p == 28 && d == 3
    case 44 => p == 9 && d == 6
    case 45 => p == 9 && d == 7
    case _ => false
  }

  predicate CanBeEmpty(n: Nonterminal)
  {
    n.START? || n.FILE? || n.OPT_ROM_OR_MACROS? || n.CONTENT_OF_STATEMENT?
  }

  predicate CanBegin(n: Nonterminal, a: Terminal)
  {
    match n
    case START | FILE | OPT_ROM_OR_MACROS | ROM_OR_MACROS | ROM_OR_MACRO | ROM_BLOCK | MACROOP_DEF => a.DEF?
    case BLOCK => a.LBRACE?
    case STATEMENTS | STATEMENT => a.DOT? || a.EXTERN? || a.ID? || a.NEWLINE? || a.SEMI?
    case CONTENT_OF_STATEMENT => a.DOT? || a.EXTERN? || a.ID?
    case END_OF_STATEMENT => a.NEWLINE? || a.SEMI?
    case MICROOP | LABELS | LABEL => a.EXTERN? || a.ID?
    case DIRECTIVE => a.DOT?
  }

  predicate CanFollow(n: Nonterminal, a: Terminal)
  {
    match n
    case START | FILE | OPT_ROM_OR_MACROS => a.END?
    case ROM_OR_MACROS | ROM_OR_MACRO | ROM_BLOCK | MACROOP_DEF => a.END? || a.DEF?
    case BLOCK => a.SEMI?
    case STATEMENTS | STATEMENT | END_OF_STATEMENT => a.DOT? || a.EXTERN? || a.ID? || a.NEWLINE? || a.RBRACE? || a.SEMI?
    case CONTENT_OF_STATEMENT | MICROOP | DIRECTIVE => a.NEWLINE? || a.SEMI?
    case LABELS | LABEL => a.EXTERN? || a.ID? || a.NEWLINE?
  }

  function SymbolWeight(x: Symbol): nat
  {
    match x
    case T(t) => (match t case DEF | LBRACE => 1 case ID | PARAMS | COLON => 2 case SEMI | NEWLINE => 4 case _ => 0)
    case N(n) => (
      match n
      case OPT_ROM_OR_MACROS | MICROOP | DIRECTIVE | LABEL => 1
      case ROM_OR_MACROS | STATEMENT => 2
      case ROM_OR_MACRO | END_OF_STATEMENT => 3
      case ROM_BLOCK | MACROOP_DEF => 4
      case _ => 0)
  }

  function StateRank(s: int): nat
  {
    match s case 0 => 2 case 12 | 15 => 1 case _ => 0
  }

  const CERTIFICATE := Certificate(Item, CanBeEmpty, CanBegin, CanFollow, SymbolWeight, StateRank, 5)

  // ---------------------------------------------------------------------------------------------
  // The productions, symbol by symbol
  // ---------------------------------------------------------------------------------------------

  function LhsOf(p: nat): Nonterminal
  {
    match p
    case 1 => FILE
    case 2 | 3 => OPT_ROM_OR_MACROS
    case 4 | 5 => ROM_OR_MACROS
    case 6 | 7 => ROM_OR_MACRO
    case 8 => ROM_BLOCK
    case 9 | 10 => MACROOP_DEF
    case 11 => BLOCK
    case 12 | 13 => STATEMENTS
    case 14 => STATEMENT
    case 15 | 16 | 17 => CONTENT_OF_STATEMENT
    case 18 | 19 => END_OF_STATEMENT
    case 20 | 21 | 22 | 23 => MICROOP
    case 24 | 25 | 26 => LABELS
    case 27 | 28 => LABEL
    case 29 | 30 => DIRECTIVE
    case _ => START
  }

  function LenOf(p: nat): nat
  {
    match p
    case 0 | 1 | 3 | 4 | 6 | 7 | 12 | 15 | 16 | 18 | 19 | 21 | 24 => 1
    case 5 | 13 | 14 | 20 | 23 | 25 | 26 | 27 | 29 => 2
    case 11 | 22 | 28 | 30 => 3
    case 8 => 4
    case 10 => 5
    case 9 => 7
    case _ => 0
  }

  function SymOf(p: nat, d: nat): Symbol
  {
    match p
    case 0 => N(FILE)
    case 1 => N(OPT_ROM_OR_MACROS)
    case 3 => N(ROM_OR_MACROS)
    case 4 => N(ROM_OR_MACRO)
    case 5 => (match d case 0 => N(ROM_OR_MACROS) case _ => N(ROM_OR_MACRO))
    case 6 => N(ROM_BLOCK)
    case 7 => N(MACROOP_DEF)
    case 8 => (match d case 0 => T(DEF) case 1 => T(ROM) case 2 => N(BLOCK) case _ => T(SEMI))
    case 9 => (
      match d
      case 0 => T(DEF)
      case 1 => T(MACROOP)
      case 2 | 4 => T(ID)
      case 3 => T(LPAREN)
      case 5 => T(RPAREN)
      case _ => T(SEMI))
    case 10 => (match d case 0 => T(DEF) case 1 => T(MACROOP) case 2 => T(ID) case 3 => N(BLOCK) case _ => T(SEMI))
    case 11 => (match d case 0 => T(LBRACE) case 1 => N(STATEMENTS) case _ => T(RBRACE))
    case 12 => N(STATEMENT)
    case 13 => (match d case 0 => N(STATEMENTS) case _ => N(STATEMENT))
    case 14 => (match d case 0 => N(CONTENT_OF_STATEMENT) case _ => N(END_OF_STATEMENT))
    case 15 => N(MICROOP)
    case 16 => N(DIRECTIVE)
    case 18 => T(NEWLINE)
    case 19 => T(SEMI)
    case 20 => (match d case 0 => N(LABELS) case _ => T(ID))
    case 21 => T(ID)
    case 22 => (match d case 0 => N(LABELS) case 1 => T(ID) case _ => T(PARAMS))
    case 23 => (match d case 0 => T(ID) case _ => T(PARAMS))
    case 24 => N(LABEL)
    case 25 => (match d case 0 => N(LABELS) case _ => N(LABEL))
    case 26 => (match d case 0 => N(LABELS) case _ => T(NEWLINE))
    case 27 => (match d case 0 => T(ID) case _ => T(COLON))
    case 28 => (match d case 0 => T(EXTERN) case 1 => T(ID) case _ => T(COLON))
    case 29 => (match d case 0 => T(DOT) case _ => T(ID))
    case 30 => (match d case 0 => T(DOT) case 1 => T(ID) case _ => T(PARAMS))
    case _ => N(START)
  }

  lemma ProductionIs(p: nat)
    requires p < 31
    ensures |Productions()| == 31 && Productions()[p].lhs == LhsOf(p) && |Productions()[p].rhs| == LenOf(p)
    ensures forall d :: 0 <= d < LenOf(p) ==> Productions()[p].rhs[d] == SymOf(p, d)
  {
  }

  // ---------------------------------------------------------------------------------------------
  // The automaton: its edges, and the symbol each state is entered on
  // ---------------------------------------------------------------------------------------------

  function ShiftAt(s: int, t: Terminal): Option<int>
  {
    match t
    case DEF => (match s case 0 | 3 => Some(7) case _ => None)
    case ROM => (match s case 7 => Some(9) case _ => None)
    case MACROOP => (match s case 7 => Some(10) case _ => None)
    case LBRACE => (match s case 9 | 13 => Some(12) case _ => None)
    case ID => (
      match s
      case 10 => Some(13)
      case 12 | 15 => Some(21)
      case 20 => Some(32)
      case 22 => Some(37)
      case 24 => Some(38)
      case 25 => Some(39)
      case _ => None)
    case SEMI => (
      match s
      case 11 => Some(14)
      case 17 => Some(31)
      case 26 => Some(40)
      case 44 => Some(45)
      case _ => None)
    case NEWLINE => (match s case 17 => Some(30) case 20 => Some(34) case _ => None)
    case DOT => (match s case 12 | 15 => Some(22) case _ => None)
    case EXTERN => (match s case 12 | 15 | 20 => Some(24) case _ => None)
    case LPAREN => (match s case 13 => Some(25) case _ => None)
    case RBRACE => (match s case 15 => Some(27) case _ => None)
    case PARAMS => (match s case 21 => Some(35) case 32 => Some(41) case 37 => Some(42) case _ => None)
    case COLON => (match s case 21 | 32 => Some(36) case 38 => Some(43) case _ => None)
    case RPAREN => (match s case 39 => Some(44) case _ => None)
    case END => None
  }

  function Edge(s: int, x: Symbol): Option<int>
  {
    match x
    case T(t) => ShiftAt(s, t)
    case N(n) => GotoAt(s, n)
  }

  function EntrySymbol(q: int): Symbol
  {
    match q
    case 1 => N(FILE)
    case 2 => N(OPT_ROM_OR_MACROS)
    case 3 => N(ROM_OR_MACROS)
    case 4 | 8 => N(ROM_OR_MACRO)
    case 5 => N(ROM_BLOCK)
    case 6 => N(MACROOP_DEF)
    case 7 => T(DEF)
    case 9 => T(ROM)
    case 10 => T(MACROOP)
    case 11 | 26 => N(BLOCK)
    case 12 => T(LBRACE)
    case 13 | 21 | 32 | 37 | 38 | 39 => T(ID)
    case 14 | 31 | 40 | 45 => T(SEMI)
    case 15 => N(STATEMENTS)
    case 16 | 28 => N(STATEMENT)
    case 17 => N(CONTENT_OF_STATEMENT)
    case 18 => N(MICROOP)
    case 19 => N(DIRECTIVE)
    case 20 => N(LABELS)
    case 22 => T(DOT)
    case 23 | 33 => N(LABEL)
    case 24 => T(EXTERN)
    case 25 => T(LPAREN)
    case 27 => T(RBRACE)
    case 29 => N(END_OF_STATEMENT)
    case 30 | 34 => T(NEWLINE)
    case 35 | 41 | 42 => T(PARAMS)
    case 36 | 43 => T(COLON)
    case 44 => T(RPAREN)
    case _ => N(START)
  }

  predicate UnderWay(s: int, p: nat, d: nat)
  {
    && p < 31 && d <= LenOf(p)
    && (if d > 0 then Item(s, p, d) else if p == 0 then s == 0 else GotoAt(s, LhsOf(p)).Some?)
  }

  lemma ShiftIsAction(s: int, t: Terminal)
    ensures ShiftAt(s, t) == if ActionAt(s, t).Some? && ActionAt(s, t).value > 0 then ActionAt(s, t) else None
  {
  }

  lemma EdgeEntersOnItsSymbol(s: int, x: Symbol)
    requires Edge(s, x).Some?
    ensures EntrySymbol(Edge(s, x).value) == x && 0 < Edge(s, x).value < 46
  {
  }

  lemma ItemReadsEntrySymbol(q: int, p: nat, d: nat)
    requires Item(q, p, d)
    ensures p < 31 && 1 <= d <= LenOf(p) && SymOf(p, d - 1) == EntrySymbol(q)
  {
  }

  lemma InheritOverIdOrSemi(s: int, t: Terminal, p: nat, d: nat)
    requires (t.ID? || t.SEMI?) && ShiftAt(s, t).Some? && Item(ShiftAt(s, t).value, p, d) && d > 1
    ensures Item(s, p, d - 1)
  {
  }

  lemma InheritOverParams(s: int, t: Terminal, p: nat, d: nat)
    requires (t.PARAMS? || t.COLON? || t.NEWLINE? || t.EXTERN? || t.DOT?) && ShiftAt(s, t).Some?
    requires Item(ShiftAt(s, t).value, p, d) && d > 1
    ensures Item(s, p, d - 1)
  {
  }

  lemma InheritOverOther(s: int, t: Terminal, p: nat, d: nat)
    requires !(t.ID? || t.SEMI? || t.PARAMS? || t.COLON? || t.NEWLINE? || t.EXTERN? || t.DOT?)
    requires ShiftAt(s, t).Some? && Item(ShiftAt(s, t).value, p, d) && d > 1
    ensures Item(s, p, d - 1)
  {
  }

  lemma InheritOverNonterminal(s: int, n: Nonterminal, p: nat, d: nat)
    requires GotoAt(s, n).Some? && Item(GotoAt(s, n).value, p, d) && d > 1
    ensures Item(s, p, d - 1)
  {
  }

  lemma StartedByShift(s: int, t: Terminal, p: nat)
    requires ShiftAt(s, t).Some? && Item(ShiftAt(s, t).value, p, 1)
    ensures p > 0 && GotoAt(s, LhsOf(p)).Some?
  {
  }

  lemma StartedByGoto(s: int, n: Nonterminal, p: nat)
    requires GotoAt(s, n).Some? && Item(GotoAt(s, n).value, p, 1)
    ensures if p == 0 then s == 0 else GotoAt(s, LhsOf(p)).Some?
  {
  }

  lemma BackwardEdge(s: int, x: Symbol, p: nat, d: nat)
    requires Edge(s, x).Some? && Item(Edge(s, x).value, p, d)
    ensures 1 <= d <= LenOf(p) && SymOf(p, d - 1) == x && UnderWay(s, p, d - 1)
  {
    EdgeEntersOnItsSymbol(s, x);
    ItemReadsEntrySymbol(Edge(s, x).value, p, d);
    match x {
      case T(t) =>
        if d == 1 { StartedByShift(s, t, p); }
        else if t.ID? || t.SEMI? { InheritOverIdOrSemi(s, t, p, d); }
        else if t.PARAMS? || t.COLON? || t.NEWLINE? || t.EXTERN? || t.DOT? { InheritOverParams(s, t, p, d); }
        else { InheritOverOther(s, t, p, d); }
      case N(n) =>
        if d == 1 { StartedByGoto(s, n, p); } else { InheritOverNonterminal(s, n, p, d); }
    }
  }

  lemma ForwardFirstOfDefinition(s: int, p: nat)
    requires p < 12 && UnderWay(s, p, 0) && 0 < LenOf(p)
    ensures Edge(s, SymOf(p, 0)).Some? && Item(Edge(s, SymOf(p, 0)).value, p, 1)
  {
  }

  lemma ForwardFirstOfStatement(s: int, p: nat)
    requires 12 <= p && UnderWay(s, p, 0) && 0 < LenOf(p)
    ensures Edge(s, SymOf(p, 0)).Some? && Item(Edge(s, SymOf(p, 0)).value, p, 1)
  {
  }

  lemma ForwardSecond(s: int, p: nat)
    requires UnderWay(s, p, 1) && 1 < LenOf(p)
    ensures Edge(s, SymOf(p, 1)).Some? && Item(Edge(s, SymOf(p, 1)).value, p, 2)
  {
  }

  lemma ForwardLater(s: int, p: nat, d: nat)
    requires UnderWay(s, p, d) && 2 <= d < LenOf(p)
    ensures Edge(s, SymOf(p, d)).Some? && Item(Edge(s, SymOf(p, d)).value, p, d + 1)
  {
  }

  lemma ReduceCompleteDefinition(s: int, a: Terminal, p: nat)
    requires 1 <= p < 15 && UnderWay(s, p, LenOf(p)) && CanFollow(LhsOf(p), a)
    ensures ActionAt(s, a).Some? && ActionAt(s, a).value + p == 0
  {
  }

  lemma ReduceCompleteStatement(s: int, a: Terminal, p: nat)
    requires 15 <= p && UnderWay(s, p, LenOf(p)) && CanFollow(LhsOf(p), a)
    ensures ActionAt(s, a).Some? && ActionAt(s, a).value + p == 0
  {
  }

  lemma ReduceOnFollow(s: int, a: Terminal, p: nat)
    requires 1 <= p && ActionAt(s, a).Some? && ActionAt(s, a).value + p == 0
    ensures p < 31 && CanFollow(LhsOf(p), a) && (LenOf(p) == 0 ==> UnderWay(s, p, 0))
  {
  }

  lemma ReduceOnlyCompleteAtSemi(s: int, p: nat)
    requires 1 <= p && LenOf(p) > 0 && ActionAt(s, SEMI).Some? && ActionAt(s, SEMI).value + p == 0
    ensures Item(s, p, LenOf(p))
  {
  }

  lemma ReduceOnlyCompleteAtNewline(s: int, p: nat)
    requires 1 <= p && LenOf(p) > 0 && ActionAt(s, NEWLINE).Some? && ActionAt(s, NEWLINE).value + p == 0
    ensures Item(s, p, LenOf(p))
  {
  }

  lemma ReduceOnlyCompleteAtId(s: int, p: nat)
    requires 1 <= p && LenOf(p) > 0 && ActionAt(s, ID).Some? && ActionAt(s, ID).value + p == 0
    ensures Item(s, p, LenOf(p))
  {
  }

  lemma ReduceOnlyCompleteAtDot(s: int, p: nat)
    requires 1 <= p && LenOf(p) > 0 && ActionAt(s, DOT).Some? && ActionAt(s, DOT).value + p == 0
    ensures Item(s, p, LenOf(p))
  {
  }

  lemma ReduceOnlyCompleteAtExtern(s: int, p: nat)
    requires 1 <= p && LenOf(p) > 0 && ActionAt(s, EXTERN).Some? && ActionAt(s, EXTERN).value + p == 0
    ensures Item(s, p, LenOf(p))
  {
  }

  lemma ReduceOnlyCompleteAtRbrace(s: int, p: nat)
    requires 1 <= p && LenOf(p) > 0 && ActionAt(s, RBRACE).Some? && ActionAt(s, RBRACE).value + p == 0
    ensures Item(s, p, LenOf(p))
  {
  }

  lemma ReduceOnlyCompleteAtEnd(s: int, a: Terminal, p: nat)
    requires 1 <= p && LenOf(p) > 0 && ActionAt(s, a).Some? && ActionAt(s, a).value + p == 0
    requires a.END? || a.DEF?
    ensures Item(s, p, LenOf(p))
  {
  }

  lemma NoReduceElsewhere(s: int, a: Terminal)
    requires !(a.SEMI? || a.NEWLINE? || a.ID? || a.DOT? || a.EXTERN? || a.RBRACE? || a.END? || a.DEF?)
    ensures ActionAt(s, a).Some? ==> ActionAt(s, a).value > 0
  {
  }

  lemma ShrinkShift(s: int, t: Terminal)
    requires ShiftAt(s, t).Some?
    ensures SymbolWeight(T(t)) + StateRank(ShiftAt(s, t).value) + 1 <= 5
  {
  }

  lemma ShrinkReduce(s: int, p: nat)
    requires 1 <= p < 31 && GotoAt(s, LhsOf(p)).Some?
    ensures SymbolWeight(N(LhsOf(p))) + StateRank(GotoAt(s, LhsOf(p)).value) + 1 <=
      if LenOf(p) == 0 then StateRank(s)
      else if LenOf(p) == 1 then SymbolWeight(SymOf(p, 0))
      else SymbolWeight(SymOf(p, 0)) + SymbolWeight(SymOf(p, LenOf(p) - 1))
  {
  }

  /** Only the first symbol of a production can derive the empty string. */
  lemma LaterSymbolsNotNullable(p: nat, d: nat)
    requires p < 31 && 1 <= d < LenOf(p)
    ensures !Nullable(CERTIFICATE, SymOf(p, d))
  {
  }

  lemma FirstTerminalBegins(p: nat)
    requires p < 31 && 0 < LenOf(p) && SymOf(p, 0).T?
    ensures CanBegin(LhsOf(p), SymOf(p, 0).t)
  {
  }

  lemma FirstNonterminalBegins(p: nat, b: Terminal)
    requires p < 31 && 0 < LenOf(p) && SymOf(p, 0).N? && CanBegin(SymOf(p, 0).n, b)
    ensures CanBegin(LhsOf(p), b)
  {
  }

  lemma NullablePrefix(p: nat, b: Terminal)
    requires p < 31 && 0 < LenOf(p) && Nullable(CERTIFICATE, SymOf(p, 0))
    ensures if LenOf(p) == 1 then CanBeEmpty(LhsOf(p))
      else First(CERTIFICATE, SymOf(p, 1), b) ==> CanBegin(LhsOf(p), b)
  {
  }

  lemma NextSymbolFollows(p: nat, d: nat, b: Terminal)
    requires p < 31 && d < LenOf(p) && SymOf(p, d).N?
    ensures if d + 1 == LenOf(p) then CanFollow(LhsOf(p), b) ==> CanFollow(SymOf(p, d).n, b)
      else First(CERTIFICATE, SymOf(p, d + 1), b) ==> CanFollow(SymOf(p, d).n, b)
  {
  }

  // ---------------------------------------------------------------------------------------------
  // The certificate holds of the loaded tables
  // ---------------------------------------------------------------------------------------------

  lemma TransIs(lr: Tables, s: int, x: Symbol)
    requires Loaded(lr)
    ensures Trans(lr, s, x) == Edge(s, x)
  {
    if x.T? { ShiftIsAction(s, x.t); }
  }

  lemma ActiveIs(lr: Tables, s: int, p: nat, d: nat)
    requires Loaded(lr)
    ensures Active(lr, CERTIFICATE, s, p, d) <==> UnderWay(s, p, d)
  {
    if p < 31 { ProductionIs(p); }
  }

  lemma CheckBackward(lr: Tables, s: int, x: Symbol, p: nat, d: nat)
    requires Loaded(lr)
    ensures BackwardAt(lr, CERTIFICATE, s, x, p, d)
  {
    TransIs(lr, s, x);
    if Edge(s, x).Some? && Item(Edge(s, x).value, p, d) {
      BackwardEdge(s, x, p, d);
      ActiveIs(lr, s, p, d - 1);
      ProductionIs(p);
    }
  }

  lemma CheckForward(lr: Tables, s: int, p: nat, d: nat)
    requires Loaded(lr)
    ensures ForwardAt(lr, CERTIFICATE, s, p, d)
  {
    ActiveIs(lr, s, p, d);
    if UnderWay(s, p, d) && d < LenOf(p) {
      ProductionIs(p);
      TransIs(lr, s, SymOf(p, d));
      if d >= 2 { ForwardLater(s, p, d); }
      else if d == 1 { ForwardSecond(s, p); }
      else if p < 12 { ForwardFirstOfDefinition(s, p); }
      else { ForwardFirstOfStatement(s, p); }
    }
  }

  lemma CheckReduces(lr: Tables, s: int, a: Terminal, p: nat)
    requires Loaded(lr)
    ensures ReducesAt(lr, CERTIFICATE, s, a, p)
  {
    assert Act(lr, s, a) == ActionAt(s, a);
    if 1 <= p && ReducesBy(lr, s, a, p) {
      ReduceOnFollow(s, a, p);
      if LenOf(p) == 0 { }
      else if a.SEMI? { ReduceOnlyCompleteAtSemi(s, p); }
      else if a.NEWLINE? { ReduceOnlyCompleteAtNewline(s, p); }
      else if a.ID? { ReduceOnlyCompleteAtId(s, p); }
      else if a.DOT? { ReduceOnlyCompleteAtDot(s, p); }
      else if a.EXTERN? { ReduceOnlyCompleteAtExtern(s, p); }
      else if a.RBRACE? { ReduceOnlyCompleteAtRbrace(s, p); }
      else if a.END? || a.DEF? { ReduceOnlyCompleteAtEnd(s, a, p); }
      else { NoReduceElsewhere(s, a); }
    }
    if 1 <= p < 31 {
      ProductionIs(p);
      ActiveIs(lr, s, p, LenOf(p));
      if UnderWay(s, p, LenOf(p)) && CanFollow(LhsOf(p), a) {
        if p < 15 { ReduceCompleteDefinition(s, a, p); } else { ReduceCompleteStatement(s, a, p); }
      }
    }
  }

  lemma CheckAccepts(lr: Tables, s: int, a: Terminal)
    requires Loaded(lr)
    ensures AcceptsAt(lr, CERTIFICATE, s, a)
  {
    assert Act(lr, s, a) == ActionAt(s, a);
  }

  lemma CheckClosed(lr: Tables, s: int, x: Symbol)
    requires Loaded(lr)
    ensures ClosedAt(lr, s, x)
  {
    TransIs(lr, s, x);
    if Edge(s, x).Some? {
      EdgeEntersOnItsSymbol(s, x);
      var q := Edge(s, x).value;
      assert Act(lr, q, SomeEntry(q)) == ActionAt(q, SomeEntry(q));
    }
  }

  lemma CheckFirst(p: nat, b: Terminal)
    ensures FirstAt(Productions(), CERTIFICATE, p, b)
  {
    if p < 31 {
      ProductionIs(p);
      var rhs := Productions()[p].rhs;
      UnfoldStart(CERTIFICATE, rhs, 0, END, b);
      if LenOf(p) > 0 {
        UnfoldStart(CERTIFICATE, rhs, 1, END, b);
        if SymOf(p, 0).T? { FirstTerminalBegins(p); }
        else if CanBegin(SymOf(p, 0).n, b) { FirstNonterminalBegins(p, b); }
        if Nullable(CERTIFICATE, SymOf(p, 0)) { NullablePrefix(p, b); }
        if LenOf(p) > 1 { LaterSymbolsNotNullable(p, 1); }
      }
    }
  }

  lemma FollowedBy(p: nat, d: nat, a: Terminal, b: Terminal)
    requires p < 31 && d < LenOf(p) && SymOf(p, d).N?
    ensures if d + 1 == LenOf(p) then CanFollow(LhsOf(p), a) && a == b ==> CanFollow(SymOf(p, d).n, b)
      else !Nullable(CERTIFICATE, SymOf(p, d + 1)) &&
           (First(CERTIFICATE, SymOf(p, d + 1), b) ==> CanFollow(SymOf(p, d).n, b))
  {
    NextSymbolFollows(p, d, b);
    if d + 1 < LenOf(p) { LaterSymbolsNotNullable(p, d + 1); }
  }

  lemma CheckFollow(p: nat, d: nat, a: Terminal, b: Terminal)
    ensures FollowAt(Productions(), CERTIFICATE, p, d, a, b)
  {
    if p < 31 && d < LenOf(p) {
      ProductionIs(p);
      UnfoldStart(CERTIFICATE, Productions()[p].rhs, d + 1, a, b);
      if SymOf(p, d).N? { FollowedBy(p, d, a, b); }
    }
  }

  lemma CheckShrinks(lr: Tables, s: int, a: Terminal, p: nat)
    requires Loaded(lr)
    ensures ShrinksAt(lr, CERTIFICATE, s, a, p)
  {
    TransIs(lr, s, T(a));
    if ShiftAt(s, a).Some? { ShrinkShift(s, a); }
    if 1 <= p < 31 {
      ProductionIs(p);
      WeightOfEnds(CERTIFICATE, Productions()[p].rhs);
      if GotoAt(s, LhsOf(p)).Some? { ShrinkReduce(s, p); }
    }
  }

  lemma TableIsCertified(lr: Tables)
    requires Loaded(lr)
    ensures Certified(lr, CERTIFICATE)
  {
    var k := CERTIFICATE;
    forall s, x, p, d ensures BackwardAt(lr, k, s, x, p, d) { CheckBackward(lr, s, x, p, d); }
    forall s, p, d ensures ForwardAt(lr, k, s, p, d) { CheckForward(lr, s, p, d); }
    forall s, a, p ensures ReducesAt(lr, k, s, a, p) { CheckReduces(lr, s, a, p); }
    forall s, a ensures AcceptsAt(lr, k, s, a) { CheckAccepts(lr, s, a); }
    forall s, x ensures ClosedAt(lr, s, x) { CheckClosed(lr, s, x); }
    forall p, b ensures FirstAt(lr.prods, k, p, b) { CheckFirst(p, b); }
    forall p, d, a, b ensures FollowAt(lr.prods, k, p, d, a, b) { CheckFollow(p, d, a, b); }
    forall s, a, p ensures ShrinksAt(lr, k, s, a, p) { CheckShrinks(lr, s, a, p); }
    ProductionIs(0);
    assert lr.prods[0].rhs == [N(FILE)];
    assert Act(lr, 0, END) == ActionAt(0, END);
  }
}
