/**
  The theorems about the micro-assembler's parser: it decides its language in linear time, returns
  the only derivation there is, and reports an error at the first token that cannot be continued.
 */
module MicroAsmTheorems {
  import opened Common
  import opened LrMachine
  import opened LrTheory
  import opened LrPrefix
  import opened LrDriver
  import opened MicroAsmTables
  import opened MicroAsmCertificate

  /** `t` derives the token string `w` in the listed grammar. */
  ghost predicate Parses(t: Tree, w: seq<Token>) { IsParse(Productions(), t, w) }

  /** Steps within which every run has stopped. */
  function StepBound(w: seq<Token>): nat { 5 * |w| + 3 }

  /** The result of the machine on `w`. */
  ghost function Result(lr: Tables, w: seq<Token>): Outcome { Exec(lr, Init(w), StepBound(w)) }

  /** Safety and halting: on any token string the loaded tables drive the machine, in at most
      five steps per token and three more, to acceptance or to a syntax error; it never pops below
      the start state, misses a goto, or enters a state without a row. */
  lemma EveryRunHalts(lr: Tables, w: seq<Token>)
    requires Loaded(lr)
    ensures Result(lr, w).Accepted? || Result(lr, w).Rejected?
  {
    TableIsCertified(lr);
    ExecSound(lr, CERTIFICATE, Init(w), StepBound(w));
  }

  /** Every reachable configuration: the stack is a path of the automaton, each stacked symbol
      derives its own tokens, and together they are exactly the tokens consumed. */
  lemma EveryStepSound(lr: Tables, w: seq<Token>, n: nat)
    requires Loaded(lr) && Exec(lr, Init(w), n).Next?
    ensures var c := Exec(lr, Init(w), n).c; ValidStack(lr, c) && Consumed(c) + c.rest == w
  {
    TableIsCertified(lr);
    ExecSound(lr, CERTIFICATE, Init(w), n);
    assert [] + w == w;
  }

  /** Soundness and completeness: the machine returns `t` on `w` exactly when `t` derives `w`. */
  lemma ParserDecides(lr: Tables, w: seq<Token>, t: Tree)
    requires Loaded(lr)
    ensures Result(lr, w) == Accepted(t) <==> Parses(t, w)
  {
    TableIsCertified(lr);
    RunDecides(lr, CERTIFICATE, w, StepBound(w), t);
  }

  /** Derivation trees are linear in the token string, even though the grammar has empty and
      single-symbol rules. */
  lemma TreesAreLinear(t: Tree, w: seq<Token>)
    requires Parses(t, w)
    ensures Size(t) < StepBound(w)
  {
    TableIsCertified(LoadedTables());
    SizeBound(LoadedTables(), CERTIFICATE, t, StepBound(w));
  }

  /** The grammar is unambiguous. */
  lemma DerivationIsUnique(t: Tree, u: Tree, w: seq<Token>)
    requires Parses(t, w) && Parses(u, w)
    ensures t == u
  {
    ParserDecides(LoadedTables(), w, t);
    ParserDecides(LoadedTables(), w, u);
  }

  // ---------------------------------------------------------------------------------------------
  // Errors
  // ---------------------------------------------------------------------------------------------

  function Choice(s: int): (nat, nat)
  {
    match s
    case 1 => (0, 1)
    case 2 => (1, 1)
    case 3 => (3, 1)
    case 4 => (4, 1)
    case 5 => (6, 1)
    case 6 => (7, 1)
    case 7 => (8, 1)
    case 8 => (5, 2)
    case 9 => (8, 2)
    case 10 => (10, 2)
    case 11 => (8, 3)
    case 12 => (11, 1)
    case 13 => (10, 3)
    case 14 => (8, 4)
    case 15 => (11, 2)
    case 16 => (12, 1)
    case 17 => (14, 1)
    case 18 => (15, 1)
    case 19 => (16, 1)
    case 20 => (20, 1)
    case 21 => (21, 1)
    case 22 => (29, 1)
    case 23 => (24, 1)
    case 24 => (28, 1)
    case 25 => (9, 4)
    case 26 => (10, 4)
    case 27 => (11, 3)
    case 28 => (13, 2)
    case 29 => (14, 2)
    case 30 => (18, 1)
    case 31 => (19, 1)
    case 32 => (20, 2)
    case 33 => (25, 2)
    case 34 => (26, 2)
    case 35 => (23, 2)
    case 36 => (27, 2)
    case 37 => (29, 2)
    case 38 => (28, 2)
    case 39 => (9, 5)
    case 40 => (10, 5)
    case 41 => (22, 3)
    case 42 => (30, 3)
    case 43 => (28, 3)
    case 44 => (9, 6)
    case 45 => (9, 7)
    case _ => (0, 1)
  }

  function Depth(s: int): nat
  {
    match s
    case 2 | 12 | 16 | 30 | 31 => 1
    case 3 | 17 => 2
    case 4 | 18 | 19 => 3
    case 5 | 6 | 20 | 21 | 22 => 4
    case 7 | 23 => 5
    case 24 => 6
    case _ => 0
  }

  function Word(t: Terminal): Tree
    requires t != END
  {
    Leaf(Lexeme(t, ""))
  }

  function SmallestStatement(): Tree { Node(14, [Node(17, []), Node(18, [Word(NEWLINE)])]) }

  function SmallestBlock(): Tree { Node(11, [Word(LBRACE), Node(12, [SmallestStatement()]), Word(RBRACE)]) }

  function SmallestRomBlock(): Tree { Node(8, [Word(DEF), Word(ROM), SmallestBlock(), Word(SEMI)]) }

  function Smallest(n: Nonterminal): Tree
  {
    match n
    case START | FILE => Node(1, [Node(2, [])])
    case OPT_ROM_OR_MACROS => Node(2, [])
    case ROM_OR_MACROS => Node(4, [Node(6, [SmallestRomBlock()])])
    case ROM_OR_MACRO => Node(6, [SmallestRomBlock()])
    case ROM_BLOCK => SmallestRomBlock()
    case MACROOP_DEF => Node(10, [Word(DEF), Word(MACROOP), Word(ID), SmallestBlock(), Word(SEMI)])
    case BLOCK => SmallestBlock()
    case STATEMENTS => Node(12, [SmallestStatement()])
    case STATEMENT => SmallestStatement()
    case CONTENT_OF_STATEMENT => Node(17, [])
    case END_OF_STATEMENT => Node(18, [Word(NEWLINE)])
    case MICROOP => Node(21, [Word(ID)])
    case DIRECTIVE => Node(29, [Word(DOT), Word(ID)])
    case LABELS => Node(24, [Node(27, [Word(ID), Word(COLON)])])
    case LABEL => Node(27, [Word(ID), Word(COLON)])
  }

  const COMPLETION := Completion(Choice, Smallest, Depth)

  lemma ChoiceIsItem(q: int)
    requires 0 < q < 46
    ensures Choice(q).1 >= 1 && UnderWay(q, Choice(q).0, Choice(q).1)
  {
  }

  lemma ChoiceDescends(q: int, s: int)
    requires 1 < q < 46 && Choice(q).1 == 1 && GotoAt(s, LhsOf(Choice(q).0)).Some?
    ensures Choice(q).0 > 0 && Depth(GotoAt(s, LhsOf(Choice(q).0)).value) < Depth(q)
  {
  }

  lemma TableIsLive(lr: Tables)
    requires Loaded(lr)
    ensures Live(lr, CERTIFICATE, COMPLETION)
  {
    forall s, x, s' ensures LiveAt(lr, CERTIFICATE, COMPLETION, s, x, s') {
      TransIs(lr, s, x);
      if Edge(s, x).Some? {
        var q := Edge(s, x).value;
        EdgeEntersOnItsSymbol(s, x);
        ChoiceIsItem(q);
        var (p, d) := Choice(q);
        ActiveIs(lr, q, p, d);
        ProductionIs(p);
        if p > 0 && d == 1 && GotoAt(s', LhsOf(p)).Some? {
          ChoiceDescends(q, s');
        }
      }
    }
  }

  lemma SymbolsAreBuildable(p: nat, d: nat)
    requires p < 31 && d < LenOf(p)
    ensures Buildable(SymOf(p, d))
  {
  }

  lemma Grow(p: nat, kids: seq<Tree>)
    requires 1 <= p < 31 && |kids| == LenOf(p)
    requires forall i :: 0 <= i < |kids| ==>
               Derives(Productions(), kids[i]) && Root(Productions(), kids[i]) == SymOf(p, i)
    ensures Derives(Productions(), Node(p, kids)) && Root(Productions(), Node(p, kids)) == N(LhsOf(p))
  {
    ProductionIs(p);
  }

  lemma SmallestStatementDerives()
    ensures Derives(Productions(), SmallestStatement()) && Root(Productions(), SmallestStatement()) == N(STATEMENT)
    ensures Derives(Productions(), Node(12, [SmallestStatement()]))
    ensures Root(Productions(), Node(12, [SmallestStatement()])) == N(STATEMENTS)
  {
    Grow(17, []);
    Grow(18, [Word(NEWLINE)]);
    Grow(14, [Node(17, []), Node(18, [Word(NEWLINE)])]);
    Grow(12, [SmallestStatement()]);
  }

  lemma SmallestBlockDerives()
    ensures Derives(Productions(), SmallestBlock()) && Root(Productions(), SmallestBlock()) == N(BLOCK)
    ensures Derives(Productions(), SmallestRomBlock()) && Root(Productions(), SmallestRomBlock()) == N(ROM_BLOCK)
  {
    SmallestStatementDerives();
    Grow(11, [Word(LBRACE), Node(12, [SmallestStatement()]), Word(RBRACE)]);
    Grow(8, [Word(DEF), Word(ROM), SmallestBlock(), Word(SEMI)]);
  }

  lemma SmallestDefinitionDerives(n: Nonterminal)
    requires n.ROM_OR_MACROS? || n.ROM_OR_MACRO? || n.ROM_BLOCK? || n.MACROOP_DEF? || n.BLOCK?
    ensures Derives(Productions(), Smallest(n)) && Root(Productions(), Smallest(n)) == N(n)
  {
    SmallestBlockDerives();
    match n {
      case ROM_OR_MACROS => Grow(6, [SmallestRomBlock()]); Grow(4, [Node(6, [SmallestRomBlock()])]);
      case ROM_OR_MACRO => Grow(6, [SmallestRomBlock()]);
      case ROM_BLOCK =>
      case MACROOP_DEF => Grow(10, [Word(DEF), Word(MACROOP), Word(ID), SmallestBlock(), Word(SEMI)]);
      case BLOCK =>
    }
  }

  lemma SmallestLabelsDerive()
    ensures Derives(Productions(), Smallest(LABELS)) && Root(Productions(), Smallest(LABELS)) == N(LABELS)
    ensures Derives(Productions(), Smallest(LABEL)) && Root(Productions(), Smallest(LABEL)) == N(LABEL)
  {
    Grow(27, [Word(ID), Word(COLON)]);
    Grow(24, [Node(27, [Word(ID), Word(COLON)])]);
  }

  lemma SmallestDerives(n: Nonterminal)
    requires n != START
    ensures Derives(Productions(), Smallest(n)) && Root(Productions(), Smallest(n)) == N(n)
  {
    match n {
      case FILE => Grow(2, []); Grow(1, [Node(2, [])]);
      case OPT_ROM_OR_MACROS => Grow(2, []);
      case STATEMENTS => SmallestStatementDerives();
      case STATEMENT => SmallestStatementDerives();
      case CONTENT_OF_STATEMENT => Grow(17, []);
      case END_OF_STATEMENT => Grow(18, [Word(NEWLINE)]);
      case MICROOP => Grow(21, [Word(ID)]);
      case DIRECTIVE => Grow(29, [Word(DOT), Word(ID)]);
      case LABELS => SmallestLabelsDerive();
      case LABEL => SmallestLabelsDerive();
      case _ => SmallestDefinitionDerives(n);
    }
  }

  lemma GrammarIsProductive()
    ensures Productive(Productions(), COMPLETION)
  {
    forall p: nat, n ensures ProductiveAt(Productions(), COMPLETION, p, n) {
      if p < 31 {
        ProductionIs(p);
        forall i | 0 <= i < LenOf(p) ensures Buildable(Productions()[p].rhs[i]) { SymbolsAreBuildable(p, i); }
      }
      if n != START { SmallestDerives(n); }
    }
  }

  /** Viable prefixes: whatever has been consumed, on any input and at any point of the run, is the
      beginning of some sentence. */
  lemma ConsumedIsViable(lr: Tables, w: seq<Token>, n: nat) returns (t: Tree)
    requires Loaded(lr) && Exec(lr, Init(w), n).Next?
    ensures Parses(t, Yield(t)) && Consumed(Exec(lr, Init(w), n).c) <= Yield(t)
  {
    EveryStepSound(lr, w, n);
    TableIsCertified(lr);
    TableIsLive(lr);
    GrammarIsProductive();
    t := Finish(lr, CERTIFICATE, COMPLETION, Exec(lr, Init(w), n).c);
  }

  /** Earliest error: no sentence agrees with the input up to and including the token at which the
      machine stops; at the end of the input, the input itself is not a sentence. */
  lemma ErrorIsEarliest(lr: Tables, w: seq<Token>, n: nat, c: Config, t: Tree)
    requires Loaded(lr) && StopsAt(lr, w, n, c)
    requires Parses(t, Yield(t)) && Consumed(c) <= Yield(t)
    ensures Look(Yield(t)[|Consumed(c)|..]) != Look(c.rest)
  {
    TableIsCertified(lr);
    StopsOutsideSentences(lr, CERTIFICATE, w, n, c, t);
  }

  /** Loading the table module and running the driver on a token string: the derivation of `w` when
      there is one, a syntax error when there is none, in linearly many steps. */
  method ParseMicroAsm(w: seq<Token>) returns (r: Option<Tree>, steps: nat)
    ensures forall t :: r == Some(t) <==> Parses(t, w)
    ensures steps <= StepBound(w)
  {
    var lr := Load();
    TableIsCertified(lr);
    r, steps := Parse(lr, CERTIFICATE, w);
  }
}
