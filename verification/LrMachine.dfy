/**
  The shift/reduce machine that runs a parse table, and the derivation trees it builds.

  The tables have the shape of the generated table module: `action[state][terminal]` is a positive
  number to shift, a negative number to reduce by that production, zero to accept, and a missing
  entry is a syntax error; `goto[state][nonterminal]` is the state to enter after a reduction.
 */
module LrMachine {
  import opened Common

  datatype Terminal =
    | END | DEF | ROM | MACROOP | LBRACE | RBRACE | ID | SEMI | NEWLINE | DOT | EXTERN
    | LPAREN | RPAREN | PARAMS | COLON

  datatype Nonterminal =
    | START | FILE | OPT_ROM_OR_MACROS | ROM_OR_MACROS | ROM_OR_MACRO | ROM_BLOCK | MACROOP_DEF
    | BLOCK | STATEMENTS | STATEMENT | CONTENT_OF_STATEMENT | END_OF_STATEMENT | MICROOP
    | DIRECTIVE | LABELS | LABEL

  datatype Symbol = T(t: Terminal) | N(n: Nonterminal)

  datatype Production = Production(lhs: Nonterminal, rhs: seq<Symbol>)

  /** A lexeme together with the terminal it was classified as; the lexer never produces `END`. */
  datatype Lexeme = Lexeme(kind: Terminal, text: string)
  type Token = x: Lexeme | x.kind != END witness Lexeme(DEF, "def")

  datatype Tables = Tables(
    prods: seq<Production>,
    action: map<int, map<Terminal, int>>,
    goto: map<int, map<Nonterminal, int>>)

  // ---------------------------------------------------------------------------------------------
  // Derivation trees
  // ---------------------------------------------------------------------------------------------

  datatype Tree = Leaf(token: Token) | Node(prod: nat, kids: seq<Tree>)

  /** The grammar symbol at the root of a tree. */
  function Root(prods: seq<Production>, t: Tree): Symbol
  {
    match t
    case Leaf(token) => T(token.kind)
    case Node(p, _) => if p < |prods| then N(prods[p].lhs) else N(START)
  }

  /** `t` is a derivation tree: every node applies its production to the roots of its children.
      Production 0 is the augmented start rule; it is accepted, never reduced. */
  ghost predicate Derives(prods: seq<Production>, t: Tree)
  {
    match t
    case Leaf(_) => true
    case Node(p, kids) =>
      && 1 <= p < |prods|
      && Spells(prods, kids, prods[p].rhs)
      && forall i :: 0 <= i < |kids| ==> Derives(prods, kids[i])
  }

  ghost predicate Spells(prods: seq<Production>, trees: seq<Tree>, syms: seq<Symbol>)
  {
    |trees| == |syms| && forall i :: 0 <= i < |trees| ==> Root(prods, trees[i]) == syms[i]
  }

  ghost predicate DerivesAll(prods: seq<Production>, trees: seq<Tree>)
  {
    forall i :: 0 <= i < |trees| ==> Derives(prods, trees[i])
  }

  /** The token string a tree derives. */
  function Yield(t: Tree): seq<Token>
    decreases t, 0
  {
    match t
    case Leaf(token) => [token]
    case Node(_, kids) => YieldAll(kids)
  }

  function YieldAll(trees: seq<Tree>): seq<Token>
    decreases trees, 1
  {
    if trees == [] then [] else Yield(trees[0]) + YieldAll(trees[1..])
  }

  /** Number of nodes and leaves: one machine step each. */
  function Size(t: Tree): nat
    decreases t, 0
  {
    match t
    case Leaf(_) => 1
    case Node(_, kids) => SizeAll(kids) + 1
  }

  function SizeAll(trees: seq<Tree>): nat
    decreases trees, 1
  {
    if trees == [] then 0 else Size(trees[0]) + SizeAll(trees[1..])
  }

  lemma {:induction false} YieldAllCons(x: Tree, xs: seq<Tree>)
    ensures YieldAll([x] + xs) == Yield(x) + YieldAll(xs)
  {
    assert ([x] + xs)[1..] == xs;
  }

  lemma {:induction false} YieldAllAppend(xs: seq<Tree>, ys: seq<Tree>)
    ensures YieldAll(xs + ys) == YieldAll(xs) + YieldAll(ys)
  {
    if xs == [] {
      assert xs + ys == ys;
    } else {
      var x, rest := xs[0], xs[1..];
      HeadAndTail(xs);
      Regroup([x], rest, ys);
      YieldAllAppend(rest, ys);
      YieldAllCons(x, rest + ys);
      Regroup(Yield(x), YieldAll(rest), YieldAll(ys));
    }
  }

  // ---------------------------------------------------------------------------------------------
  // The machine
  // ---------------------------------------------------------------------------------------------

  function Act(lr: Tables, s: int, a: Terminal): Option<int>
  {
    if s in lr.action && a in lr.action[s] then Some(lr.action[s][a]) else None
  }

  function Go(lr: Tables, s: int, n: Nonterminal): Option<int>
  {
    if s in lr.goto && n in lr.goto[s] then Some(lr.goto[s][n]) else None
  }

  /** The edge of the automaton out of `s` labelled `x`: a shift or a goto. */
  function Trans(lr: Tables, s: int, x: Symbol): Option<int>
  {
    match x
    case T(a) => (match Act(lr, s, a) case Some(v) => if v > 0 then Some(v) else None case None => None)
    case N(n) => Go(lr, s, n)
  }

  /** State stack, symbol stack (without the bottom end marker) and unread input. */
  datatype Config = Config(states: seq<int>, trees: seq<Tree>, rest: seq<Token>)

  datatype Outcome = Next(c: Config) | Accepted(tree: Tree) | Rejected | Crashed

  function Look(rest: seq<Token>): Terminal
  {
    if rest == [] then END else rest[0].kind
  }

  function Init(w: seq<Token>): Config { Config([0], [], w) }

  /** One turn of the driver loop. `Crashed` stands for the failures a broken table would cause:
      a state without an action row, a pop below the start state, or a missing goto. */
  function Step(lr: Tables, c: Config): Outcome
  {
    if c.states == [] || c.states[|c.states| - 1] !in lr.action then Crashed else
    match Act(lr, c.states[|c.states| - 1], Look(c.rest))
    case None => Rejected
    case Some(v) =>
      if v > 0 then Shift(c, v)
      else if v < 0 then Reduce(lr, c, -v)
      else if c.trees == [] then Crashed
      else Accepted(c.trees[|c.trees| - 1])
  }

  function Shift(c: Config, v: int): Outcome
  {
    if c.rest == [] then Crashed
    else Next(Config(c.states + [v], c.trees + [Leaf(c.rest[0])], c.rest[1..]))
  }

  function Reduce(lr: Tables, c: Config, p: nat): Outcome
  {
    if p >= |lr.prods| then Crashed else
    var n := |lr.prods[p].rhs|;
    if n > |c.trees| || n >= |c.states| then Crashed else
    var states := c.states[..|c.states| - n];
    match Go(lr, states[|states| - 1], lr.prods[p].lhs)
    case None => Crashed
    case Some(q) =>
      Next(Config(states + [q],
                  c.trees[..|c.trees| - n] + [Node(p, c.trees[|c.trees| - n..])],
                  c.rest))
  }

  /** The outcome of at most `n` steps from `c`: `Next` when the machine is still running. */
  function Exec(lr: Tables, c: Config, n: nat): Outcome
    decreases n
  {
    if n == 0 then Next(c) else
    match Step(lr, c)
    case Next(d) => Exec(lr, d, n - 1)
    case Accepted(t) => Accepted(t)
    case Rejected => Rejected
    case Crashed => Crashed
  }

  lemma {:induction false} ExecSplit(lr: Tables, c: Config, m: nat, d: Config, n: nat)
    requires Exec(lr, c, m) == Next(d)
    ensures Exec(lr, c, m + n) == Exec(lr, d, n)
    decreases m
  {
    if m > 0 {
      ExecSplit(lr, Step(lr, c).c, m - 1, d, n);
    }
  }

  /** Once the machine has stopped, further fuel changes nothing. */
  lemma {:induction false} ExecStable(lr: Tables, c: Config, m: nat, n: nat)
    requires m <= n && !Exec(lr, c, m).Next?
    ensures Exec(lr, c, n) == Exec(lr, c, m)
    decreases m
  {
    if Step(lr, c).Next? {
      ExecStable(lr, Step(lr, c).c, m - 1, n - 1);
    }
  }

  /** A run has one outcome, however much fuel it is observed with. */
  lemma OneOutcome(lr: Tables, c: Config, m: nat, n: nat)
    requires !Exec(lr, c, m).Next? && !Exec(lr, c, n).Next?
    ensures Exec(lr, c, m) == Exec(lr, c, n)
  {
    if m <= n {
      ExecStable(lr, c, m, n);
    } else {
      ExecStable(lr, c, n, m);
    }
  }
}
