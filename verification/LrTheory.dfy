/**
  What a parse table guarantees, proved once for every table that carries a certificate.

  A certificate annotates the automaton: which productions are under way in each state (`item`),
  which terminals may begin and follow each nonterminal, and weights that make every step of the
  machine lose potential. `Certified` collects local conditions, each about one table entry or one
  production; the theorems below are about whole runs over unbounded token strings.
 */
module LrTheory {
  import opened Common
  import opened LrMachine

  datatype Certificate = Certificate(
    item: (int, nat, nat) -> bool,          // item(s, p, d): in state s, d >= 1 symbols of production p are read
    nullable: Nonterminal -> bool,
    first: (Nonterminal, Terminal) -> bool,
    follow: (Nonterminal, Terminal) -> bool,
    weight: Symbol -> nat,                  // potential of a stacked symbol
    rank: int -> nat,                       // extra potential of the state on top
    tokenCost: nat)                         // potential of an unread token

  ghost predicate Active(lr: Tables, k: Certificate, s: int, p: nat, d: nat)
  {
    && p < |lr.prods| && d <= |lr.prods[p].rhs|
    && (if d > 0 then k.item(s, p, d)
        else if p == 0 then s == 0
        else Go(lr, s, lr.prods[p].lhs).Some?)
  }

  // ---------------------------------------------------------------------------------------------
  // The certificate conditions
  // ---------------------------------------------------------------------------------------------

  // Each condition is a predicate about one entry, quantified over all of them.

  /** Nothing is read in the start state; an item of the state entered from `s` along `x` was
      inherited, one symbol earlier, from `s`. */
  ghost predicate BackwardAt(lr: Tables, k: Certificate, s: int, x: Symbol, p: nat, d: nat)
  {
    && !k.item(0, p, d)
    && (Trans(lr, s, x).Some? && k.item(Trans(lr, s, x).value, p, d) ==>
          && d >= 1 && Active(lr, k, s, p, d - 1)
          && d <= |lr.prods[p].rhs| && lr.prods[p].rhs[d - 1] == x)
  }

  ghost predicate Backward(lr: Tables, k: Certificate)
  {
    forall s, x, p, d :: BackwardAt(lr, k, s, x, p, d)
  }

  /** Whatever production is under way, the table can read its next symbol. */
  ghost predicate ForwardAt(lr: Tables, k: Certificate, s: int, p: nat, d: nat)
  {
    Active(lr, k, s, p, d) && d < |lr.prods[p].rhs| ==>
      && Trans(lr, s, lr.prods[p].rhs[d]).Some?
      && k.item(Trans(lr, s, lr.prods[p].rhs[d]).value, p, d + 1)
  }

  ghost predicate Forward(lr: Tables, k: Certificate)
  {
    forall s, p, d :: ForwardAt(lr, k, s, p, d)
  }

  predicate ReducesBy(lr: Tables, s: int, a: Terminal, p: nat)
  {
    Act(lr, s, a).Some? && Act(lr, s, a).value + p == 0
  }

  /** The table reduces exactly when a production is complete and the lookahead may follow it. */
  ghost predicate ReducesAt(lr: Tables, k: Certificate, s: int, a: Terminal, p: nat)
  {
    1 <= p ==>
      (ReducesBy(lr, s, a, p) <==>
       p < |lr.prods| && Active(lr, k, s, p, |lr.prods[p].rhs|) && k.follow(lr.prods[p].lhs, a))
  }

  ghost predicate Reduces(lr: Tables, k: Certificate)
  {
    forall s, a, p :: ReducesAt(lr, k, s, a, p)
  }

  /** The table accepts exactly when the start rule is complete and the input is exhausted. */
  ghost predicate AcceptsAt(lr: Tables, k: Certificate, s: int, a: Terminal)
  {
    Act(lr, s, a) == Some(0) <==> k.item(s, 0, 1) && a == END
  }

  ghost predicate Accepts(lr: Tables, k: Certificate)
  {
    && |lr.prods| > 0 && lr.prods[0] == Production(START, [N(FILE)])
    && forall s, a :: AcceptsAt(lr, k, s, a)
  }

  /** The start state has no incoming edge, the end marker is never shifted, and every state
      that can be entered has an action row. */
  ghost predicate ClosedAt(lr: Tables, s: int, x: Symbol)
  {
    Trans(lr, s, x).Some? ==>
      x != T(END) && Trans(lr, s, x).value != 0 && Trans(lr, s, x).value in lr.action
  }

  ghost predicate Closed(lr: Tables)
  {
    0 in lr.action && forall s, x :: ClosedAt(lr, s, x)
  }

  ghost predicate Nullable(k: Certificate, x: Symbol) { x.N? && k.nullable(x.n) }

  ghost predicate First(k: Certificate, x: Symbol, b: Terminal)
  {
    match x
    case T(a) => a == b
    case N(n) => k.first(n, b)
  }

  ghost predicate AllNullable(k: Certificate, xs: seq<Symbol>)
  {
    xs == [] || (Nullable(k, xs[0]) && AllNullable(k, xs[1..]))
  }

  /** `b` may be the first terminal of a string derived from `xs` followed by lookahead `a`. */
  ghost predicate CanStart(k: Certificate, xs: seq<Symbol>, a: Terminal, b: Terminal)
  {
    if xs == [] then a == b
    else First(k, xs[0], b) || (Nullable(k, xs[0]) && CanStart(k, xs[1..], a, b))
  }

  lemma UnfoldStart(k: Certificate, xs: seq<Symbol>, i: nat, a: Terminal, b: Terminal)
    requires i <= |xs|
    ensures i == 0 ==> xs[i..] == xs
    ensures CanStart(k, xs[i..], a, b) <==>
      if i == |xs| then a == b
      else First(k, xs[i], b) || (Nullable(k, xs[i]) && CanStart(k, xs[i + 1..], a, b))
    ensures AllNullable(k, xs[i..]) <==> i == |xs| || (Nullable(k, xs[i]) && AllNullable(k, xs[i + 1..]))
  {
    if i < |xs| {
      assert xs[i..][1..] == xs[i + 1..];
    }
  }

  /** Nullability and first sets absorb production `p`. */
  ghost predicate FirstAt(prods: seq<Production>, k: Certificate, p: nat, b: Terminal)
  {
    p < |prods| ==>
      && (AllNullable(k, prods[p].rhs) ==> k.nullable(prods[p].lhs))
      && (b != END && CanStart(k, prods[p].rhs, END, b) ==> k.first(prods[p].lhs, b))
  }

  ghost predicate FirstClosed(prods: seq<Production>, k: Certificate)
  {
    forall p, b :: FirstAt(prods, k, p, b)
  }

  /** Follow sets absorb what can come after symbol `d` of production `p`. */
  ghost predicate FollowAt(prods: seq<Production>, k: Certificate, p: nat, d: nat, a: Terminal, b: Terminal)
  {
    && p < |prods| && d < |prods[p].rhs| && prods[p].rhs[d].N?
    && k.follow(prods[p].lhs, a) && CanStart(k, prods[p].rhs[d + 1..], a, b)
    ==> k.follow(prods[p].rhs[d].n, b)
  }

  ghost predicate FollowClosed(prods: seq<Production>, k: Certificate)
  {
    k.follow(START, END) && forall p, d, a, b :: FollowAt(prods, k, p, d, a, b)
  }

  ghost function Weight(k: Certificate, xs: seq<Symbol>): nat
  {
    if xs == [] then 0 else k.weight(xs[0]) + Weight(k, xs[1..])
  }

  lemma {:induction false} WeightOfEnds(k: Certificate, xs: seq<Symbol>)
    ensures |xs| == 1 ==> Weight(k, xs) == k.weight(xs[0])
    ensures |xs| >= 2 ==> Weight(k, xs) >= k.weight(xs[0]) + k.weight(xs[|xs| - 1])
  {
    if |xs| >= 2 {
      WeightOfEnds(k, xs[1..]);
    }
  }

  /** Every shift, every non-empty reduction and every empty reduction loses potential. */
  ghost predicate ShrinksAt(lr: Tables, k: Certificate, s: int, a: Terminal, p: nat)
  {
    && (Trans(lr, s, T(a)).Some? ==>
          k.weight(T(a)) + k.rank(Trans(lr, s, T(a)).value) + 1 <= k.tokenCost)
    && (1 <= p < |lr.prods| && Go(lr, s, lr.prods[p].lhs).Some? ==>
          k.weight(N(lr.prods[p].lhs)) + k.rank(Go(lr, s, lr.prods[p].lhs).value) + 1 <=
          (if lr.prods[p].rhs == [] then k.rank(s) else Weight(k, lr.prods[p].rhs)))
  }

  ghost predicate Shrinks(lr: Tables, k: Certificate)
  {
    forall s, a, p :: ShrinksAt(lr, k, s, a, p)
  }

  /** What soundness, safety and halting need. */
  ghost predicate Safe(lr: Tables, k: Certificate)
  {
    Backward(lr, k) && Reduces(lr, k) && Accepts(lr, k) && Closed(lr) && Shrinks(lr, k)
  }

  /** What completeness needs. */
  ghost predicate Full(lr: Tables, k: Certificate)
  {
    Forward(lr, k) && Reduces(lr, k) && Accepts(lr, k) && FirstClosed(lr.prods, k) && FollowClosed(lr.prods, k)
  }

  ghost predicate Certified(lr: Tables, k: Certificate)
  {
    Safe(lr, k) && Full(lr, k)
  }

  // ---------------------------------------------------------------------------------------------
  // Invariant of reachable configurations
  // ---------------------------------------------------------------------------------------------

  function Top(c: Config): int
    requires c.states != []
  {
    c.states[|c.states| - 1]
  }

  /** The stack spells a path of the automaton from the start state, and every stacked symbol
      carries a derivation of its own. */
  ghost predicate ValidStack(lr: Tables, c: Config)
  {
    && |c.states| == |c.trees| + 1
    && c.states[0] == 0
    && DerivesAll(lr.prods, c.trees)
    && forall i :: 0 <= i < |c.trees| ==>
         Trans(lr, c.states[i], Root(lr.prods, c.trees[i])) == Some(c.states[i + 1])
  }

  function Pop(c: Config): Config
    requires c.states != [] && c.trees != []
  {
    Config(c.states[..|c.states| - 1], c.trees[..|c.trees| - 1], c.rest)
  }

  /** A production under way on top of a valid stack: its symbols read so far are the topmost
      stacked symbols, and the state below them is where the production was started. */
  lemma {:induction false} SpellsItem(lr: Tables, k: Certificate, c: Config, p: nat, d: nat)
    requires Backward(lr, k) && ValidStack(lr, c) && Active(lr, k, Top(c), p, d)
    ensures d <= |c.trees|
    ensures Spells(lr.prods, c.trees[|c.trees| - d..], lr.prods[p].rhs[..d])
    ensures Active(lr, k, c.states[|c.trees| - d], p, 0)
    decreases d
  {
    if d > 0 {
      var n := |c.trees|;
      assert BackwardAt(lr, k, 0, N(FILE), p, d);
      var x := Root(lr.prods, c.trees[n - 1]);
      assert n > 0 ==> Trans(lr, c.states[n - 1], x) == Some(c.states[n]);
      assert BackwardAt(lr, k, c.states[n - 1], x, p, d);
      SpellsItem(lr, k, Pop(c), p, d - 1);
      var e := Pop(c);
      assert c.trees[n - d..] == e.trees[n - d..] + [c.trees[n - 1]];
      assert lr.prods[p].rhs[..d] == lr.prods[p].rhs[..d - 1] + [x];
    }
  }

  // ---------------------------------------------------------------------------------------------
  // Safety, soundness and halting
  // ---------------------------------------------------------------------------------------------

  ghost function Potential(lr: Tables, k: Certificate, c: Config): nat
    requires c.states != []
  {
    k.tokenCost * |c.rest| + StackWeight(lr, k, c.trees) + k.rank(Top(c))
  }

  ghost function StackWeight(lr: Tables, k: Certificate, trees: seq<Tree>): nat
  {
    if trees == [] then 0 else k.weight(Root(lr.prods, trees[0])) + StackWeight(lr, k, trees[1..])
  }

  lemma {:induction false} StackWeightAppend(lr: Tables, k: Certificate, xs: seq<Tree>, ys: seq<Tree>)
    ensures StackWeight(lr, k, xs + ys) == StackWeight(lr, k, xs) + StackWeight(lr, k, ys)
  {
    if xs == [] {
      assert xs + ys == ys;
    } else {
      StackWeightAppend(lr, k, xs[1..], ys);
      assert (xs + ys)[1..] == xs[1..] + ys;
    }
  }

  lemma {:induction false} StackWeightSpells(lr: Tables, k: Certificate, trees: seq<Tree>, xs: seq<Symbol>)
    requires Spells(lr.prods, trees, xs)
    ensures StackWeight(lr, k, trees) == Weight(k, xs)
  {
    if xs != [] {
      StackWeightSpells(lr, k, trees[1..], xs[1..]);
    }
  }

  /** The tokens a configuration has consumed, in order. */
  function Consumed(c: Config): seq<Token> { YieldAll(c.trees) }

  lemma ShiftStep(lr: Tables, k: Certificate, c: Config)
    requires Safe(lr, k) && ValidStack(lr, c)
    requires Trans(lr, Top(c), T(Look(c.rest))).Some?
    ensures c.rest != [] && Step(lr, c) == Shift(c, Trans(lr, Top(c), T(Look(c.rest))).value)
    ensures var d := Step(lr, c).c;
      && ValidStack(lr, d)
      && Consumed(d) == Consumed(c) + [c.rest[0]] && d.rest == c.rest[1..]
      && Potential(lr, k, d) < Potential(lr, k, c)
  {
    var v := Trans(lr, Top(c), T(Look(c.rest))).value;
    assert ClosedAt(lr, Top(c), T(Look(c.rest))) && ShrinksAt(lr, k, Top(c), Look(c.rest), 0);
    var leaf := Leaf(c.rest[0]);
    YieldAllAppend(c.trees, [leaf]);
    assert YieldAll([leaf]) == [c.rest[0]] + YieldAll([]);
    StackWeightAppend(lr, k, c.trees, [leaf]);
    assert StackWeight(lr, k, [leaf]) == k.weight(T(Look(c.rest)));
    var d := Step(lr, c).c;
    assert Trans(lr, Top(c), T(Look(c.rest))) == Some(v);
    assert k.tokenCost * |c.rest| == k.tokenCost * |d.rest| + k.tokenCost;
  }

  /** Replacing the topmost trees by one node over them keeps the tokens consumed. */
  lemma NodeKeepsYield(trees: seq<Tree>, n: nat, p: nat)
    requires n <= |trees|
    ensures YieldAll(trees[..n] + [Node(p, trees[n..])]) == YieldAll(trees)
  {
    var node := Node(p, trees[n..]);
    assert trees == trees[..n] + trees[n..];
    YieldAllAppend(trees[..n], trees[n..]);
    YieldAllAppend(trees[..n], [node]);
    assert YieldAll([node]) == Yield(node) + YieldAll([]);
  }

  lemma NodeWeight(lr: Tables, k: Certificate, trees: seq<Tree>, n: nat, p: nat)
    requires n <= |trees| && p < |lr.prods| && Spells(lr.prods, trees[n..], lr.prods[p].rhs)
    ensures StackWeight(lr, k, trees) == StackWeight(lr, k, trees[..n]) + Weight(k, lr.prods[p].rhs)
    ensures StackWeight(lr, k, trees[..n] + [Node(p, trees[n..])]) ==
      StackWeight(lr, k, trees[..n]) + k.weight(N(lr.prods[p].lhs))
  {
    var node := Node(p, trees[n..]);
    assert trees == trees[..n] + trees[n..];
    StackWeightAppend(lr, k, trees[..n], trees[n..]);
    StackWeightAppend(lr, k, trees[..n], [node]);
    StackWeightSpells(lr, k, trees[n..], lr.prods[p].rhs);
    assert StackWeight(lr, k, [node]) == k.weight(N(lr.prods[p].lhs));
  }

  /** Replacing the trees above height `n` by one tree keeps the stack valid. */
  lemma {:induction false} PushTree(lr: Tables, c: Config, n: nat, t: Tree, q: int, r: seq<Token>)
    requires ValidStack(lr, c) && n <= |c.trees| && Derives(lr.prods, t)
    requires Trans(lr, c.states[n], Root(lr.prods, t)) == Some(q)
    ensures ValidStack(lr, Config(c.states[..n + 1] + [q], c.trees[..n] + [t], r))
  {
    var states, trees := c.states[..n + 1] + [q], c.trees[..n] + [t];
    assert states[n] == c.states[n] && states[n + 1] == q && trees[n] == t;
    forall i | 0 <= i < |trees| ensures Derives(lr.prods, trees[i]) {
      assert i < n ==> trees[i] == c.trees[i];
    }
    forall i | 0 <= i < |trees| ensures Trans(lr, states[i], Root(lr.prods, trees[i])) == Some(states[i + 1]) {
      assert i < n ==> trees[i] == c.trees[i] && states[i] == c.states[i] && states[i + 1] == c.states[i + 1];
    }
  }

  /** A production the table reduces by is on top of the stack, and the state below has a goto for it. */
  lemma {:induction false} ReduceReady(lr: Tables, k: Certificate, c: Config, p: nat)
    requires Safe(lr, k) && ValidStack(lr, c) && p >= 1
    requires ReducesBy(lr, Top(c), Look(c.rest), p)
    ensures p < |lr.prods| && |lr.prods[p].rhs| <= |c.trees|
    ensures var n := |c.trees| - |lr.prods[p].rhs|;
      && Spells(lr.prods, c.trees[n..], lr.prods[p].rhs) && Derives(lr.prods, Node(p, c.trees[n..]))
      && Go(lr, c.states[n], lr.prods[p].lhs).Some?
  {
    assert ReducesAt(lr, k, Top(c), Look(c.rest), p);
    var rhs := lr.prods[p].rhs;
    assert rhs[..|rhs|] == rhs;
    SpellsItem(lr, k, c, p, |rhs|);
  }

  lemma {:induction false} ReduceShrinks(lr: Tables, k: Certificate, c: Config, p: nat, n: nat, q: int)
    requires Shrinks(lr, k) && |c.states| == |c.trees| + 1 && 1 <= p < |lr.prods|
    requires n + |lr.prods[p].rhs| == |c.trees| && Spells(lr.prods, c.trees[n..], lr.prods[p].rhs)
    requires Go(lr, c.states[n], lr.prods[p].lhs) == Some(q)
    ensures Potential(lr, k, Config(c.states[..n + 1] + [q], c.trees[..n] + [Node(p, c.trees[n..])], c.rest)) <
            Potential(lr, k, c)
  {
    NodeWeight(lr, k, c.trees, n, p);
    assert lr.prods[p].rhs == [] ==> c.states[n] == Top(c);
    assert ShrinksAt(lr, k, c.states[n], END, p);
  }

  lemma {:induction false} ReduceStep(lr: Tables, k: Certificate, c: Config, p: nat)
    requires Safe(lr, k) && ValidStack(lr, c) && p >= 1
    requires ReducesBy(lr, Top(c), Look(c.rest), p)
    ensures Step(lr, c) == Reduce(lr, c, p) && Step(lr, c).Next?
    ensures var d := Step(lr, c).c;
      && ValidStack(lr, d)
      && Consumed(d) == Consumed(c) && d.rest == c.rest
      && Potential(lr, k, d) < Potential(lr, k, c)
  {
    ReduceReady(lr, k, c, p);
    var n := |c.trees| - |lr.prods[p].rhs|;
    var node, q := Node(p, c.trees[n..]), Go(lr, c.states[n], lr.prods[p].lhs).value;
    PushTree(lr, c, n, node, q, c.rest);
    NodeKeepsYield(c.trees, n, p);
    ReduceShrinks(lr, k, c, p, n, q);
    assert c.states[..n + 1][n] == c.states[n];
    assert ReducesAt(lr, k, Top(c), Look(c.rest), p);
    assert Reduce(lr, c, p) == Next(Config(c.states[..n + 1] + [q], c.trees[..n] + [node], c.rest));
  }

  /** The start rule is complete only on the two-state stack holding one `file` symbol. */
  lemma AcceptHeight(lr: Tables, k: Certificate, c: Config)
    requires Backward(lr, k) && Accepts(lr, k) && Closed(lr) && ValidStack(lr, c)
    requires k.item(Top(c), 0, 1)
    ensures |c.trees| == 1 && Root(lr.prods, c.trees[0]) == N(FILE)
  {
    SpellsItem(lr, k, c, 0, 1);
    var n := |c.trees|;
    assert n > 1 ==> ClosedAt(lr, c.states[n - 2], Root(lr.prods, c.trees[n - 2]));
  }

  lemma AcceptStep(lr: Tables, k: Certificate, c: Config)
    requires Backward(lr, k) && Accepts(lr, k) && Closed(lr) && ValidStack(lr, c)
    requires Act(lr, Top(c), Look(c.rest)) == Some(0)
    ensures c.rest == [] && |c.trees| == 1 && Step(lr, c) == Accepted(c.trees[0])
    ensures Root(lr.prods, c.trees[0]) == N(FILE) && Yield(c.trees[0]) == Consumed(c)
  {
    assert AcceptsAt(lr, k, Top(c), Look(c.rest));
    AcceptHeight(lr, k, c);
    assert YieldAll(c.trees[1..]) == [];
  }

  /** One step from a valid configuration: never a crash; a step keeps the stack valid and loses no
      token; acceptance hands back a derivation of everything consumed. */
  lemma StepSound(lr: Tables, k: Certificate, c: Config)
    requires Safe(lr, k) && ValidStack(lr, c)
    ensures !Step(lr, c).Crashed?
    ensures Step(lr, c).Next? ==>
      var d := Step(lr, c).c;
      && ValidStack(lr, d)
      && Consumed(d) + d.rest == Consumed(c) + c.rest
      && Potential(lr, k, d) < Potential(lr, k, c)
    ensures Step(lr, c).Accepted? ==>
      var t := Step(lr, c).tree;
      Derives(lr.prods, t) && Root(lr.prods, t) == N(FILE) && Yield(t) == Consumed(c) + c.rest
  {
    var n := |c.trees|;
    assert n > 0 ==> ClosedAt(lr, c.states[n - 1], Root(lr.prods, c.trees[n - 1]));
    match Act(lr, Top(c), Look(c.rest)) {
      case None =>
      case Some(v) =>
        if v > 0 {
          ShiftStep(lr, k, c);
          assert [c.rest[0]] + c.rest[1..] == c.rest;
        } else if v < 0 {
          ReduceStep(lr, k, c, -v);
        } else {
          AcceptStep(lr, k, c);
        }
    }
  }

  /** Soundness, safety and halting of whole runs, from any valid configuration. */
  lemma {:induction false} ExecSound(lr: Tables, k: Certificate, c: Config, n: nat)
    requires Safe(lr, k) && ValidStack(lr, c)
    ensures !Exec(lr, c, n).Crashed?
    ensures n > Potential(lr, k, c) ==> !Exec(lr, c, n).Next?
    ensures Exec(lr, c, n).Next? ==>
      ValidStack(lr, Exec(lr, c, n).c) &&
      Consumed(Exec(lr, c, n).c) + Exec(lr, c, n).c.rest == Consumed(c) + c.rest
    ensures Exec(lr, c, n).Accepted? ==>
      var t := Exec(lr, c, n).tree;
      Derives(lr.prods, t) && Root(lr.prods, t) == N(FILE) && Yield(t) == Consumed(c) + c.rest
    decreases n
  {
    StepSound(lr, k, c);
    if n > 0 && Step(lr, c).Next? {
      ExecSound(lr, k, Step(lr, c).c, n - 1);
    }
  }

  // ---------------------------------------------------------------------------------------------
  // Completeness
  // ---------------------------------------------------------------------------------------------

  lemma {:induction false} FirstOfTree(lr: Tables, k: Certificate, t: Tree)
    requires FirstClosed(lr.prods, k) && Derives(lr.prods, t)
    ensures Yield(t) == [] ==> Nullable(k, Root(lr.prods, t))
    ensures Yield(t) != [] ==> First(k, Root(lr.prods, t), Yield(t)[0].kind)
    decreases t, 0
  {
    match t {
      case Leaf(_) =>
      case Node(p, kids) =>
        FirstOfForest(lr, k, kids, lr.prods[p].rhs, []);
        assert FirstAt(lr.prods, k, p, Look(Yield(t)));
        if Yield(t) == [] {
          assert AllNullable(k, lr.prods[p].rhs);
        } else {
          assert YieldAll(kids) + [] == YieldAll(kids);
          assert CanStart(k, lr.prods[p].rhs, END, Yield(t)[0].kind);
        }
    }
  }

  /** The lookahead at the start of a derived string, given what follows it. */
  lemma {:induction false} FirstOfForest(lr: Tables, k: Certificate, trees: seq<Tree>, xs: seq<Symbol>, r: seq<Token>)
    requires FirstClosed(lr.prods, k) && DerivesAll(lr.prods, trees) && Spells(lr.prods, trees, xs)
    ensures YieldAll(trees) == [] ==> AllNullable(k, xs)
    ensures CanStart(k, xs, Look(r), Look(YieldAll(trees) + r))
    decreases trees, 1
  {
    if trees != [] {
      FirstOfTree(lr, k, trees[0]);
      FirstOfForest(lr, k, trees[1..], xs[1..], r);
      assert YieldAll(trees) + r == Yield(trees[0]) + (YieldAll(trees[1..]) + r);
    } else {
      assert YieldAll(trees) + r == r;
    }
  }

  /** A complete production on top of the stack, with a lookahead that may follow it. */
  lemma RunReduce(lr: Tables, k: Certificate, p: nat, kids: seq<Tree>, base: Config, d: Config)
    requires Reduces(lr, k) && 1 <= p < |lr.prods| && |kids| == |lr.prods[p].rhs|
    requires base.states != [] && |base.trees| + 1 == |base.states|
    requires |d.states| == |base.states| + |kids| && d.states[..|base.states|] == base.states
    requires d.trees == base.trees + kids
    requires Active(lr, k, Top(d), p, |lr.prods[p].rhs|) && k.follow(lr.prods[p].lhs, Look(d.rest))
    requires Go(lr, Top(base), lr.prods[p].lhs).Some?
    ensures Exec(lr, d, 1) ==
      Next(Config(base.states + [Go(lr, Top(base), lr.prods[p].lhs).value], base.trees + [Node(p, kids)], d.rest))
  {
    assert ReducesAt(lr, k, Top(d), Look(d.rest), p);
    assert d.states[..|d.states| - |kids|] == base.states;
    assert d.trees[..|d.trees| - |kids|] == base.trees && d.trees[|d.trees| - |kids|..] == kids;
    assert Exec(lr, d, 1) == Exec(lr, Step(lr, d).c, 0);
  }

  lemma RunShift(lr: Tables, token: Token, c: Config, r: seq<Token>)
    requires c.states != [] && c.rest == [token] + r
    requires Trans(lr, Top(c), T(token.kind)).Some?
    ensures Exec(lr, c, 1) ==
      Next(Config(c.states + [Trans(lr, Top(c), T(token.kind)).value], c.trees + [Leaf(token)], r))
  {
    assert c.rest[1..] == r;
    assert Exec(lr, c, 1) == Exec(lr, Step(lr, c).c, 0);
  }

  /** Reading the trees below a node and reducing by its production. */
  lemma {:induction false} JoinNode(lr: Tables, c: Config, p: nat, kids: seq<Tree>, d: Config, e: Config)
    requires Exec(lr, c, SizeAll(kids)) == Next(d) && Exec(lr, d, 1) == Next(e)
    ensures Exec(lr, c, Size(Node(p, kids))) == Next(e)
  {
    ExecSplit(lr, c, SizeAll(kids), d, 1);
  }

  /** Reading the first tree of a forest and then the rest. */
  lemma {:induction false} JoinForest(lr: Tables, c: Config, kids: seq<Tree>, q: int, tail: seq<int>,
                                      r': seq<Token>, r: seq<Token>)
    requires kids != []
    requires Exec(lr, c, Size(kids[0])) == Next(Config(c.states + [q], c.trees + [kids[0]], r'))
    requires Exec(lr, Config(c.states + [q], c.trees + [kids[0]], r'), SizeAll(kids[1..])) ==
             Next(Config(c.states + [q] + tail, c.trees + [kids[0]] + kids[1..], r))
    ensures Exec(lr, c, SizeAll(kids)) == Next(Config(c.states + ([q] + tail), c.trees + kids, r))
  {
    ExecSplit(lr, c, Size(kids[0]), Config(c.states + [q], c.trees + [kids[0]], r'), SizeAll(kids[1..]));
    Regroup(c.states, [q], tail);
    HeadAndTail(kids);
    Regroup(c.trees, [kids[0]], kids[1..]);
  }

  /** Reading a derivable string in a state that expects its symbol: the machine pushes exactly
      the given tree, in one step per node, and stops at the first token after it. */
  lemma {:induction false} RunTree(lr: Tables, k: Certificate, t: Tree, c: Config, r: seq<Token>)
    requires Full(lr, k) && Derives(lr.prods, t)
    requires c.states != [] && |c.trees| + 1 == |c.states| && c.rest == Yield(t) + r
    requires Trans(lr, Top(c), Root(lr.prods, t)).Some?
    requires Root(lr.prods, t).N? ==> k.follow(Root(lr.prods, t).n, Look(r))
    ensures Exec(lr, c, Size(t)) ==
      Next(Config(c.states + [Trans(lr, Top(c), Root(lr.prods, t)).value], c.trees + [t], r))
    decreases t, 0
  {
    match t {
      case Leaf(token) =>
        RunShift(lr, token, c, r);
      case Node(p, kids) =>
        var path := RunForest(lr, k, p, 0, kids, c, r);
        var d := Config(c.states + path, c.trees + kids, r);
        RunReduce(lr, k, p, kids, c, d);
        JoinNode(lr, c, p, kids, d, Exec(lr, d, 1).c);
    }
  }

  /** What the certificate says about the next symbol of a production under way. */
  lemma Expected(lr: Tables, k: Certificate, p: nat, j: nat, kids: seq<Tree>, s: int, r: seq<Token>)
    requires Full(lr, k) && 1 <= p < |lr.prods| && j < |lr.prods[p].rhs|
    requires kids != [] && DerivesAll(lr.prods, kids) && Spells(lr.prods, kids, lr.prods[p].rhs[j..])
    requires Active(lr, k, s, p, j) && k.follow(lr.prods[p].lhs, Look(r))
    ensures var x := Root(lr.prods, kids[0]);
      && Trans(lr, s, x).Some? && Active(lr, k, Trans(lr, s, x).value, p, j + 1)
      && (x.N? ==> k.follow(x.n, Look(YieldAll(kids[1..]) + r)))
  {
    var rhs := lr.prods[p].rhs;
    assert rhs[j] == rhs[j..][0] == Root(lr.prods, kids[0]);
    assert rhs[j + 1..] == rhs[j..][1..];
    FirstOfForest(lr, k, kids[1..], rhs[j + 1..], r);
    assert ForwardAt(lr, k, s, p, j);
    assert FollowAt(lr.prods, k, p, j, Look(r), Look(YieldAll(kids[1..]) + r));
  }

  /** Reading the remaining symbols of production `p`, whose first `j` symbols are already read. */
  lemma {:induction false} RunForest(lr: Tables, k: Certificate, p: nat, j: nat, kids: seq<Tree>, c: Config,
                                     r: seq<Token>)
    returns (path: seq<int>)
    requires Full(lr, k) && 1 <= p < |lr.prods| && j <= |lr.prods[p].rhs|
    requires DerivesAll(lr.prods, kids) && Spells(lr.prods, kids, lr.prods[p].rhs[j..])
    requires c.states != [] && |c.trees| + 1 == |c.states| && c.rest == YieldAll(kids) + r
    requires Active(lr, k, Top(c), p, j) && k.follow(lr.prods[p].lhs, Look(r))
    ensures |path| == |kids|
    ensures Exec(lr, c, SizeAll(kids)) == Next(Config(c.states + path, c.trees + kids, r))
    ensures Active(lr, k, (c.states + path)[|c.states + path| - 1], p, |lr.prods[p].rhs|)
    decreases kids, 1
  {
    if kids == [] {
      path := [];
      assert c.rest == r && c.states + path == c.states && c.trees + kids == c.trees;
    } else {
      var x, rest := kids[0], kids[1..];
      var r' := YieldAll(rest) + r;
      Regroup(Yield(x), YieldAll(rest), r);
      Expected(lr, k, p, j, kids, Top(c), r);
      RunTree(lr, k, x, c, r');
      var q := Trans(lr, Top(c), Root(lr.prods, x)).value;
      var e := Config(c.states + [q], c.trees + [x], r');
      SpellsRest(lr.prods, kids, lr.prods[p].rhs, j);
      var tail := RunForest(lr, k, p, j + 1, rest, e, r);
      path := [q] + tail;
      JoinForest(lr, c, kids, q, tail, r', r);
    }
  }

  lemma {:induction false} SpellsRest(prods: seq<Production>, kids: seq<Tree>, rhs: seq<Symbol>, j: nat)
    requires kids != [] && j < |rhs| && DerivesAll(prods, kids) && Spells(prods, kids, rhs[j..])
    ensures DerivesAll(prods, kids[1..]) && Spells(prods, kids[1..], rhs[j + 1..])
  {
    forall i | 0 <= i < |kids[1..]|
      ensures Derives(prods, kids[1..][i]) && Root(prods, kids[1..][i]) == rhs[j + 1..][i]
    {
      assert kids[1..][i] == kids[i + 1] && rhs[j + 1..][i] == rhs[j..][i + 1];
    }
  }

  /** Completeness: every derivation of a token string is the one the machine returns on it. */
  lemma CompleteFromInit(lr: Tables, k: Certificate, t: Tree)
    requires Full(lr, k) && Derives(lr.prods, t) && Root(lr.prods, t) == N(FILE)
    ensures Exec(lr, Init(Yield(t)), Size(t)).Next? && Exec(lr, Init(Yield(t)), Size(t) + 1) == Accepted(t)
  {
    var c := Init(Yield(t));
    assert Active(lr, k, 0, 0, 0);
    assert ForwardAt(lr, k, 0, 0, 0);
    assert lr.prods[0].rhs[0] == N(FILE);
    assert lr.prods[0].rhs[1..] == [];
    assert CanStart(k, lr.prods[0].rhs[1..], END, END);
    assert FollowAt(lr.prods, k, 0, 0, END, END);
    assert Yield(t) + [] == Yield(t);
    RunTree(lr, k, t, c, []);
    var d := Exec(lr, c, Size(t)).c;
    ExecSplit(lr, c, Size(t), d, 1);
    assert AcceptsAt(lr, k, Top(d), END);
  }

  // ---------------------------------------------------------------------------------------------
  // Whole runs
  // ---------------------------------------------------------------------------------------------

  /** `t` derives the token string `w` from `file`. */
  ghost predicate IsParse(prods: seq<Production>, t: Tree, w: seq<Token>)
  {
    Derives(prods, t) && Root(prods, t) == N(FILE) && Yield(t) == w
  }

  lemma RunDecides(lr: Tables, k: Certificate, w: seq<Token>, n: nat, t: Tree)
    requires Certified(lr, k) && n > k.tokenCost * |w| + k.rank(0)
    ensures Exec(lr, Init(w), n) == Accepted(t) <==> IsParse(lr.prods, t, w)
  {
    ExecSound(lr, k, Init(w), n);
    assert Consumed(Init(w)) + w == w;
    if IsParse(lr.prods, t, w) {
      CompleteFromInit(lr, k, t);
      OneOutcome(lr, Init(w), Size(t) + 1, n);
    }
  }

  /** Any outcome at which a run has stopped is the verdict on its input. */
  lemma StopDecides(lr: Tables, k: Certificate, w: seq<Token>, m: nat, t: Tree)
    requires Certified(lr, k) && !Exec(lr, Init(w), m).Next?
    ensures Exec(lr, Init(w), m) == Accepted(t) <==> IsParse(lr.prods, t, w)
  {
    var n := k.tokenCost * |w| + k.rank(0) + 1;
    RunDecides(lr, k, w, n, t);
    ExecSound(lr, k, Init(w), n);
    OneOutcome(lr, Init(w), m, n);
  }

  lemma SentenceNotRejected(lr: Tables, k: Certificate, t: Tree, n: nat)
    requires Certified(lr, k) && IsParse(lr.prods, t, Yield(t))
    ensures Exec(lr, Init(Yield(t)), n) != Rejected
  {
    CompleteFromInit(lr, k, t);
    if Exec(lr, Init(Yield(t)), n) == Rejected {
      OneOutcome(lr, Init(Yield(t)), Size(t) + 1, n);
    }
  }

  lemma SizeBound(lr: Tables, k: Certificate, t: Tree, n: nat)
    requires Certified(lr, k) && IsParse(lr.prods, t, Yield(t)) && n > k.tokenCost * |Yield(t)| + k.rank(0)
    ensures Size(t) < n
  {
    CompleteFromInit(lr, k, t);
    ExecSound(lr, k, Init(Yield(t)), n);
    if n <= Size(t) {
      ExecStable(lr, Init(Yield(t)), n, Size(t));
    }
  }
}
