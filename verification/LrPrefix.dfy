/**
  Errors are reported as early as possible: the tokens a certified machine has consumed can always
  be continued to a sentence, and the token it stops at cannot.
 */
module LrPrefix {
  import opened Common
  import opened LrMachine
  import opened LrTheory

  /** How to finish a partial parse: in each state an item to complete, a smallest tree for every
      nonterminal, and a measure for chains of single-symbol productions. */
  datatype Completion = Completion(
    choice: int -> (nat, nat),
    mini: Nonterminal -> Tree,
    depth: int -> nat)

  ghost predicate LiveAt(lr: Tables, k: Certificate, f: Completion, s: int, x: Symbol, s': int)
  {
    Trans(lr, s, x).Some? ==>
      var q := Trans(lr, s, x).value;
      var (p, d) := f.choice(q);
      && Active(lr, k, q, p, d) && d >= 1
      && (p > 0 && d == 1 && Go(lr, s', lr.prods[p].lhs).Some? ==>
            f.depth(Go(lr, s', lr.prods[p].lhs).value) < f.depth(q))
  }

  ghost predicate Live(lr: Tables, k: Certificate, f: Completion)
  {
    forall s, x, s' :: LiveAt(lr, k, f, s, x, s')
  }

  ghost predicate Buildable(x: Symbol) { x != T(END) && x != N(START) }

  ghost predicate ProductiveAt(prods: seq<Production>, f: Completion, p: nat, n: Nonterminal)
  {
    && (p < |prods| ==> forall i :: 0 <= i < |prods[p].rhs| ==> Buildable(prods[p].rhs[i]))
    && (n != START ==> Derives(prods, f.mini(n)) && Root(prods, f.mini(n)) == N(n))
  }

  ghost predicate Productive(prods: seq<Production>, f: Completion)
  {
    forall p, n :: ProductiveAt(prods, f, p, n)
  }

  ghost function MiniTree(f: Completion, x: Symbol): Tree
    requires Buildable(x)
  {
    match x
    case T(t) => Leaf(Lexeme(t, ""))
    case N(n) => f.mini(n)
  }

  ghost function MiniTrees(f: Completion, xs: seq<Symbol>): seq<Tree>
    requires forall i :: 0 <= i < |xs| ==> Buildable(xs[i])
  {
    seq(|xs|, i requires 0 <= i < |xs| => MiniTree(f, xs[i]))
  }

  lemma MiniTreesDerive(prods: seq<Production>, f: Completion, xs: seq<Symbol>)
    requires Productive(prods, f)
    requires forall i :: 0 <= i < |xs| ==> Buildable(xs[i])
    ensures Spells(prods, MiniTrees(f, xs), xs) && DerivesAll(prods, MiniTrees(f, xs))
  {
    forall i | 0 <= i < |xs| ensures Root(prods, MiniTrees(f, xs)[i]) == xs[i] && Derives(prods, MiniTrees(f, xs)[i]) {
      assert xs[i].N? ==> ProductiveAt(prods, f, 0, xs[i].n);
    }
  }

  /** Completing production `p`, of which `d` symbols are on the stack, with smallest trees. */
  ghost function Finished(lr: Tables, f: Completion, c: Config, p: nat, d: nat): Config
    requires p < |lr.prods| && d <= |lr.prods[p].rhs| && d <= |c.trees| && |c.states| == |c.trees| + 1
    requires forall i :: 0 <= i < |lr.prods[p].rhs| ==> Buildable(lr.prods[p].rhs[i])
    requires Go(lr, c.states[|c.trees| - d], lr.prods[p].lhs).Some?
  {
    var n := |c.trees| - d;
    Config(c.states[..n + 1] + [Go(lr, c.states[n], lr.prods[p].lhs).value],
           c.trees[..n] + [Node(p, c.trees[n..] + MiniTrees(f, lr.prods[p].rhs[d..]))],
           c.rest)
  }

  /** The node that completes production `p` with smallest trees is a derivation. */
  lemma {:induction false} FinishNode(lr: Tables, f: Completion, p: nat, d: nat, kids: seq<Tree>)
    requires Productive(lr.prods, f) && 0 < p < |lr.prods| && d <= |lr.prods[p].rhs|
    requires Spells(lr.prods, kids, lr.prods[p].rhs[..d]) && DerivesAll(lr.prods, kids)
    ensures forall i :: 0 <= i < |lr.prods[p].rhs| ==> Buildable(lr.prods[p].rhs[i])
    ensures Derives(lr.prods, Node(p, kids + MiniTrees(f, lr.prods[p].rhs[d..])))
  {
    assert ProductiveAt(lr.prods, f, p, START);
    var rhs := lr.prods[p].rhs;
    var minis := MiniTrees(f, rhs[d..]);
    MiniTreesDerive(lr.prods, f, rhs[d..]);
    var all := kids + minis;
    forall i | 0 <= i < |all| ensures Root(lr.prods, all[i]) == rhs[i] && Derives(lr.prods, all[i]) {
      assert i < d ==> all[i] == kids[i] && rhs[..d][i] == rhs[i];
      assert i >= d ==> all[i] == minis[i - d] && rhs[d..][i - d] == rhs[i];
    }
  }

  lemma {:induction false} FinishStep(lr: Tables, k: Certificate, f: Completion, c: Config, p: nat, d: nat)
    requires Safe(lr, k) && Productive(lr.prods, f) && ValidStack(lr, c)
    requires p > 0 && Active(lr, k, Top(c), p, d)
    ensures d <= |c.trees| && Go(lr, c.states[|c.trees| - d], lr.prods[p].lhs).Some?
    ensures forall i :: 0 <= i < |lr.prods[p].rhs| ==> Buildable(lr.prods[p].rhs[i])
    ensures ValidStack(lr, Finished(lr, f, c, p, d))
    ensures Consumed(c) <= Consumed(Finished(lr, f, c, p, d))
  {
    SpellsItem(lr, k, c, p, d);
    var n := |c.trees| - d;
    var kids := c.trees[n..];
    assert DerivesAll(lr.prods, kids);
    FinishNode(lr, f, p, d, kids);
    var minis := MiniTrees(f, lr.prods[p].rhs[d..]);
    PushTree(lr, c, n, Node(p, kids + minis), Go(lr, c.states[n], lr.prods[p].lhs).value, c.rest);
    FinishYield(c, n, minis, Node(p, kids + minis));
  }

  lemma FinishYield(c: Config, n: nat, minis: seq<Tree>, node: Tree)
    requires n <= |c.trees| && node.Node? && node.kids == c.trees[n..] + minis
    ensures Consumed(c) <= YieldAll(c.trees[..n] + [node])
  {
    YieldAllAppend(c.trees[..n], [node]);
    YieldAllAppend(c.trees[n..], minis);
    YieldAllAppend(c.trees[..n], c.trees[n..]);
    assert c.trees == c.trees[..n] + c.trees[n..];
    assert YieldAll([node]) == Yield(node) + YieldAll([]);
  }

  /** Every valid stack can be completed: what it has consumed is a prefix of a sentence. */
  lemma {:induction false} Finish(lr: Tables, k: Certificate, f: Completion, c: Config) returns (t: Tree)
    requires Safe(lr, k) && Live(lr, k, f) && Productive(lr.prods, f) && ValidStack(lr, c)
    ensures Derives(lr.prods, t) && Root(lr.prods, t) == N(FILE) && Consumed(c) <= Yield(t)
    decreases |c.trees|, f.depth(Top(c))
  {
    var n := |c.trees|;
    if n == 0 {
      assert ProductiveAt(lr.prods, f, 0, FILE);
      t := f.mini(FILE);
    } else {
      var q, x := Top(c), Root(lr.prods, c.trees[n - 1]);
      assert Trans(lr, c.states[n - 1], x) == Some(q);
      var (p, d) := f.choice(q);
      assert LiveAt(lr, k, f, c.states[n - 1], x, 0);
      if p == 0 {
        AcceptHeight(lr, k, c);
        t := c.trees[0];
        assert YieldAll(c.trees[1..]) == [];
      } else {
        FinishStep(lr, k, f, c, p, d);
        assert LiveAt(lr, k, f, c.states[n - 1], x, c.states[n - d]);
        t := Finish(lr, k, f, Finished(lr, f, c, p, d));
      }
    }
  }

  // ---------------------------------------------------------------------------------------------
  // The machine reads one token ahead and no further
  // ---------------------------------------------------------------------------------------------

  lemma {:induction false} RestShrinks(lr: Tables, c: Config, n: nat)
    requires Exec(lr, c, n).Next?
    ensures |Exec(lr, c, n).c.rest| <= |c.rest|
    decreases n
  {
    if n > 0 {
      RestShrinks(lr, Step(lr, c).c, n - 1);
    }
  }

  function WithRest(c: Config, r: seq<Token>): Config { Config(c.states, c.trees, r) }

  /** A step that reads nothing depends on the kind of the next token, a shift on the token. */
  lemma StepIsLocal(lr: Tables, c: Config, r: seq<Token>)
    requires Look(r) == Look(c.rest) && Step(lr, c).Next?
    requires Step(lr, c).c.rest != c.rest ==> c.rest != [] && r != [] && r[0] == c.rest[0]
    ensures Step(lr, c).c.rest == c.rest || Step(lr, c).c.rest == c.rest[1..]
    ensures Step(lr, WithRest(c, r)) ==
      Next(WithRest(Step(lr, c).c, if Step(lr, c).c.rest == c.rest then r else r[1..]))
  {
    assert c.rest != [] ==> |c.rest[1..]| < |c.rest|;
  }

  /** The first step of a run that ends before `tail`, on another continuation of `x`. */
  lemma {:induction false} FirstStepIsLocal(lr: Tables, c: Config, x: seq<Token>, tail: seq<Token>, r: seq<Token>)
    requires c.rest == x + tail && Look(r) == Look(tail)
    requires Step(lr, c).Next? && |tail| <= |Step(lr, c).c.rest|
    ensures var d := Step(lr, c).c;
      if d.rest == c.rest then Step(lr, WithRest(c, x + r)) == Next(WithRest(d, x + r))
      else x != [] && d.rest == x[1..] + tail && Step(lr, WithRest(c, x + r)) == Next(WithRest(d, x[1..] + r))
  {
    var d := Step(lr, c).c;
    assert x == [] ==> x + r == r && x + tail == tail;
    assert d.rest != c.rest ==> d.rest == c.rest[1..];
    StepIsLocal(lr, c, x + r);
    if d.rest != c.rest {
      assert (x + tail)[1..] == x[1..] + tail && (x + r)[1..] == x[1..] + r;
    }
  }

  /** A run up to configuration `c` depends on the tokens consumed and on the next one only. */
  lemma {:induction false} RunIsLocal(lr: Tables, c0: Config, n: nat, x: seq<Token>, r: seq<Token>)
    requires Exec(lr, c0, n).Next? && c0.rest == x + Exec(lr, c0, n).c.rest
    requires Look(r) == Look(Exec(lr, c0, n).c.rest)
    ensures Exec(lr, WithRest(c0, x + r), n) == Next(WithRest(Exec(lr, c0, n).c, r))
    decreases n
  {
    var tail := Exec(lr, c0, n).c.rest;
    if n == 0 {
      assert x == [] by { assert |c0.rest| == |x| + |tail|; }
      assert x + r == r;
    } else {
      var d := Step(lr, c0).c;
      RestShrinks(lr, d, n - 1);
      FirstStepIsLocal(lr, c0, x, tail, r);
      RunIsLocal(lr, d, n - 1, if d.rest == c0.rest then x else x[1..], r);
    }
  }

  /** The machine stops on `w` with a syntax error in configuration `c`, after `n` steps. */
  ghost predicate StopsAt(lr: Tables, w: seq<Token>, n: nat, c: Config)
  {
    Exec(lr, Init(w), n) == Next(c) && Step(lr, c) == Rejected
  }

  /** The run that stops on `w` stops in the same way on any input with the same tokens consumed and
      the same kind of next token. */
  lemma StopsAlike(lr: Tables, k: Certificate, w: seq<Token>, n: nat, c: Config, r: seq<Token>)
    requires Safe(lr, k) && StopsAt(lr, w, n, c) && Look(r) == Look(c.rest)
    ensures Exec(lr, Init(Consumed(c) + r), n + 1) == Rejected
  {
    ExecSound(lr, k, Init(w), n);
    assert Consumed(Init(w)) + w == w;
    RunIsLocal(lr, Init(w), n, Consumed(c), r);
    ExecSplit(lr, Init(Consumed(c) + r), n, WithRest(c, r), 1);
  }

  lemma StopsOutsideSentences(lr: Tables, k: Certificate, w: seq<Token>, n: nat, c: Config, t: Tree)
    requires Certified(lr, k) && StopsAt(lr, w, n, c)
    requires IsParse(lr.prods, t, Yield(t)) && Consumed(c) <= Yield(t)
    ensures Look(Yield(t)[|Consumed(c)|..]) != Look(c.rest)
  {
    var r := Yield(t)[|Consumed(c)|..];
    if Look(r) == Look(c.rest) {
      StopsAlike(lr, k, w, n, c, r);
      assert Yield(t) == Consumed(c) + r;
      SentenceNotRejected(lr, k, t, n + 1);
    }
  }
}
