/** The driver loop of the parser generator's runtime, for any certified tables. */
module LrDriver {
  import opened Common
  import opened LrMachine
  import opened LrTheory

  /** The verdict of a run that has stopped. */
  lemma {:induction false} Verdict(lr: Tables, k: Certificate, w: seq<Token>, m: nat, r: Option<Tree>)
    requires Certified(lr, k) && !Exec(lr, Init(w), m).Next?
    requires forall t :: r == Some(t) <==> Exec(lr, Init(w), m) == Accepted(t)
    ensures forall t :: r == Some(t) <==> IsParse(lr.prods, t, w)
  {
    forall t ensures r == Some(t) <==> IsParse(lr.prods, t, w) { StopDecides(lr, k, w, m, t); }
  }

  /** A state stack and a symbol stack, updated until the table says stop. Every table lookup and
      every pop is safe, and the result is the derivation of `w` if and only if there is one. */
  method Parse(lr: Tables, ghost k: Certificate, w: seq<Token>) returns (r: Option<Tree>, steps: nat)
    requires Certified(lr, k)
    ensures forall t :: r == Some(t) <==> IsParse(lr.prods, t, w)
    ensures steps <= k.tokenCost * |w| + k.rank(0) + 1
  {
    var states, trees, rest := [0], [], w;
    ghost var c := Init(w);
    steps := 0;
    while true
      invariant c == Config(states, trees, rest) && ValidStack(lr, c)
      invariant Exec(lr, Init(w), steps) == Next(c)
      invariant steps + Potential(lr, k, c) <= k.tokenCost * |w| + k.rank(0)
      decreases Potential(lr, k, c)
    {
      var state, look := states[|states| - 1], Look(rest);
      StepSound(lr, k, c);
      ExecSplit(lr, Init(w), steps, c, 1);
      steps := steps + 1;
      if look !in lr.action[state] {
        r := None;
        Verdict(lr, k, w, steps, r);
        return;
      }
      var v := lr.action[state][look];
      if v > 0 {
        states, trees, rest := states + [v], trees + [Leaf(rest[0])], rest[1..];
      } else if v < 0 {
        var p := lr.prods[-v];
        var n := |trees| - |p.rhs|;
        states := states[..n + 1];
        var q := lr.goto[states[n]][p.lhs];
        states, trees := states + [q], trees[..n] + [Node(-v, trees[n..])];
      } else {
        r := Some(trees[|trees| - 1]);
        Verdict(lr, k, w, steps, r);
        return;
      }
      c := Config(states, trees, rest);
      assert Exec(lr, Init(w), steps) == Next(c);
    }
  }
}
