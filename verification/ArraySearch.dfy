/** The search for a memory array that meets its timing, over any results of the array model. */
module ArraySearch {
  const TOLERANCE: real := 0.0000000001
  const MIN_AREA_EFFICIENCY: real := 20.0
  const BIGNUM: real := 1000000000000000000000000000000.0
  const FIRST_DEVIATION: int := 100
  const LAST_DEVIATION: int := 20
  const MOST_SEARCHES: nat := 8

  /** One result of the array model. */
  datatype Solution = Solution(cycleTime: real, accessTime: real, areaEfficiency: real, readEnergy: real)

  /** What the array has to meet; associativity 0 is a content-addressable memory. */
  datatype Setup = Setup(throughput: real, latency: real, assoc: nat, cacheSize: int, optForClk: bool, optLocal: bool)

  predicate CycleOk(p: Setup, s: Solution) { s.cycleTime - p.throughput <= TOLERANCE }

  predicate AccessOk(p: Setup, s: Solution) { s.accessTime - p.latency <= TOLERANCE }

  predicate Meets(p: Setup, s: Solution) { CycleOk(p, s) && AccessOk(p, s) }

  /** A result worth keeping: it meets the timing, or it is a memory with assoc 0 grown too large. */
  predicate Kept(p: Setup, s: Solution)
  {
    Meets(p, s) || (s.areaEfficiency < MIN_AREA_EFFICIENCY && p.assoc == 0)
  }

  predicate Optimised(p: Setup)
  {
    p.optForClk && p.optLocal && if p.assoc != 0 then p.cacheSize > 2048 else p.cacheSize > 256
  }

  // ---------------------------------------------------------------------------------------------
  // The run of the search: result 0 is the first estimate, results 1, 2, ... are those of the loop
  // ---------------------------------------------------------------------------------------------

  type Results = nat -> Solution

  /** A result of the loop settles a bound it meets, unless it is kept for its area only. */
  ghost predicate Settles(p: Setup, s: Solution, ok: bool) { ok && (Meets(p, s) || !Kept(p, s)) }

  ghost predicate CycleSettled(p: Setup, f: Results, n: nat)
  {
    n > 0 && (CycleSettled(p, f, n - 1) || Settles(p, f(n), CycleOk(p, f(n))))
  }

  ghost predicate AccessSettled(p: Setup, f: Results, n: nat)
  {
    n > 0 && (AccessSettled(p, f, n - 1) || Settles(p, f(n), AccessOk(p, f(n))))
  }

  ghost predicate Settled(p: Setup, f: Results, n: nat) { CycleSettled(p, f, n) && AccessSettled(p, f, n) }

  /** The loop ends after `n` searches: the first time both bounds are settled, or the last time. */
  ghost predicate EndsAfter(p: Setup, f: Results, n: nat)
  {
    && n <= MOST_SEARCHES && (n < MOST_SEARCHES ==> Settled(p, f, n))
    && forall k :: 0 <= k < n ==> !Settled(p, f, k)
  }

  /** The searches among the first `n` whose results are kept, in order. */
  ghost function Candidates(p: Setup, f: Results, n: nat): seq<nat>
  {
    if n == 0 then [] else Candidates(p, f, n - 1) + if Kept(p, f(n)) then [n] else []
  }

  /** The candidates are exactly the kept results, each once and in the order of the searches. */
  lemma {:induction false} CandidatesAre(p: Setup, f: Results, n: nat)
    ensures forall k :: k in Candidates(p, f, n) <==> 1 <= k <= n && Kept(p, f(k))
    ensures forall i, j :: 0 <= i < j < |Candidates(p, f, n)| ==> Candidates(p, f, n)[i] < Candidates(p, f, n)[j]
  {
    if n > 0 {
      CandidatesAre(p, f, n - 1);
      var before, all := Candidates(p, f, n - 1), Candidates(p, f, n);
      forall i, j | 0 <= i < j < |all| ensures all[i] < all[j] {
        assert all[i] == before[i] && before[i] in before;
        assert j < |before| ==> all[j] == before[j];
      }
    }
  }

  lemma {:induction false} NoneBefore(p: Setup, f: Results, n: nat)
    requires p.assoc != 0 && forall k :: 0 <= k <= n ==> !Settled(p, f, k)
    ensures Candidates(p, f, n) == []
  {
    if n > 0 {
      NoneBefore(p, f, n - 1);
      assert !Settled(p, f, n);
    }
  }

  /** With an associativity, the one candidate there may be is the last search, and it meets the timing. */
  lemma AtMostOneCandidate(p: Setup, f: Results, n: nat)
    requires p.assoc != 0 && EndsAfter(p, f, n)
    ensures Candidates(p, f, n) == [] || (Candidates(p, f, n) == [n] && Meets(p, f(n)))
  {
    if n > 0 {
      NoneBefore(p, f, n - 1);
    }
  }

  /** The earliest search of least read energy among `cs`. */
  ghost predicate EarliestBest(f: Results, cs: seq<nat>, best: nat)
  {
    exists i :: 0 <= i < |cs| && cs[i] == best
      && (forall j :: 0 <= j < |cs| ==> f(best).readEnergy <= f(cs[j]).readEnergy)
      && (forall j :: 0 <= j < i ==> f(best).readEnergy < f(cs[j]).readEnergy)
  }

  ghost predicate SomeCheap(f: Results, cs: seq<nat>) { exists j :: 0 <= j < |cs| && f(cs[j]).readEnergy < BIGNUM }

  // ---------------------------------------------------------------------------------------------
  // The search itself
  // ---------------------------------------------------------------------------------------------

  /** A result held by the program, with the number of the search that allocated its storage. */
  datatype Held = Held(id: nat, result: Solution)

  class ArrayST {
    const setup: Setup
    const model: Results
    var searches: nat
    var localResult: Held
    var deviation: int
    ghost var freed: set<nat>

    constructor (setup: Setup, model: Results, deviation: int)
      ensures this.setup == setup.(cacheSize := if setup.cacheSize < 64 then 64 else setup.cacheSize)
      ensures this.model == model && searches == 0 && freed == {}
    {
      this.setup := if setup.cacheSize < 64 then setup.(cacheSize := 64) else setup;
      this.model := model;
      this.deviation := deviation;
      searches, localResult := 0, Held(0, Solution(0.0, 0.0, 0.0, 0.0));
      freed := {};
    }

    method ComputeBasePower()
      modifies this
      ensures searches == old(searches) + 1 && localResult == Held(old(searches), model(old(searches)))
      ensures deviation == old(deviation) && freed == old(freed)
    {
      localResult := Held(searches, model(searches));
      searches := searches + 1;
    }

    method Cleanup(held: Held)
      modifies this`freed
      ensures freed == old(freed) + {held.id}
    {
      freed := freed + {held.id};
    }

    /** The loop: `n` searches, of which the kept ones are returned and only others are freed. */
    method Search() returns (candidates: seq<Held>, ghost n: nat)
      requires searches == 1 && localResult == Held(0, model(0))
      requires deviation == FIRST_DEVIATION && freed == {0}
      modifies this
      ensures EndsAfter(setup, model, n) && searches == n + 1 && localResult == Held(n, model(n))
      ensures AllHeld(candidates, Candidates(setup, model, n))
      ensures forall id :: id in freed ==> id == 0 || (id <= n && !Kept(setup, model(id)))
    {
      candidates, n := [], 0;
      var throughputOverflow, latencyOverflow := true, true;
      while (throughputOverflow || latencyOverflow) && deviation > LAST_DEVIATION
        invariant n <= MOST_SEARCHES && searches == n + 1 && deviation == FIRST_DEVIATION - 10 * n
        invariant localResult == Held(n, model(n))
        invariant throughputOverflow == !CycleSettled(setup, model, n)
        invariant latencyOverflow == !AccessSettled(setup, model, n)
        invariant forall k :: 0 <= k < n ==> !Settled(setup, model, k)
        invariant AllHeld(candidates, Candidates(setup, model, n))
        invariant forall id :: id in freed ==> id == 0 || (id <= n && !Kept(setup, model(id)))
        decreases deviation
      {
        ComputeBasePower();
        n := n + 1;
        deviation := deviation - 10;
        var s := localResult.result;
        if (CycleOk(setup, s) && AccessOk(setup, s)) || (s.areaEfficiency < MIN_AREA_EFFICIENCY && setup.assoc == 0) {
          candidates := candidates + [localResult];
          if CycleOk(setup, s) && AccessOk(setup, s) {
            throughputOverflow, latencyOverflow := false, false;
          }
        } else {
          if CycleOk(setup, s) {
            throughputOverflow := false;
          }
          if AccessOk(setup, s) {
            latencyOverflow := false;
          }
          if deviation > LAST_DEVIATION {
            Cleanup(localResult);
          }
        }
      }
    }

    ghost predicate AllHeld(candidates: seq<Held>, cs: seq<nat>)
    {
      |candidates| == |cs| && forall i :: 0 <= i < |cs| ==> candidates[i] == Held(cs[i], model(cs[i]))
    }

    /** The choice among the candidates: all that are not cheaper than those before them are freed. */
    method Choose(candidates: seq<Held>, ghost cs: seq<nat>)
      requires AllHeld(candidates, cs)
      requires forall i, j :: 0 <= i < j < |cs| ==> cs[i] < cs[j]
      requires forall i :: 0 <= i < |cs| ==> cs[i] !in freed
      modifies this`localResult, this`freed
      ensures SomeCheap(model, cs) ==> EarliestBest(model, cs, localResult.id)
      ensures SomeCheap(model, cs) ==> localResult == Held(localResult.id, model(localResult.id))
      ensures SomeCheap(model, cs) ==> localResult.id !in freed
      ensures !SomeCheap(model, cs) ==> localResult == old(localResult)
    {
      var minDynamicEnergy := BIGNUM;
      ghost var best := 0;
      for i := 0 to |candidates|
        invariant minDynamicEnergy <= BIGNUM
        invariant forall j :: 0 <= j < i ==> minDynamicEnergy <= model(cs[j]).readEnergy
        invariant forall j :: i <= j < |cs| ==> cs[j] !in freed
        invariant if minDynamicEnergy == BIGNUM then localResult == old(localResult)
                  else best < i && localResult == candidates[best] && cs[best] !in freed &&
                       model(cs[best]).readEnergy == minDynamicEnergy &&
                       forall j :: 0 <= j < best ==> minDynamicEnergy < model(cs[j]).readEnergy
      {
        assert candidates[i] == Held(cs[i], model(cs[i]));
        if minDynamicEnergy > candidates[i].result.readEnergy {
          minDynamicEnergy := candidates[i].result.readEnergy;
          localResult := candidates[i];
          best := i;
        } else {
          Cleanup(candidates[i]);
        }
      }
    }

    /** What is chosen among the results 0 to `n`. */
    ghost predicate Chosen(n: nat)
      reads this
    {
      && localResult.result == model(localResult.id)
      && var cs := Candidates(setup, model, n);
      if SomeCheap(model, cs) then EarliestBest(model, cs, localResult.id) && localResult.id !in freed
      else localResult.id == n
    }

    /** The first estimate is freed, and the search starts over. */
    method SearchAndChoose() returns (ghost n: nat)
      requires searches == 1 && localResult == Held(0, model(0)) && freed == {}
      modifies this
      ensures searches == n + 1 && EndsAfter(setup, model, n) && Chosen(n)
    {
      deviation := FIRST_DEVIATION;
      Cleanup(localResult);
      var candidates: seq<Held>;
      candidates, n := Search();
      ghost var cs := Candidates(setup, model, n);
      CandidatesAre(setup, model, n);
      if candidates != [] {
        forall i | 0 <= i < |cs| ensures cs[i] !in freed { assert cs[i] in cs; }
        Choose(candidates, cs);
      }
    }

    /**
     * The whole optimisation. It makes at most nine searches. Where a candidate has an energy below
     * BIGNUM, the final result is the earliest candidate of least read energy, and its storage is
     * not freed.
     */
    method OptimizeArray() returns (ghost n: nat)
      requires searches == 0 && freed == {}
      modifies this
      ensures searches == n + 1 && Chosen(n)
      ensures if Optimised(setup) && !Meets(setup, model(0)) then EndsAfter(setup, model, n) else n == 0
    {
      n := 0;
      var throughputOverflow, latencyOverflow := true, true;
      ComputeBasePower();
      if localResult.result.cycleTime - setup.throughput <= TOLERANCE {
        throughputOverflow := false;
      }
      if localResult.result.accessTime - setup.latency <= TOLERANCE {
        latencyOverflow := false;
      }
      if (setup.optForClk && setup.optLocal)
         && ((setup.cacheSize > 2048 && setup.assoc != 0) || (setup.cacheSize > 256 && setup.assoc == 0))
      {
        if throughputOverflow || latencyOverflow {
          n := SearchAndChoose();
        }
      }
    }
  }
}
