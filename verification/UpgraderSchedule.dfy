/**
  The checkpoint upgrader's scheduler, on values.

  Upgraders add their tag to a checkpoint, downgraders remove it. In rounds, every scheduled tag whose
  dependencies are present is applied; a round with nothing ready aborts.
 */
module UpgraderSchedule {
  type Tag = string

  /** Registered tags: those with an upgrader, those with a downgrader, and what each depends on. */
  datatype Graph = Graph(tagSet: set<Tag>, untagSet: set<Tag>, depends: map<Tag, seq<Tag>>)

  /** A tag is used once, and dependencies name registered tags. */
  ghost predicate ValidGraph(g: Graph)
  {
    && g.tagSet !! g.untagSet
    && g.depends.Keys == g.tagSet + g.untagSet
    && forall t, d :: t in g.depends && d in g.depends[t] ==> d in g.depends
  }

  /** No tag depends on a tag that has a downgrader. */
  ghost predicate DependsOnUpgrades(g: Graph)
  {
    forall t, d :: t in g.depends && d in g.depends[t] ==> d in g.tagSet
  }

  predicate IsReady(g: Graph, tags: set<Tag>, t: Tag)
    requires t in g.depends
  {
    forall d :: d in g.depends[t] ==> d in tags
  }

  /** What remains to be done for a checkpoint with these tags. */
  function Todo(g: Graph, tags: set<Tag>): set<Tag> { (g.tagSet - tags) + (g.untagSet * tags) }

  /** The tags of a fully migrated checkpoint. */
  function Target(g: Graph, tags: set<Tag>): set<Tag> { (tags + g.tagSet) - g.untagSet }

  function Ready(g: Graph, tags: set<Tag>, todo: set<Tag>): set<Tag>
    requires todo <= g.depends.Keys
  {
    set t | t in todo && IsReady(g, tags, t)
  }

  function Apply(g: Graph, tags: set<Tag>, t: Tag): set<Tag>
  {
    if t in g.tagSet then tags + {t} else tags - {t}
  }

  /** The tags after applying a log of tags in order. */
  function ApplyAll(g: Graph, tags: set<Tag>, log: seq<Tag>): set<Tag>
  {
    if log == [] then tags else Apply(g, ApplyAll(g, tags, log[..|log| - 1]), log[|log| - 1])
  }

  /** The tags after a whole round, whatever the order within it. */
  function AfterRound(g: Graph, tags: set<Tag>, ready: set<Tag>): set<Tag>
  {
    (tags + (ready * g.tagSet)) - (ready - g.tagSet)
  }

  /** Whether the rounds come to an end with everything applied. */
  ghost predicate Succeeds(g: Graph, tags: set<Tag>, todo: set<Tag>)
    requires todo <= g.depends.Keys
    decreases |todo|
  {
    if todo == {} then true
    else
      var ready := Ready(g, tags, todo);
      if ready == {} then false
      else
        Shrinks(todo, ready);
        Succeeds(g, AfterRound(g, tags, ready), todo - ready)
  }

  lemma Shrinks(s: set<Tag>, r: set<Tag>)
    requires r <= s && r != {}
    ensures |s - r| < |s|
  {
    assert s == (s - r) + r;
    assert |s| == |s - r| + |r|;
  }

  // ---------------------------------------------------------------------------------------------
  // Dependency cycles
  // ---------------------------------------------------------------------------------------------

  /** A cycle of dependencies through `missing`. */
  ghost predicate IsCycle(g: Graph, missing: set<Tag>, c: seq<Tag>)
  {
    && c != []
    && (forall i :: 0 <= i < |c| ==> c[i] in missing && c[i] in g.depends)
    && (forall i :: 0 <= i < |c| ==> c[if i + 1 < |c| then i + 1 else 0] in g.depends[c[i]])
  }

  ghost predicate HasCycle(g: Graph, missing: set<Tag>)
  {
    exists c :: IsCycle(g, missing, c)
  }

  /** A walk along dependencies inside `m`, visiting each tag once. */
  ghost predicate IsWalk(g: Graph, m: set<Tag>, w: seq<Tag>)
  {
    && w != []
    && (forall i :: 0 <= i < |w| ==> w[i] in m && w[i] in g.depends)
    && (forall i :: 0 <= i < |w| - 1 ==> w[i + 1] in g.depends[w[i]])
    && (forall i, j :: 0 <= i < j < |w| ==> w[i] != w[j])
  }

  function Elements(w: seq<Tag>): set<Tag> { set t | t in w }

  lemma WalkExtends(g: Graph, m: set<Tag>, w: seq<Tag>, d: Tag)
    requires IsWalk(g, m, w) && d in m && d in g.depends && d in g.depends[w[|w| - 1]] && d !in w
    ensures IsWalk(g, m, w + [d])
    ensures m - Elements(w + [d]) < m - Elements(w)
  {
    assert Elements(w + [d]) == Elements(w) + {d};
  }

  lemma WalkReturns(g: Graph, m: set<Tag>, w: seq<Tag>, d: Tag)
    requires IsWalk(g, m, w) && d in g.depends[w[|w| - 1]] && d in w
    ensures HasCycle(g, m)
  {
    var i :| 0 <= i < |w| && w[i] == d;
    assert IsCycle(g, m, w[i..]);
  }

  ghost predicate LeadsInto(g: Graph, m: set<Tag>, t: Tag)
    requires t in g.depends
  {
    exists d :: d in g.depends[t] && d in m
  }

  /** When every tag of a set depends on another one of it, following dependencies closes a cycle. */
  lemma {:induction false} WalkCloses(g: Graph, m: set<Tag>, w: seq<Tag>)
    requires m <= g.depends.Keys && IsWalk(g, m, w)
    requires forall t :: t in m ==> LeadsInto(g, m, t)
    ensures HasCycle(g, m)
    decreases m - Elements(w)
  {
    assert LeadsInto(g, m, w[|w| - 1]);
    var d :| d in g.depends[w[|w| - 1]] && d in m;
    if d in w {
      WalkReturns(g, m, w, d);
    } else {
      WalkExtends(g, m, w, d);
      WalkCloses(g, m, w + [d]);
    }
  }

  lemma StuckDependsOnMissing(g: Graph, tags: set<Tag>, todo: set<Tag>, t: Tag) returns (d: Tag)
    requires ValidGraph(g) && DependsOnUpgrades(g) && todo <= g.depends.Keys && t in todo
    requires Ready(g, tags, todo) == {}
    ensures d in g.depends[t] && d in g.tagSet - tags
  {
    assert t !in Ready(g, tags, todo);
    d :| d in g.depends[t] && d !in tags;
  }

  lemma SomeTag(s: set<Tag>) returns (t: Tag)
    requires s != {}
    ensures t in s
  {
    assert (forall x :: x !in s) ==> s == {};
    t :| t in s;
  }

  /** A set of tags none of which is ready contains a cycle among its missing upgrades. */
  lemma {:induction false} StuckHasCycle(g: Graph, tags: set<Tag>, todo: set<Tag>)
    requires ValidGraph(g) && DependsOnUpgrades(g) && todo <= g.depends.Keys && todo != {}
    requires Ready(g, tags, todo) == {} && g.tagSet - tags <= todo
    ensures HasCycle(g, g.tagSet - tags)
  {
    var m := g.tagSet - tags;
    forall t | t in m ensures LeadsInto(g, m, t) {
      var d := StuckDependsOnMissing(g, tags, todo, t);
    }
    var t := SomeTag(todo);
    var d := StuckDependsOnMissing(g, tags, todo, t);
    assert IsWalk(g, m, [d]);
    WalkCloses(g, m, [d]);
  }

  lemma CycleInLarger(g: Graph, m: set<Tag>, n: set<Tag>)
    requires m <= n && HasCycle(g, m)
    ensures HasCycle(g, n)
  {
    var c :| IsCycle(g, m, c);
    assert IsCycle(g, n, c);
  }

  ghost predicate Blocked(c: seq<Tag>, tags: set<Tag>, todo: set<Tag>)
  {
    forall i :: 0 <= i < |c| ==> c[i] in todo && c[i] !in tags
  }

  /** No tag of a cycle ever becomes ready. */
  lemma CycleStaysBlocked(g: Graph, missing: set<Tag>, c: seq<Tag>, tags: set<Tag>, todo: set<Tag>)
    requires todo <= g.depends.Keys && IsCycle(g, missing, c) && Blocked(c, tags, todo)
    ensures var ready := Ready(g, tags, todo); Blocked(c, AfterRound(g, tags, ready), todo - ready)
  {
    var ready := Ready(g, tags, todo);
    forall i | 0 <= i < |c| ensures c[i] !in ready {
      var d := c[if i + 1 < |c| then i + 1 else 0];
      assert d in g.depends[c[i]] && d !in tags;
    }
  }

  // ---------------------------------------------------------------------------------------------
  // Exactly when the rounds succeed
  // ---------------------------------------------------------------------------------------------

  lemma {:induction false} SucceedsWithoutCycle(g: Graph, tags: set<Tag>, todo: set<Tag>)
    requires ValidGraph(g) && DependsOnUpgrades(g) && todo <= g.depends.Keys
    requires g.tagSet - tags <= todo && !Succeeds(g, tags, todo)
    ensures HasCycle(g, g.tagSet - tags)
    decreases |todo|
  {
    var ready := Ready(g, tags, todo);
    if ready == {} {
      StuckHasCycle(g, tags, todo);
    } else {
      Shrinks(todo, ready);
      var next := AfterRound(g, tags, ready);
      assert g.tagSet - next <= todo - ready && g.tagSet - next <= g.tagSet - tags;
      SucceedsWithoutCycle(g, next, todo - ready);
      CycleInLarger(g, g.tagSet - next, g.tagSet - tags);
    }
  }

  lemma {:induction false} CycleNeverSucceeds(g: Graph, missing: set<Tag>, c: seq<Tag>, tags: set<Tag>, todo: set<Tag>)
    requires todo <= g.depends.Keys && IsCycle(g, missing, c) && Blocked(c, tags, todo)
    ensures !Succeeds(g, tags, todo)
    decreases |todo|
  {
    assert c[0] in todo;
    var ready := Ready(g, tags, todo);
    if ready != {} {
      Shrinks(todo, ready);
      CycleStaysBlocked(g, missing, c, tags, todo);
      CycleNeverSucceeds(g, missing, c, AfterRound(g, tags, ready), todo - ready);
    }
  }

  /** A checkpoint can be migrated if and only if its missing upgrades have no dependency cycle. */
  lemma SucceedsExactly(g: Graph, tags: set<Tag>)
    requires ValidGraph(g) && DependsOnUpgrades(g)
    ensures Todo(g, tags) <= g.depends.Keys
    ensures Succeeds(g, tags, Todo(g, tags)) <==> !HasCycle(g, g.tagSet - tags)
  {
    if !Succeeds(g, tags, Todo(g, tags)) {
      SucceedsWithoutCycle(g, tags, Todo(g, tags));
    }
    if HasCycle(g, g.tagSet - tags) {
      var c :| IsCycle(g, g.tagSet - tags, c);
      assert Blocked(c, tags, Todo(g, tags));
      CycleNeverSucceeds(g, g.tagSet - tags, c, tags, Todo(g, tags));
    }
  }

  /** A migrated checkpoint has nothing left to do. */
  lemma TargetIsDone(g: Graph, tags: set<Tag>)
    requires g.tagSet !! g.untagSet
    ensures Todo(g, Target(g, tags)) == {}
  {
  }

  /** Readiness as documented: a tag waits for the removal of a tag with a downgrader, and for the
      presence of any other. The code waits for the presence of all. */
  ghost predicate DocumentedReady(g: Graph, tags: set<Tag>, t: Tag)
    requires t in g.depends
  {
    forall d :: d in g.depends[t] ==> if d in g.untagSet then d !in tags else d in tags
  }

  ghost predicate ReadyAlike(g: Graph, tags: set<Tag>, t: Tag)
  {
    t in g.depends ==> (DocumentedReady(g, tags, t) <==> IsReady(g, tags, t))
  }

  /** Documentation and code agree, for all tag sets, exactly when no tag depends on a downgraded one. */
  lemma {:induction false} DocumentationAgreesExactly(g: Graph)
    requires ValidGraph(g)
    ensures (forall tags, t :: ReadyAlike(g, tags, t)) <==> DependsOnUpgrades(g)
  {
    if forall tags, t :: ReadyAlike(g, tags, t) {
      forall t, d | t in g.depends && d in g.depends[t] ensures d in g.tagSet {
        assert ReadyAlike(g, Elements(g.depends[t]), t);
      }
    }
  }

  /** An upgrade that depends on a downgraded tag absent from the checkpoint is never
      applied, although the documented condition already holds. */
  lemma {:induction false} AbsentDowngradeBlocks(g: Graph, tags: set<Tag>, todo: set<Tag>, t: Tag, d: Tag)
    requires ValidGraph(g) && todo <= g.depends.Keys && t in todo && d in g.depends[t]
    requires d in g.untagSet && d !in tags
    ensures !Succeeds(g, tags, todo)
    decreases |todo|
  {
    var ready := Ready(g, tags, todo);
    assert t !in ready;
    if ready != {} {
      Shrinks(todo, ready);
      AbsentDowngradeBlocks(g, AfterRound(g, tags, ready), todo - ready, t, d);
    }
  }

  /** Such a graph exists: one upgrade depending on one downgraded tag, and an empty checkpoint. */
  lemma DocumentedDowngradeFails()
    ensures var g := Graph({"new"}, {"old"}, map["new" := ["old"], "old" := []]);
      ValidGraph(g) && Todo(g, {}) <= g.depends.Keys && !Succeeds(g, {}, Todo(g, {}))
  {
    var g := Graph({"new"}, {"old"}, map["new" := ["old"], "old" := []]);
    assert "new"[0] != "old"[0];
    AbsentDowngradeBlocks(g, {}, Todo(g, {}), "new", "old");
  }
}
