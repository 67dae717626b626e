/** Migrating a checkpoint: the scheduling loop, its log, and the file around it. */
module UpgraderMigrate {
  import opened Common
  import opened UpgraderSchedule
  import opened Text

  // ---------------------------------------------------------------------------------------------
  // Logs of applied tags
  // ---------------------------------------------------------------------------------------------

  /** Whenever a tag was applied, all its dependencies were present. */
  ghost predicate DependenciesHeld(g: Graph, tags: set<Tag>, log: seq<Tag>)
  {
    forall j :: 0 <= j < |log| ==> log[j] in g.depends && IsReady(g, ApplyAll(g, tags, log[..j]), log[j])
  }

  ghost predicate OnceEach(log: seq<Tag>, s: set<Tag>)
  {
    Elements(log) == s && forall i, j :: 0 <= i < j < |log| ==> log[i] != log[j]
  }

  lemma ApplySnoc(g: Graph, tags: set<Tag>, log: seq<Tag>, t: Tag)
    ensures ApplyAll(g, tags, log + [t]) == Apply(g, ApplyAll(g, tags, log), t)
  {
    assert (log + [t])[..|log|] == log;
  }

  lemma OnceSnoc(log: seq<Tag>, s: set<Tag>, t: Tag)
    requires OnceEach(log, s) && t !in s
    ensures OnceEach(log + [t], s + {t})
  {
    assert Elements(log + [t]) == Elements(log) + {t};
    assert forall i :: 0 <= i < |log| ==> log[i] in Elements(log);
  }

  lemma HeldSnoc(g: Graph, tags: set<Tag>, log: seq<Tag>, t: Tag)
    requires DependenciesHeld(g, tags, log) && t in g.depends && IsReady(g, ApplyAll(g, tags, log), t)
    ensures DependenciesHeld(g, tags, log + [t])
  {
    var next := log + [t];
    assert forall j :: 0 <= j < |log| ==> next[..j] == log[..j] && next[j] == log[j];
    assert next[..|log|] == log;
  }

  /** `log` leads from `start` to `tags`, applying each tag of `done` once. */
  ghost predicate LogOf(g: Graph, start: set<Tag>, tags: set<Tag>, log: seq<Tag>, done: set<Tag>)
  {
    && ApplyAll(g, start, log) == tags
    && OnceEach(log, done)
    && (DependsOnUpgrades(g) ==> DependenciesHeld(g, start, log))
  }

  lemma LogSnoc(g: Graph, start: set<Tag>, tags: set<Tag>, log: seq<Tag>, done: set<Tag>, t: Tag)
    requires LogOf(g, start, tags, log, done) && t !in done && t in g.depends
    requires DependsOnUpgrades(g) ==> IsReady(g, tags, t)
    ensures LogOf(g, start, Apply(g, tags, t), log + [t], done + {t})
  {
    ApplySnoc(g, start, log, t);
    OnceSnoc(log, done, t);
    if DependsOnUpgrades(g) {
      HeldSnoc(g, start, log, t);
    }
  }

  lemma RoundSnoc(g: Graph, tags: set<Tag>, done: set<Tag>, t: Tag)
    requires t !in done
    ensures AfterRound(g, tags, done + {t}) == Apply(g, AfterRound(g, tags, done), t)
  {
  }

  lemma RoundsCompose(g: Graph, tags: set<Tag>, done: set<Tag>, ready: set<Tag>)
    requires done !! ready
    ensures AfterRound(g, AfterRound(g, tags, done), ready) == AfterRound(g, tags, done + ready)
  {
  }

  /** Within a round, removals do not take away what an upgrade waits for. */
  lemma ReadyThroughRound(g: Graph, tags: set<Tag>, done: set<Tag>, t: Tag)
    requires ValidGraph(g) && DependsOnUpgrades(g) && t in g.depends && IsReady(g, tags, t)
    ensures IsReady(g, AfterRound(g, tags, done), t)
  {
  }

  lemma RoundStep(g: Graph, tags0: set<Tag>, round: set<Tag>, start: set<Tag>, log: seq<Tag>, earlier: set<Tag>, t: Tag)
    requires ValidGraph(g) && t in g.depends && t !in round && t !in earlier && IsReady(g, tags0, t)
    requires LogOf(g, start, AfterRound(g, tags0, round), log, earlier + round)
    ensures LogOf(g, start, AfterRound(g, tags0, round + {t}), log + [t], earlier + (round + {t}))
  {
    if DependsOnUpgrades(g) {
      ReadyThroughRound(g, tags0, round, t);
    }
    RoundSnoc(g, tags0, round, t);
    LogSnoc(g, start, AfterRound(g, tags0, round), log, earlier + round, t);
    assert earlier + round + {t} == earlier + (round + {t});
  }

  /** Apply every ready tag once, in any order. A downgraded tag is present when it is removed. */
  method ApplyRound(g: Graph, tags0: set<Tag>, ready: set<Tag>, log0: seq<Tag>, ghost start: set<Tag>,
                    ghost earlier: set<Tag>)
    returns (tags: set<Tag>, log: seq<Tag>)
    requires ValidGraph(g) && ready <= g.depends.Keys && forall t :: t in ready ==> IsReady(g, tags0, t)
    requires ready - g.tagSet <= tags0 && earlier !! ready
    requires LogOf(g, start, tags0, log0, earlier)
    ensures tags == AfterRound(g, tags0, ready)
    ensures LogOf(g, start, tags, log, earlier + ready)
  {
    tags, log := tags0, log0;
    var left, round := ready, {};
    assert earlier + round == earlier;
    while left != {}
      invariant left !! round && left + round == ready && tags == AfterRound(g, tags0, round)
      invariant LogOf(g, start, tags, log, earlier + round)
      decreases left
    {
      var t :| t in left;
      RoundStep(g, tags0, round, start, log, earlier, t);
      RoundSnoc(g, tags0, round, t);
      if t in g.tagSet {
        tags := tags + {t};
      } else {
        assert t in tags;
        tags := tags - {t};
      }
      log := log + [t];
      left, round := left - {t}, round + {t};
    }
    assert round == ready;
  }

  /** The tags left to do and the tags already applied account for the whole schedule. */
  ghost predicate Progress(g: Graph, tags0: set<Tag>, tags: set<Tag>, todo: set<Tag>, log: seq<Tag>, done: set<Tag>)
  {
    && done !! todo && done + todo == Todo(g, tags0)
    && tags == AfterRound(g, tags0, done)
    && LogOf(g, tags0, tags, log, done)
  }

  lemma ProgressStep(g: Graph, tags0: set<Tag>, tags: set<Tag>, todo: set<Tag>, log: seq<Tag>, done: set<Tag>,
                     ready: set<Tag>, log': seq<Tag>)
    requires Progress(g, tags0, tags, todo, log, done) && ready <= todo
    requires LogOf(g, tags0, AfterRound(g, tags, ready), log', done + ready)
    ensures Progress(g, tags0, AfterRound(g, tags, ready), todo - ready, log', done + ready)
  {
    RoundsCompose(g, tags0, done, ready);
  }

  lemma ProgressStart(g: Graph, tags0: set<Tag>)
    requires ValidGraph(g)
    ensures Todo(g, tags0) <= g.depends.Keys && Progress(g, tags0, tags0, Todo(g, tags0), [], {})
    ensures DependsOnUpgrades(g) ==>
              (Succeeds(g, tags0, Todo(g, tags0)) <==> !HasCycle(g, g.tagSet - tags0))
  {
    if DependsOnUpgrades(g) { SucceedsExactly(g, tags0); }
  }

  /** A round neither helps nor harms. */
  lemma RoundDecides(g: Graph, tags: set<Tag>, todo: set<Tag>)
    requires todo <= g.depends.Keys && todo != {}
    ensures var ready := Ready(g, tags, todo);
      && ready <= todo
      && (ready == {} ==> !Succeeds(g, tags, todo))
      && (ready != {} ==>
            && |todo - ready| < |todo|
            && (Succeeds(g, tags, todo) <==> Succeeds(g, AfterRound(g, tags, ready), todo - ready)))
  {
    var ready := Ready(g, tags, todo);
    if ready != {} { Shrinks(todo, ready); }
  }

  /** A scheduled downgrade is still present. */
  lemma DowngradesPresent(g: Graph, tags0: set<Tag>, tags: set<Tag>, todo: set<Tag>, log: seq<Tag>, done: set<Tag>)
    requires ValidGraph(g) && Progress(g, tags0, tags, todo, log, done)
    ensures todo - g.tagSet <= tags && todo <= g.depends.Keys
  {
  }

  lemma AllDone(g: Graph, tags0: set<Tag>)
    requires ValidGraph(g)
    ensures AfterRound(g, tags0, Todo(g, tags0)) == Target(g, tags0)
  {
  }

  /** Rounds until nothing is left or nothing is ready. The outcome and the final tags do not depend
      on the order within rounds; `log` is the order of one run. */
  method Migrate(g: Graph, tags0: set<Tag>) returns (ok: bool, tags: set<Tag>, log: seq<Tag>)
    requires ValidGraph(g)
    ensures Todo(g, tags0) <= g.depends.Keys && (ok <==> Succeeds(g, tags0, Todo(g, tags0)))
    ensures DependsOnUpgrades(g) ==> (ok <==> !HasCycle(g, g.tagSet - tags0))
    ensures ok ==> tags == Target(g, tags0) && OnceEach(log, Todo(g, tags0))
    ensures exists done :: done <= Todo(g, tags0) && OnceEach(log, done)
    ensures ApplyAll(g, tags0, log) == tags
    ensures DependsOnUpgrades(g) ==> DependenciesHeld(g, tags0, log)
  {
    tags, log := tags0, [];
    var todo := Todo(g, tags0);
    ghost var done: set<Tag> := {};
    ProgressStart(g, tags0);
    while todo != {}
      invariant todo <= g.depends.Keys && Progress(g, tags0, tags, todo, log, done)
      invariant Succeeds(g, tags, todo) <==> Succeeds(g, tags0, Todo(g, tags0))
      decreases |todo|
    {
      RoundDecides(g, tags, todo);
      var ready := Ready(g, tags, todo);
      if ready == {} {
        return false, tags, log;
      }
      DowngradesPresent(g, tags0, tags, todo, log, done);
      ghost var tags', log' := tags, log;
      tags, log := ApplyRound(g, tags, ready, log, tags0, done);
      ProgressStep(g, tags0, tags', todo, log', done, ready, log);
      todo, done := todo - ready, done + ready;
    }
    ok := true;
    AllDone(g, tags0);
  }

  // ---------------------------------------------------------------------------------------------
  // Legacy checkpoints: versions are upgraded in order
  // ---------------------------------------------------------------------------------------------

  /** Versions 2 to `top` have different tags, and each from 3 on depends on the previous one. */
  ghost predicate LegacyChain(g: Graph, legacy: map<int, Tag>, top: int)
  {
    && (forall v :: 2 <= v <= top ==> v in legacy && legacy[v] in g.tagSet && legacy[v] in g.depends)
    && (forall v, w :: 2 <= v < w <= top ==> legacy[v] != legacy[w])
    && (forall v :: 3 <= v <= top ==> legacy[v - 1] in g.depends[legacy[v]])
  }

  /** The tags of a checkpoint of legacy version `v`. */
  function VersionTags(legacy: map<int, Tag>, v: int): set<Tag>
    requires forall i :: 2 <= i <= v ==> i in legacy
  {
    set i | 2 <= i <= v :: legacy[i]
  }

  lemma {:induction false} PresentWasApplied(g: Graph, tags: set<Tag>, log: seq<Tag>, t: Tag)
    requires t in ApplyAll(g, tags, log) && t !in tags
    ensures exists i :: 0 <= i < |log| && log[i] == t
    decreases |log|
  {
    var n := |log| - 1;
    if log[n] != t {
      PresentWasApplied(g, tags, log[..n], t);
      var i :| 0 <= i < n && log[..n][i] == t;
      assert log[i] == t;
    }
  }

  /** In every run on a checkpoint of version `v`, whether it succeeds or aborts, a missing legacy
      upgrade is applied only after all earlier missing versions. */
  lemma {:induction false} VersionsAscend(g: Graph, legacy: map<int, Tag>, top: int, v: int, log: seq<Tag>,
                                          a: int, b: int, j: nat)
    requires LegacyChain(g, legacy, top) && v < a && 2 <= a < b <= top
    requires DependenciesHeld(g, VersionTags(legacy, v), log)
    requires j < |log| && log[j] == legacy[b]
    ensures exists i :: 0 <= i < j && log[i] == legacy[a]
    decreases b - a
  {
    var tags := VersionTags(legacy, v);
    assert IsReady(g, ApplyAll(g, tags, log[..j]), log[j]);
    assert legacy[b - 1] in g.depends[log[j]];
    PresentWasApplied(g, tags, log[..j], legacy[b - 1]);
    var i :| 0 <= i < j && log[..j][i] == legacy[b - 1];
    assert log[i] == legacy[b - 1];
    if a < b - 1 {
      VersionsAscend(g, legacy, top, v, log, a, b - 1, i);
    }
  }

  // ---------------------------------------------------------------------------------------------
  // The tag list in the file
  // ---------------------------------------------------------------------------------------------

  function TagsIn(s: string): set<Tag> { set w | w in Words(s) }

  // ---------------------------------------------------------------------------------------------
  // Checkpoint files
  // ---------------------------------------------------------------------------------------------

  /** The `root.globals` section of a checkpoint: missing, or with or without a tag list. */
  datatype RootGlobals = NoSection | Section(tags: Option<string>)

  /** The version information of a checkpoint, in the three places it may be, and everything else. */
  datatype Checkpoint = Checkpoint(cptVer: Option<int>, globals: Option<string>, root: RootGlobals, rest: string)

  /** What running the body of an upgrader or downgrader makes of a checkpoint. */
  type Bodies = (Tag, Checkpoint) -> Checkpoint

  datatype FileOutcome =
    | Unchanged
    | Written(cpt: Checkpoint)
    | NoVersion                      // no version information
    | UnknownVersion                 // a legacy version without an upgrader
    | Unresolved                     // dependencies impossible to resolve
    | NoPlace                        // no section to write the tags to

  predicate KnownVersion(legacy: map<int, Tag>, v: int) { forall i :: 2 <= i <= v ==> i in legacy }

  /** The tags of a checkpoint: converted from a legacy version number, or listed in either place,
      the older one first. */
  function ReadTags(legacy: map<int, Tag>, c: Checkpoint): Option<set<Tag>>
  {
    if c.cptVer.Some? then
      if KnownVersion(legacy, c.cptVer.value) then Some(VersionTags(legacy, c.cptVer.value)) else None
    else if c.globals.Some? then Some(TagsIn(c.globals.value))
    else if c.root.Section? && c.root.tags.Some? then Some(TagsIn(c.root.tags.value))
    else None
  }

  ghost predicate AllWords(s: set<Tag>) { forall t :: t in s ==> IsWord(t) }

  lemma {:induction false} ReadWords(g: Graph, legacy: map<int, Tag>, c: Checkpoint)
    requires ReadTags(legacy, c).Some? && AllWords(g.tagSet) && forall v :: v in legacy ==> IsWord(legacy[v])
    ensures AllWords(Target(g, ReadTags(legacy, c).value))
  {
    if c.cptVer.None? {
      WordsAreWords(if c.globals.Some? then c.globals.value else c.root.tags.value, "");
    }
  }

  /** The tags joined by blanks, in any order; reading them back gives the same set. */
  method JoinTags(tags: set<Tag>) returns (s: string)
    requires AllWords(tags)
    ensures TagsIn(s) == tags
  {
    var left, ws := tags, [];
    while left != {}
      invariant left <= tags && Elements(ws) == tags - left && forall i :: 0 <= i < |ws| ==> IsWord(ws[i])
      decreases left
    {
      var t :| t in left;
      assert Elements(ws + [t]) == Elements(ws) + {t};
      ws := ws + [t];
      left := left - {t};
    }
    s := JoinOn(ws, ' ');
    WordsJoined(ws);
    assert Elements(ws) == tags;
  }

  /** The checkpoint after the bodies of the logged tags have run in order. */
  function RunBodies(bodies: Bodies, log: seq<Tag>, c: Checkpoint): Checkpoint
  {
    if log == [] then c else bodies(log[|log| - 1], RunBodies(bodies, log[..|log| - 1], c))
  }

  /** The checkpoint just before the tags are written: without its version number, all bodies run. */
  function Upgraded(bodies: Bodies, log: seq<Tag>, c: Checkpoint): Checkpoint
  {
    RunBodies(bodies, log, c.(cptVer := None))
  }

  /** `d` is `c` with these tags in its `root.globals` section. */
  ghost predicate Stamped(c: Checkpoint, d: Checkpoint, tags: set<Tag>)
  {
    && c.root.Section? && d.root.Section? && d == c.(root := d.root)
    && d.root.tags.Some? && TagsIn(d.root.tags.value) == tags
  }

  /** The outcome of a file with tags `tags` whose upgrades were applied in the order of `log`. */
  ghost predicate Migrates(g: Graph, bodies: Bodies, c: Checkpoint, tags: set<Tag>, r: FileOutcome, log: seq<Tag>)
    requires Todo(g, tags) <= g.depends.Keys
  {
    if !Succeeds(g, tags, Todo(g, tags)) then r.Unresolved?
    else
      && OnceEach(log, Todo(g, tags))
      && if c.cptVer.None? && Todo(g, tags) == {} then r.Unchanged?
         else if Upgraded(bodies, log, c).root.NoSection? then r.NoPlace?
         else r.Written? && Stamped(Upgraded(bodies, log, c), r.cpt, Target(g, tags))
  }

  // ---------------------------------------------------------------------------------------------
  // The same, said of the file and the registered tags alone
  // ---------------------------------------------------------------------------------------------

  /** The checkpoint has tag `t`: by its version number, or by the tag list that is read. */
  ghost predicate HasTag(legacy: map<int, Tag>, c: Checkpoint, t: Tag)
  {
    match (c.cptVer, c.globals)
    case (Some(v), _) => exists i :: 2 <= i <= v && i in legacy && legacy[i] == t
    case (None, Some(list)) => t in Words(list)
    case (None, None) => c.root.Section? && c.root.tags.Some? && t in Words(c.root.tags.value)
  }

  /** It has a version number for which an upgrader is missing. */
  ghost predicate VersionUnknown(legacy: map<int, Tag>, c: Checkpoint)
  {
    c.cptVer.Some? && exists i :: 2 <= i <= c.cptVer.value && i !in legacy
  }

  ghost predicate VersionMissing(c: Checkpoint)
  {
    c.cptVer.None? && c.globals.None? && (c.root.NoSection? || c.root.tags.None?)
  }

  /** Tag `t` is to be applied: an upgrade the file lacks, or a downgrade of a tag it has. */
  ghost predicate Applies(g: Graph, legacy: map<int, Tag>, c: Checkpoint, t: Tag)
  {
    (t in g.tagSet && !HasTag(legacy, c, t)) || (t in g.untagSet && HasTag(legacy, c, t))
  }

  /** The tags that were applied: only such as are to be, each once, and all of them in the end. */
  ghost predicate AppliesExactly(g: Graph, legacy: map<int, Tag>, c: Checkpoint, log: seq<Tag>, all: bool)
  {
    && (forall j :: 0 <= j < |log| ==> Applies(g, legacy, c, log[j]))
    && (forall i, j :: 0 <= i < j < |log| ==> log[i] != log[j])
    && (all ==> forall t :: Applies(g, legacy, c, t) ==> t in log)
  }

  /** The tags that are written: those the file had and all upgrades, without the downgraded ones. */
  ghost predicate WritesTags(g: Graph, legacy: map<int, Tag>, c: Checkpoint, d: Checkpoint)
  {
    && d.root.Section? && d.root.tags.Some?
    && forall t :: t in Words(d.root.tags.value) <==> (HasTag(legacy, c, t) || t in g.tagSet) && t !in g.untagSet
  }

  /** Which tags a file is read to have. */
  lemma {:induction false} ReadTagsAre(legacy: map<int, Tag>, c: Checkpoint)
    ensures ReadTags(legacy, c).None? <==> VersionUnknown(legacy, c) || VersionMissing(c)
    ensures ReadTags(legacy, c).Some? ==> forall t :: t in ReadTags(legacy, c).value <==> HasTag(legacy, c, t)
  {
  }

  lemma {:induction false} TodoApplies(g: Graph, legacy: map<int, Tag>, c: Checkpoint, log: seq<Tag>, done: set<Tag>,
                                       all: bool)
    requires ReadTags(legacy, c).Some? && OnceEach(log, done)
    requires var todo := Todo(g, ReadTags(legacy, c).value); done <= todo && (all ==> done == todo)
    ensures AppliesExactly(g, legacy, c, log, all)
  {
    ReadTagsAre(legacy, c);
    assert forall j :: 0 <= j < |log| ==> log[j] in Elements(log);
    if all {
      forall t | Applies(g, legacy, c, t) ensures t in log { assert t in Elements(log); }
    }
  }

  lemma {:induction false} TargetIsWritten(g: Graph, legacy: map<int, Tag>, c: Checkpoint, d: Checkpoint)
    requires ReadTags(legacy, c).Some? && d.root.Section? && d.root.tags.Some?
    requires TagsIn(d.root.tags.value) == Target(g, ReadTags(legacy, c).value)
    ensures WritesTags(g, legacy, c, d)
  {
    ReadTagsAre(legacy, c);
    forall t ensures t in Words(d.root.tags.value) <==> (HasTag(legacy, c, t) || t in g.tagSet) && t !in g.untagSet {
      assert t in Words(d.root.tags.value) <==> t in TagsIn(d.root.tags.value);
    }
  }

  /** Migrate one checkpoint file. */
  method ProcessFile(g: Graph, legacy: map<int, Tag>, bodies: Bodies, c: Checkpoint)
      returns (r: FileOutcome, log: seq<Tag>)
    requires ValidGraph(g) && AllWords(g.tagSet) && forall v :: v in legacy ==> IsWord(legacy[v])
    ensures Todo(g, if ReadTags(legacy, c).Some? then ReadTags(legacy, c).value else {}) <= g.depends.Keys
    ensures match ReadTags(legacy, c)
            case None => r == if c.cptVer.Some? then UnknownVersion else NoVersion
            case Some(tags) => Migrates(g, bodies, c, tags, r, log)
    ensures ReadTags(legacy, c).Some? && DependsOnUpgrades(g) ==>
              && (r.Unresolved? <==> HasCycle(g, g.tagSet - ReadTags(legacy, c).value))
              && DependenciesHeld(g, ReadTags(legacy, c).value, log)
    ensures r.UnknownVersion? <==> VersionUnknown(legacy, c)
    ensures r.NoVersion? <==> VersionMissing(c)
    ensures AppliesExactly(g, legacy, c, log, r.Unchanged? || r.Written? || r.NoPlace?)
    ensures r.Written? ==> WritesTags(g, legacy, c, r.cpt)
    ensures c.cptVer.Some? ==> forall i :: 2 <= i <= c.cptVer.value && i in legacy && legacy[i] in g.tagSet ==>
              legacy[i] !in log
  {
    ReadTagsAre(legacy, c);
    log := [];
    var tags := {};
    if c.cptVer.Some? {
      if !KnownVersion(legacy, c.cptVer.value) {
        return UnknownVersion, log;
      }
      tags := VersionTags(legacy, c.cptVer.value);
    } else if c.globals.Some? {
      tags := TagsIn(c.globals.value);
    } else if c.root.Section? && c.root.tags.Some? {
      tags := TagsIn(c.root.tags.value);
    } else {
      return NoVersion, log;
    }
    ReadWords(g, legacy, c);
    var ok, final;
    ok, final, log := Migrate(g, tags);
    ghost var done :| done <= Todo(g, tags) && OnceEach(log, done);
    TodoApplies(g, legacy, c, log, done, ok);
    if !ok {
      return Unresolved, log;
    }
    assert log == [] <==> Todo(g, tags) == {} by { LogIsEmpty(log, Todo(g, tags)); }
    if c.cptVer.None? && log == [] {
      return Unchanged, log;
    }
    var d := ApplyBodies(bodies, log, c.(cptVer := None));
    if d.root.NoSection? {
      return NoPlace, log;
    }
    var s := JoinTags(final);
    r := Written(d.(root := Section(Some(s))));
    TargetIsWritten(g, legacy, c, r.cpt);
  }

  lemma {:induction false} LogIsEmpty(log: seq<Tag>, todo: set<Tag>)
    requires OnceEach(log, todo)
    ensures log == [] <==> todo == {}
  {
    assert log != [] ==> log[0] in Elements(log);
    assert log == [] ==> Elements(log) == {};
  }

  method ApplyBodies(bodies: Bodies, log: seq<Tag>, c: Checkpoint) returns (d: Checkpoint)
    ensures d == RunBodies(bodies, log, c)
  {
    d := c;
    for i := 0 to |log|
      invariant d == RunBodies(bodies, log[..i], c)
    {
      assert log[..i + 1][..i] == log[..i];
      d := bodies(log[i], d);
    }
    assert log[..|log|] == log;
  }

  /** The bodies run one after another, in the order of the log. */
  lemma {:induction false} BodiesInOrder(bodies: Bodies, a: seq<Tag>, b: seq<Tag>, c: Checkpoint)
    ensures RunBodies(bodies, a + b, c) == RunBodies(bodies, b, RunBodies(bodies, a, c))
    ensures |b| == 1 ==> RunBodies(bodies, b, c) == bodies(b[0], c)
    decreases |b|
  {
    if b == [] {
      assert a + b == a;
    } else {
      var n := |b| - 1;
      BodiesInOrder(bodies, a, b[..n], c);
      assert (a + b)[..|a| + n] == a + b[..n] && (n == 0 ==> b[..n] == []);
    }
  }

  /** The body of a tag runs on what the bodies before it have left, and among those is the body of every
      dependency the file lacked. */
  lemma {:induction false} DependencyRunsFirst(g: Graph, bodies: Bodies, tags: set<Tag>, log: seq<Tag>, j: nat, d: Tag,
                                               c: Checkpoint) returns (i: nat)
    requires DependenciesHeld(g, tags, log) && j < |log| && d in g.depends[log[j]] && d !in tags
    ensures i < j && log[i] == d
    ensures RunBodies(bodies, log[..j + 1], c) ==
            bodies(log[j], RunBodies(bodies, log[i + 1..j], bodies(d, RunBodies(bodies, log[..i], c))))
  {
    assert IsReady(g, ApplyAll(g, tags, log[..j]), log[j]);
    PresentWasApplied(g, tags, log[..j], d);
    i :| 0 <= i < j && log[..j][i] == d;
    assert log[..j + 1] == log[..j] + [log[j]] && log[..j] == log[..i + 1] + log[i + 1..j];
    assert log[..i + 1] == log[..i] + [d];
    BodiesInOrder(bodies, log[..j], [log[j]], c);
    BodiesInOrder(bodies, log[..i + 1], log[i + 1..j], c);
    BodiesInOrder(bodies, log[..i], [d], c);
    BodiesInOrder(bodies, [], [log[j]], RunBodies(bodies, log[..j], c));
    BodiesInOrder(bodies, [], [d], RunBodies(bodies, log[..i], c));
  }

  // ---------------------------------------------------------------------------------------------
  // Running again
  // ---------------------------------------------------------------------------------------------

  /** A run that leaves the file alone. */
  ghost predicate NothingToDo(g: Graph, legacy: map<int, Tag>, c: Checkpoint)
  {
    c.cptVer.None? && ReadTags(legacy, c).Some? && Todo(g, ReadTags(legacy, c).value) == {}
  }

  /**
   * A second run leaves the written file alone if and only if the bodies left no version number, and
   * no older tag list or one that needs nothing by itself: that list is read in preference to the
   * one just written.
   */
  lemma {:induction false} RerunExactly(g: Graph, legacy: map<int, Tag>, c: Checkpoint, d: Checkpoint, tags: set<Tag>)
    requires ValidGraph(g) && Stamped(c, d, Target(g, tags))
    ensures NothingToDo(g, legacy, d) <==>
            c.cptVer.None? && (c.globals.None? || Todo(g, TagsIn(c.globals.value)) == {})
  {
    TargetIsDone(g, tags);
  }

  /** The body of `t` removes the older tag list, as the one that renames that section does. */
  ghost predicate MovesGlobals(bodies: Bodies, t: Tag) { forall c :: bodies(t, c).globals.None? }

  /** The body of `t` leaves the older tag list as it is. */
  ghost predicate KeepsGlobals(bodies: Bodies, t: Tag) { forall c :: bodies(t, c).globals == c.globals }

  /** The body of `t` brings back no version number. */
  ghost predicate KeepsVersionAway(bodies: Bodies, t: Tag)
  {
    forall c: Checkpoint :: c.cptVer.None? ==> bodies(t, c).cptVer.None?
  }

  /** Each of these bodies moves the older list or leaves it, and brings back no version number. */
  ghost predicate MoveOrKeep(bodies: Bodies, tags: set<Tag>)
  {
    forall t :: t in tags ==> (MovesGlobals(bodies, t) || KeepsGlobals(bodies, t)) && KeepsVersionAway(bodies, t)
  }

  /** The older list after a run: gone if some applied body moves it, and as before otherwise. */
  lemma {:induction false} BodiesLeave(bodies: Bodies, log: seq<Tag>, c: Checkpoint)
    requires MoveOrKeep(bodies, Elements(log)) && c.cptVer.None?
    ensures var d := RunBodies(bodies, log, c);
      && d.cptVer.None?
      && d.globals == if exists t :: t in log && MovesGlobals(bodies, t) then None else c.globals
    decreases |log|
  {
    if log != [] {
      var head, t := log[..|log| - 1], log[|log| - 1];
      assert log == head + [t];
      assert t in Elements(log) && forall u :: u in Elements(head) ==> u in Elements(log);
      BodiesLeave(bodies, head, c);
      assert forall u :: u in log <==> u in head || u == t;
    }
  }

  /**
   * A second run leaves a written file alone if and only if the file had no older tag list, or some
   * applied body moves it, or it needs nothing by itself.
   */
  lemma {:induction false} RerunOnInput(g: Graph, legacy: map<int, Tag>, bodies: Bodies, c: Checkpoint,
                                        r: FileOutcome, log: seq<Tag>)
    requires ValidGraph(g) && ReadTags(legacy, c).Some?
    requires var todo := Todo(g, ReadTags(legacy, c).value); todo <= g.depends.Keys && MoveOrKeep(bodies, todo)
    requires Migrates(g, bodies, c, ReadTags(legacy, c).value, r, log) && r.Written?
    ensures NothingToDo(g, legacy, r.cpt) <==>
            || c.globals.None?
            || (exists t :: t in Todo(g, ReadTags(legacy, c).value) && MovesGlobals(bodies, t))
            || Todo(g, TagsIn(c.globals.value)) == {}
  {
    var tags := ReadTags(legacy, c).value;
    assert forall t :: t in log <==> t in Todo(g, tags) by { assert Elements(log) == Todo(g, tags); }
    BodiesLeave(bodies, log, c.(cptVer := None));
    RerunExactly(g, legacy, Upgraded(bodies, log, c), r.cpt, tags);
  }

  /** No body brings back an older tag list or a version number. */
  ghost predicate BringsNothingBack(bodies: Bodies)
  {
    forall t, c :: KeepsAway(bodies, t, c)
  }

  ghost predicate KeepsAway(bodies: Bodies, t: Tag, c: Checkpoint)
  {
    && (c.globals.None? ==> bodies(t, c).globals.None?)
    && (c.cptVer.None? ==> bodies(t, c).cptVer.None?)
  }

  lemma {:induction false} BodiesMove(bodies: Bodies, log: seq<Tag>, c: Checkpoint)
    requires BringsNothingBack(bodies) && c.cptVer.None?
    ensures RunBodies(bodies, log, c).cptVer.None?
    ensures c.globals.None? || (exists t :: t in log && MovesGlobals(bodies, t)) ==>
              RunBodies(bodies, log, c).globals.None?
    decreases |log|
  {
    if log != [] {
      var head, t := log[..|log| - 1], log[|log| - 1];
      BodiesMove(bodies, head, c);
      assert log == head + [t];
      assert KeepsAway(bodies, t, RunBodies(bodies, head, c));
    }
  }

  /**
   * Where some applied body moves the older list away, or there was none, a second run does nothing,
   * also if other bodies change that list. So every file that still lacks the tag of the upgrader that
   * moves it is migrated once and for all.
   */
  lemma {:induction false} RerunAfterMove(g: Graph, legacy: map<int, Tag>, bodies: Bodies, c: Checkpoint, d: Checkpoint,
                                          tags: set<Tag>, log: seq<Tag>)
    requires ValidGraph(g) && BringsNothingBack(bodies)
    requires c.globals.None? || exists t :: t in log && MovesGlobals(bodies, t)
    requires Stamped(Upgraded(bodies, log, c), d, Target(g, tags))
    ensures NothingToDo(g, legacy, d)
  {
    BodiesMove(bodies, log, c.(cptVer := None));
    RerunExactly(g, legacy, Upgraded(bodies, log, c), d, tags);
  }

  /** A file whose older list lacks a tag is upgraded again on every run, if no applied body moves that
      list: the second run finds the tag missing again. */
  lemma {:induction false} OldListIsReread(g: Graph, legacy: map<int, Tag>, bodies: Bodies, c: Checkpoint,
                                           r: FileOutcome, log: seq<Tag>, t: Tag)
    requires ValidGraph(g) && ReadTags(legacy, c).Some?
    requires var todo := Todo(g, ReadTags(legacy, c).value);
      && todo <= g.depends.Keys && MoveOrKeep(bodies, todo)
      && forall u :: u in todo ==> !MovesGlobals(bodies, u)
    requires Migrates(g, bodies, c, ReadTags(legacy, c).value, r, log) && r.Written?
    requires t in g.tagSet && c.globals.Some? && t !in TagsIn(c.globals.value)
    ensures !NothingToDo(g, legacy, r.cpt) && r.cpt.cptVer.None? && r.cpt.globals == c.globals
    ensures ReadTags(legacy, r.cpt) == Some(TagsIn(c.globals.value)) && t in Todo(g, TagsIn(c.globals.value))
  {
    assert t in Todo(g, TagsIn(c.globals.value));
    var tags := ReadTags(legacy, c).value;
    assert forall u :: u in log <==> u in Todo(g, tags) by { assert Elements(log) == Todo(g, tags); }
    BodiesLeave(bodies, log, c.(cptVer := None));
  }

  const MOVE := "globals-to-root"

  const NEW := "new"

  /** The body that renames the section moves the older list; all others keep it. */
  function MovingBodies(): Bodies
  {
    (t: Tag, c: Checkpoint) => if t == MOVE then c.(globals := None) else c
  }

  ghost function ExampleGraph(): Graph { Graph({MOVE, NEW}, {}, map[MOVE := [], NEW := []]) }

  /** One round applies the new tag. */
  lemma {:induction false} ExampleSucceeds()
    ensures var g := ExampleGraph();
      && ValidGraph(g) && Todo(g, {MOVE}) == {NEW} <= g.depends.Keys && Target(g, {MOVE}) == {MOVE, NEW}
      && Succeeds(g, {MOVE}, {NEW})
  {
    var g := ExampleGraph();
    assert MOVE[0] == 'g' && NEW[0] == 'n';
    assert Todo(g, {MOVE}) == {NEW};
    assert Ready(g, {MOVE}, {NEW}) == {NEW} && {NEW} - {NEW} == {};
  }

  /** Such a file: the upgrader that moves the older list is listed in it as applied, and another one is
      new. The run that adds it writes a file that the next run changes again. */
  lemma {:induction false} RerunExample(legacy: map<int, Tag>)
    ensures var g, c := ExampleGraph(), Checkpoint(None, Some(MOVE), Section(None), "");
      var d := c.(root := Section(Some(MOVE + " " + NEW)));
      && ValidGraph(g) && ReadTags(legacy, c) == Some({MOVE}) && Todo(g, {MOVE}) <= g.depends.Keys
      && Migrates(g, MovingBodies(), c, {MOVE}, Written(d), [NEW])
      && !NothingToDo(g, legacy, d)
  {
    var g, c := ExampleGraph(), Checkpoint(None, Some(MOVE), Section(None), "");
    var d := c.(root := Section(Some(MOVE + " " + NEW)));
    ExampleSucceeds();
    OneWord(MOVE);
    TwoWords(MOVE, NEW);
    assert MOVE != NEW && [NEW][..0] == [];
    assert Elements([NEW]) == {NEW} && RunBodies(MovingBodies(), [NEW], c) == c;
    RerunExactly(g, legacy, c, d, {MOVE});
  }

  lemma {:induction false} OneWord(w: Tag)
    requires IsWord(w)
    ensures TagsIn(w) == {w}
  {
    WordsJoined([w]);
    assert JoinOn([w], ' ') == w;
  }

  lemma {:induction false} TwoWords(v: Tag, w: Tag)
    requires IsWord(v) && IsWord(w)
    ensures TagsIn(v + " " + w) == {v, w}
  {
    WordsJoined([v, w]);
    assert [v, w][1..] == [w] && JoinOn([v, w], ' ') == v + " " + w;
  }
}
