/** The upgrader registry: loading scripts and resolving their dependencies. */
module Upgrader {
  import opened Common
  import opened UpgraderSchedule
  import opened UpgraderMigrate

  /** An upgrader script after it has been read; a missing list is empty. */
  datatype Script = Script(
    tag: Tag, depends: seq<Tag>, fwdDepends: seq<Tag>, upgrades: bool, legacyVersion: Option<int>)

  // ---------------------------------------------------------------------------------------------
  // What registration computes; scripts are known by their position in the order of reading
  // ---------------------------------------------------------------------------------------------

  /** The tags of the scripts that do (or do not) upgrade. */
  function TagsThat(upgrade: bool, scripts: seq<Script>): set<Tag>
  {
    if scripts == [] then {}
    else
      var s, rest := scripts[|scripts| - 1], TagsThat(upgrade, scripts[..|scripts| - 1]);
      if s.upgrades == upgrade then rest + {s.tag} else rest
  }

  /** The script that owns a tag: the last one that was read with it. */
  function OwnerOf(scripts: seq<Script>): map<Tag, nat>
  {
    if scripts == [] then map[]
    else OwnerOf(scripts[..|scripts| - 1])[scripts[|scripts| - 1].tag := |scripts| - 1]
  }

  /** The tags in the order in which they were first read. */
  function OrderOf(scripts: seq<Script>): seq<Tag>
  {
    if scripts == [] then []
    else
      var s, rest := scripts[|scripts| - 1], scripts[..|scripts| - 1];
      if s.tag in OwnerOf(rest) then OrderOf(rest) else OrderOf(rest) + [s.tag]
  }

  /** Legacy version numbers; a later script with the same number replaces an earlier one. */
  function LegacyOf(scripts: seq<Script>): map<int, nat>
  {
    if scripts == [] then map[]
    else
      var s, m := scripts[|scripts| - 1], LegacyOf(scripts[..|scripts| - 1]);
      if s.legacyVersion.Some? then m[s.legacyVersion.value := |scripts| - 1] else m
  }

  /** What one more script adds. */
  lemma {:induction false} ScriptsSnoc(before: seq<Script>, s: Script)
    ensures TagsThat(s.upgrades, before + [s]) == TagsThat(s.upgrades, before) + {s.tag}
    ensures TagsThat(!s.upgrades, before + [s]) == TagsThat(!s.upgrades, before)
    ensures OwnerOf(before + [s]) == OwnerOf(before)[s.tag := |before|]
    ensures OrderOf(before + [s]) == if s.tag in OwnerOf(before) then OrderOf(before) else OrderOf(before) + [s.tag]
    ensures LegacyOf(before + [s]) ==
            if s.legacyVersion.Some? then LegacyOf(before)[s.legacyVersion.value := |before|] else LegacyOf(before)
  {
    assert (before + [s])[..|before|] == before;
  }

  /** An owned tag belongs to the script at that position, and to no later one. */
  lemma {:induction false} OwnerIs(scripts: seq<Script>, t: Tag)
    ensures t in OwnerOf(scripts) ==> OwnerOf(scripts)[t] < |scripts| && scripts[OwnerOf(scripts)[t]].tag == t
    ensures forall k :: 0 <= k < |scripts| && scripts[k].tag == t ==> t in OwnerOf(scripts) && k <= OwnerOf(scripts)[t]
    decreases |scripts|
  {
    if scripts != [] {
      var n := |scripts| - 1;
      OwnerIs(scripts[..n], t);
      forall k | 0 <= k < |scripts| && scripts[k].tag == t ensures t in OwnerOf(scripts) && k <= OwnerOf(scripts)[t] {
        assert k < n ==> scripts[..n][k].tag == t;
      }
    }
  }

  lemma {:induction false} TagsThatAre(upgrade: bool, scripts: seq<Script>, t: Tag)
    ensures t in TagsThat(upgrade, scripts) <==>
            exists k :: 0 <= k < |scripts| && scripts[k].upgrades == upgrade && scripts[k].tag == t
    decreases |scripts|
  {
    if scripts != [] {
      var n := |scripts| - 1;
      TagsThatAre(upgrade, scripts[..n], t);
      if t in TagsThat(upgrade, scripts[..n]) {
        var k :| 0 <= k < n && scripts[..n][k].upgrades == upgrade && scripts[..n][k].tag == t;
        assert scripts[k].tag == t;
      }
      if exists k :: 0 <= k < |scripts| && scripts[k].upgrades == upgrade && scripts[k].tag == t {
        var k :| 0 <= k < |scripts| && scripts[k].upgrades == upgrade && scripts[k].tag == t;
        assert k < n ==> scripts[..n][k] == scripts[k];
      }
    }
  }

  /** A registered tag upgrades or downgrades. */
  lemma {:induction false} OwnedTags(scripts: seq<Script>, t: Tag)
    ensures t in OwnerOf(scripts) <==> t in TagsThat(true, scripts) + TagsThat(false, scripts)
  {
    OwnerIs(scripts, t);
    TagsThatAre(true, scripts, t);
    TagsThatAre(false, scripts, t);
    if t in OwnerOf(scripts) {
      assert scripts[OwnerOf(scripts)[t]].tag == t;
    }
  }

  lemma {:induction false} OrderIs(scripts: seq<Script>)
    ensures forall t :: t in OrderOf(scripts) <==> t in OwnerOf(scripts)
    ensures forall i, j :: 0 <= i < j < |OrderOf(scripts)| ==> OrderOf(scripts)[i] != OrderOf(scripts)[j]
    decreases |scripts|
  {
    if scripts != [] {
      OrderIs(scripts[..|scripts| - 1]);
    }
  }

  /** The script registered for a version carries that version. */
  lemma {:induction false} LegacyIs(scripts: seq<Script>, v: int)
    ensures v in LegacyOf(scripts) ==>
            LegacyOf(scripts)[v] < |scripts| && scripts[LegacyOf(scripts)[v]].legacyVersion == Some(v)
    decreases |scripts|
  {
    if scripts != [] {
      LegacyIs(scripts[..|scripts| - 1], v);
    }
  }

  /** The script of version `v` upgrades, and it is the last one that was read with its tag. */
  ghost predicate OwnsItsTag(scripts: seq<Script>, v: int)
  {
    && v in LegacyOf(scripts) && LegacyOf(scripts)[v] < |scripts|
    && var k := LegacyOf(scripts)[v];
    scripts[k].upgrades && forall j :: k < j < |scripts| ==> scripts[j].tag != scripts[k].tag
  }

  // ---------------------------------------------------------------------------------------------
  // What chaining and resolving compute
  // ---------------------------------------------------------------------------------------------

  /** Versions 3 to `i` are all present, so version `i` is chained to its predecessor. */
  predicate Chained(legacy: map<int, nat>, i: int)
  {
    3 <= i && forall j :: 3 <= j <= i ==> j in legacy
  }

  /** Versions 3 to `i` - 1 are present, and version 2 if there are any. */
  ghost predicate ChainedBelow(legacy: map<int, nat>, i: int)
  {
    3 <= i && (i > 3 ==> 2 in legacy) && forall j :: 3 <= j < i ==> j in legacy
  }

  /** The version under which script `k` is registered, if it is. */
  predicate HasVersion(scripts: seq<Script>, k: nat, v: int)
    requires k < |scripts|
  {
    v in LegacyOf(scripts) && LegacyOf(scripts)[v] == k && scripts[k].legacyVersion == Some(v)
  }

  function PreviousTag(scripts: seq<Script>, v: int): seq<Tag>
  {
    var legacy := LegacyOf(scripts);
    if v - 1 in legacy && legacy[v - 1] < |scripts| then [scripts[legacy[v - 1]].tag] else []
  }

  /** Declared dependencies, replaced by the previous version for chained legacy upgraders. */
  ghost function Base(scripts: seq<Script>, k: nat): seq<Tag>
    requires k < |scripts|
  {
    match scripts[k].legacyVersion
    case Some(v) =>
      if HasVersion(scripts, k, v) && Chained(LegacyOf(scripts), v) then PreviousTag(scripts, v) else scripts[k].depends
    case None => scripts[k].depends
  }

  /** The same, with the versions below `n` chained. */
  ghost function BaseBelow(scripts: seq<Script>, n: int, k: nat): seq<Tag>
    requires k < |scripts|
  {
    match scripts[k].legacyVersion
    case Some(v) => if HasVersion(scripts, k, v) && 3 <= v < n then PreviousTag(scripts, v) else scripts[k].depends
    case None => scripts[k].depends
  }

  /** One entry `tag` for every time `t` is named in `fwd`. */
  function Occurrences(fwd: seq<Tag>, t: Tag, tag: Tag): seq<Tag>
  {
    if fwd == [] then []
    else if fwd[|fwd| - 1] == t then Occurrences(fwd[..|fwd| - 1], t, tag) + [tag]
    else Occurrences(fwd[..|fwd| - 1], t, tag)
  }

  function ForwardsOf(scripts: seq<Script>, tag: Tag): seq<Tag>
  {
    var owner := OwnerOf(scripts);
    if tag in owner && owner[tag] < |scripts| then scripts[owner[tag]].fwdDepends else []
  }

  /** The tags among `order` whose owners ask, by a forward dependency, that `t` depend on them. */
  function Forward(scripts: seq<Script>, order: seq<Tag>, t: Tag): seq<Tag>
  {
    if order == [] then []
    else
      var tag := order[|order| - 1];
      Forward(scripts, order[..|order| - 1], t) + Occurrences(ForwardsOf(scripts, tag), t, tag)
  }

  lemma {:induction false} OccurrencesAre(fwd: seq<Tag>, t: Tag, tag: Tag)
    ensures (tag in Occurrences(fwd, t, tag) <==> t in fwd) && forall x :: x in Occurrences(fwd, t, tag) ==> x == tag
    decreases |fwd|
  {
    if fwd != [] {
      OccurrencesAre(fwd[..|fwd| - 1], t, tag);
    }
  }

  /** The forward dependencies of `t` are exactly the tags whose owners name it. */
  lemma {:induction false} ForwardIs(scripts: seq<Script>, order: seq<Tag>, t: Tag, x: Tag)
    ensures x in Forward(scripts, order, t) <==> x in order && t in ForwardsOf(scripts, x)
    decreases |order|
  {
    if order != [] {
      var rest, tag := order[..|order| - 1], order[|order| - 1];
      ForwardIs(scripts, rest, t, x);
      OccurrencesAre(ForwardsOf(scripts, tag), t, tag);
      assert order == rest + [tag];
    }
  }

  /** The dependencies of the script that owns `t`, before forward ones are added, name scripts. */
  ghost predicate Sound(scripts: seq<Script>, t: Tag)
  {
    var owner := OwnerOf(scripts);
    && t in owner && owner[t] < |scripts|
    && (forall f :: f in ForwardsOf(scripts, t) ==> f in owner)
    && (forall d :: d in Base(scripts, owner[t]) ==> d in owner)
  }

  /** Loading succeeds when every dependency, declared, chained or forward, names a script. */
  ghost predicate Resolvable(scripts: seq<Script>)
  {
    (3 in LegacyOf(scripts) ==> 2 in LegacyOf(scripts)) && SoundUpTo(scripts, |OrderOf(scripts)|)
  }

  /** The first `n` tags are sound. */
  ghost predicate SoundUpTo(scripts: seq<Script>, n: nat)
    requires n <= |OrderOf(scripts)|
  {
    forall i :: 0 <= i < n ==> Sound(scripts, OrderOf(scripts)[i])
  }

  lemma {:induction false} NextSound(scripts: seq<Script>, n: nat)
    requires n < |OrderOf(scripts)|
    ensures SoundUpTo(scripts, n + 1) <==> SoundUpTo(scripts, n) && Sound(scripts, OrderOf(scripts)[n])
    ensures SoundUpTo(scripts, |OrderOf(scripts)|) ==> Sound(scripts, OrderOf(scripts)[n])
  {
  }

  // ---------------------------------------------------------------------------------------------
  // Dependencies by position
  // ---------------------------------------------------------------------------------------------

  /** The scripts with other dependencies. */
  function WithDepends(scripts: seq<Script>, ds: seq<seq<Tag>>): (r: seq<Script>)
    requires |ds| == |scripts|
    ensures |r| == |scripts| && forall k :: 0 <= k < |r| ==> r[k] == scripts[k].(depends := ds[k])
  {
    seq(|scripts|, k requires 0 <= k < |scripts| => scripts[k].(depends := ds[k]))
  }

  lemma {:induction false} WithDependsSet(scripts: seq<Script>, ds: seq<seq<Tag>>, k: nat, d: seq<Tag>)
    requires |ds| == |scripts| && k < |scripts|
    ensures WithDepends(scripts, ds)[k := scripts[k].(depends := d)] == WithDepends(scripts, ds[k := d])
  {
  }

  lemma {:induction false} WithDependsSnoc(before: seq<Script>, ds: seq<seq<Tag>>, s: Script)
    requires |ds| == |before|
    ensures WithDepends(before + [s], ds + [s.depends]) == WithDepends(before, ds) + [s]
  {
  }

  ghost function Declared(scripts: seq<Script>): (r: seq<seq<Tag>>)
    ensures |r| == |scripts| && forall k :: 0 <= k < |r| ==> r[k] == scripts[k].depends
  {
    seq(|scripts|, k requires 0 <= k < |scripts| => scripts[k].depends)
  }

  ghost function Bases(scripts: seq<Script>): (r: seq<seq<Tag>>)
    ensures |r| == |scripts| && forall k :: 0 <= k < |r| ==> r[k] == Base(scripts, k)
  {
    seq(|scripts|, k requires 0 <= k < |scripts| => Base(scripts, k))
  }

  ghost function BasesBelow(scripts: seq<Script>, n: int): (r: seq<seq<Tag>>)
    ensures |r| == |scripts| && forall k :: 0 <= k < |r| ==> r[k] == BaseBelow(scripts, n, k)
  {
    seq(|scripts|, k requires 0 <= k < |scripts| => BaseBelow(scripts, n, k))
  }

  lemma {:induction false} BasesStart(scripts: seq<Script>)
    ensures BasesBelow(scripts, 3) == Declared(scripts) && WithDepends(scripts, Declared(scripts)) == scripts
  {
  }

  lemma {:induction false} BasesStep(scripts: seq<Script>, n: int)
    requires 3 <= n && n in LegacyOf(scripts) && n - 1 in LegacyOf(scripts)
    ensures LegacyOf(scripts)[n] < |scripts| && LegacyOf(scripts)[n - 1] < |scripts|
    ensures BasesBelow(scripts, n + 1) ==
            BasesBelow(scripts, n)[LegacyOf(scripts)[n] := [scripts[LegacyOf(scripts)[n - 1]].tag]]
  {
    LegacyIs(scripts, n);
    LegacyIs(scripts, n - 1);
    var a, b := BasesBelow(scripts, n + 1), BasesBelow(scripts, n);
    forall k | 0 <= k < |scripts| && k != LegacyOf(scripts)[n] ensures a[k] == b[k] {
      assert BaseBelow(scripts, n + 1, k) == BaseBelow(scripts, n, k);
    }
  }

  lemma {:induction false} BasesEnd(scripts: seq<Script>, n: int)
    requires n !in LegacyOf(scripts) && ChainedBelow(LegacyOf(scripts), n)
    ensures BasesBelow(scripts, n) == Bases(scripts)
  {
    forall i ensures Chained(LegacyOf(scripts), i) <==> 3 <= i < n { }
  }

  /** Append `tag` to the dependencies of the owner of every tag in `fwd`. */
  ghost function AddTo(owner: map<Tag, nat>, ds: seq<seq<Tag>>, fwd: seq<Tag>, tag: Tag): (r: seq<seq<Tag>>)
    ensures |r| == |ds|
  {
    if fwd == [] then ds
    else
      var f, m := fwd[|fwd| - 1], AddTo(owner, ds, fwd[..|fwd| - 1], tag);
      if f in owner && owner[f] < |m| then m[owner[f] := m[owner[f]] + [tag]] else m
  }

  ghost function AddAll(scripts: seq<Script>, ds: seq<seq<Tag>>, order: seq<Tag>): (r: seq<seq<Tag>>)
    ensures |r| == |ds|
  {
    if order == [] then ds
    else
      var tag := order[|order| - 1];
      AddTo(OwnerOf(scripts), AddAll(scripts, ds, order[..|order| - 1]), ForwardsOf(scripts, tag), tag)
  }

  lemma {:induction false} AddToIs(scripts: seq<Script>, ds: seq<seq<Tag>>, fwd: seq<Tag>, tag: Tag, t: Tag)
    requires |ds| == |scripts| && t in OwnerOf(scripts)
    ensures OwnerOf(scripts)[t] < |scripts|
    ensures AddTo(OwnerOf(scripts), ds, fwd, tag)[OwnerOf(scripts)[t]] ==
            ds[OwnerOf(scripts)[t]] + Occurrences(fwd, t, tag)
    decreases |fwd|
  {
    var owner := OwnerOf(scripts);
    OwnerIs(scripts, t);
    if fwd != [] {
      var f := fwd[|fwd| - 1];
      AddToIs(scripts, ds, fwd[..|fwd| - 1], tag, t);
      OwnerIs(scripts, f);
    } else {
      assert ds[owner[t]] + [] == ds[owner[t]];
    }
  }

  /** Resolving adds the forward dependencies behind the others. */
  lemma {:induction false} AddAllIs(scripts: seq<Script>, ds: seq<seq<Tag>>, order: seq<Tag>, t: Tag)
    requires |ds| == |scripts| && t in OwnerOf(scripts)
    ensures OwnerOf(scripts)[t] < |scripts|
    ensures AddAll(scripts, ds, order)[OwnerOf(scripts)[t]] == ds[OwnerOf(scripts)[t]] + Forward(scripts, order, t)
    decreases |order|
  {
    var k := OwnerOf(scripts)[t];
    OwnerIs(scripts, t);
    if order != [] {
      var rest, tag := order[..|order| - 1], order[|order| - 1];
      AddAllIs(scripts, ds, rest, t);
      AddToIs(scripts, AddAll(scripts, ds, rest), ForwardsOf(scripts, tag), tag, t);
      Regroup(ds[k], Forward(scripts, rest, t), Occurrences(ForwardsOf(scripts, tag), t, tag));
    } else {
      assert ds[k] + [] == ds[k];
    }
  }

  // ---------------------------------------------------------------------------------------------
  // The registry
  // ---------------------------------------------------------------------------------------------

  lemma {:induction false} OrderOwned(scripts: seq<Script>, j: nat)
    requires j < |OrderOf(scripts)|
    ensures var t := OrderOf(scripts)[j]; t in OwnerOf(scripts) && OwnerOf(scripts)[t] < |scripts|
  {
    OrderIs(scripts);
    assert OrderOf(scripts)[j] in OrderOf(scripts);
    OwnerIs(scripts, OrderOf(scripts)[j]);
  }

  lemma {:induction false} AddAllSnoc(scripts: seq<Script>, order: seq<Tag>, j: nat)
    requires j < |order|
    ensures AddAll(scripts, Bases(scripts), order[..j + 1]) ==
            AddTo(OwnerOf(scripts), AddAll(scripts, Bases(scripts), order[..j]),
                  ForwardsOf(scripts, order[j]), order[j])
  {
    assert order[..j + 1][..j] == order[..j];
  }

  /** Whether the dependencies of a tag, with forward ones already added, all name scripts. */
  lemma {:induction false} AuditIsSound(scripts: seq<Script>, order: seq<Tag>, j: nat)
    requires order == OrderOf(scripts) && j < |order|
    requires forall f :: f in ForwardsOf(scripts, order[j]) ==> f in OwnerOf(scripts)
    ensures order[j] in OwnerOf(scripts) && OwnerOf(scripts)[order[j]] < |scripts|
    ensures var ds := AddAll(scripts, Bases(scripts), order[..j + 1])[OwnerOf(scripts)[order[j]]];
      (forall d :: d in ds ==> d in OwnerOf(scripts)) <==> Sound(scripts, order[j])
  {
    var t, owner := order[j], OwnerOf(scripts);
    OrderIs(scripts);
    assert t in order;
    OwnerIs(scripts, t);
    AddAllIs(scripts, Bases(scripts), order[..j + 1], t);
    var base, fwd := Base(scripts, owner[t]), Forward(scripts, order[..j + 1], t);
    forall x | x in fwd ensures x in owner {
      ForwardIs(scripts, order[..j + 1], t, x);
      assert x in order;
    }
    assert forall d :: d in base + fwd <==> d in base || d in fwd;
  }

  class Registry {
    var tagSet: set<Tag>
    var untagSet: set<Tag>
    var objects: seq<Script>
    var order: seq<Tag>
    var byTag: map<Tag, nat>
    var legacy: map<int, nat>

    /** These scripts have been read, in this order, and their dependencies are now `ds`. */
    ghost predicate Holds(scripts: seq<Script>, ds: seq<seq<Tag>>)
      reads this
    {
      && |ds| == |scripts| && objects == WithDepends(scripts, ds)
      && tagSet == TagsThat(true, scripts) && untagSet == TagsThat(false, scripts)
      && order == OrderOf(scripts) && byTag == OwnerOf(scripts) && legacy == LegacyOf(scripts)
    }

    constructor ()
      ensures Holds([], [])
    {
      tagSet, untagSet, objects, order, byTag, legacy := {}, {}, [], [], map[], map[];
    }

    /** Read one more script. A script with a tag that is already taken becomes the owner of the tag. */
    method Register(s: Script, ghost before: seq<Script>, ghost ds: seq<seq<Tag>>)
      requires Holds(before, ds)
      modifies this
      ensures Holds(before + [s], ds + [s.depends])
    {
      ScriptsSnoc(before, s);
      WithDependsSnoc(before, ds, s);
      var k := |objects|;
      objects := objects + [s];
      if s.upgrades {
        tagSet := tagSet + {s.tag};
      } else {
        untagSet := untagSet + {s.tag};
      }
      if s.legacyVersion.Some? {
        legacy := legacy[s.legacyVersion.value := k];
      }
      if s.tag !in byTag {
        order := order + [s.tag];
      }
      byTag := byTag[s.tag := k];
    }

    method RegisterAll(scripts: seq<Script>)
      requires Holds([], [])
      modifies this
      ensures Holds(scripts, Declared(scripts))
    {
      for i := 0 to |scripts|
        invariant Holds(scripts[..i], Declared(scripts[..i]))
      {
        assert scripts[..i + 1] == scripts[..i] + [scripts[i]];
        Register(scripts[i], scripts[..i], Declared(scripts[..i]));
        assert Declared(scripts[..i + 1]) == Declared(scripts[..i]) + [scripts[i].depends];
      }
      assert scripts[..|scripts|] == scripts;
    }

    /** Give script `k` the dependencies `d`. */
    method SetDepends(k: nat, d: seq<Tag>, ghost scripts: seq<Script>, ghost ds: seq<seq<Tag>>)
      requires Holds(scripts, ds) && k < |scripts|
      modifies `objects
      ensures Holds(scripts, ds[k := d])
    {
      WithDependsSet(scripts, ds, k, d);
      objects := objects[k := objects[k].(depends := d)];
    }

    /** Make linear dependencies for the legacy versions. */
    method ChainLegacy(ghost scripts: seq<Script>) returns (ok: bool)
      requires Holds(scripts, Declared(scripts))
      modifies `objects
      ensures ok <==> (3 in legacy ==> 2 in legacy)
      ensures ok ==> Holds(scripts, Bases(scripts))
    {
      BasesStart(scripts);
      ghost var ahead := legacy.Keys;
      var i := 3;
      while i in legacy
        invariant ChainedBelow(legacy, i) && Holds(scripts, BasesBelow(scripts, i))
        invariant forall v :: v in legacy && v >= i ==> v in ahead
        decreases ahead
      {
        if i - 1 !in legacy {
          return false;
        }
        BasesStep(scripts, i);
        SetDepends(legacy[i], [objects[legacy[i - 1]].tag], scripts, BasesBelow(scripts, i));
        ahead := ahead - {i};
        i := i + 1;
      }
      BasesEnd(scripts, i);
      return true;
    }

    /** Resolve the forward dependencies of the owner of a tag: append the tag to each script it names. */
    method AddForward(tag: Tag, ghost scripts: seq<Script>, ghost ds0: seq<seq<Tag>>) returns (ok: bool)
      requires Holds(scripts, ds0) && tag in byTag && byTag[tag] < |scripts|
      modifies `objects
      ensures ok <==> forall f :: f in ForwardsOf(scripts, tag) ==> f in byTag
      ensures ok ==> Holds(scripts, AddTo(byTag, ds0, ForwardsOf(scripts, tag), tag))
    {
      ghost var ds := ds0;
      var fwd := objects[byTag[tag]].fwdDepends;
      for j := 0 to |fwd|
        invariant Holds(scripts, ds) && ds == AddTo(byTag, ds0, fwd[..j], tag)
        invariant forall m :: 0 <= m < j ==> fwd[m] in byTag
      {
        if fwd[j] !in byTag {
          return false;
        }
        OwnerIs(scripts, fwd[j]);
        assert fwd[..j + 1][..j] == fwd[..j];
        var k := byTag[fwd[j]];
        SetDepends(k, objects[k].depends + [tag], scripts, ds);
        ds := ds[k := ds[k] + [tag]];
      }
      assert fwd[..|fwd|] == fwd;
      return true;
    }

    /** Audit the dependencies of the owner of a tag. */
    method Audit(tag: Tag) returns (ok: bool)
      requires tag in byTag && byTag[tag] < |objects|
      ensures ok <==> forall d :: d in objects[byTag[tag]].depends ==> d in byTag
    {
      var ds := objects[byTag[tag]].depends;
      for j := 0 to |ds|
        invariant forall m :: 0 <= m < j ==> ds[m] in byTag
      {
        if ds[j] !in byTag {
          return false;
        }
      }
      return true;
    }

    /** The tag at position `j`: resolve its forward dependencies, then audit its dependencies. */
    method ResolveOne(j: nat, ghost scripts: seq<Script>) returns (ok: bool)
      requires j < |order| && Holds(scripts, AddAll(scripts, Bases(scripts), order[..j]))
      modifies `objects
      ensures ok <==> Sound(scripts, order[j])
      ensures ok ==> Holds(scripts, AddAll(scripts, Bases(scripts), order[..j + 1]))
    {
      OrderOwned(scripts, j);
      ok := AddForward(order[j], scripts, AddAll(scripts, Bases(scripts), order[..j]));
      if ok {
        AddAllSnoc(scripts, order, j);
        AuditIsSound(scripts, order, j);
        ok := Audit(order[j]);
      }
    }

    /** Resolve forward dependencies and audit all dependencies, tag by tag. */
    method ResolveAll(ghost scripts: seq<Script>) returns (ok: bool)
      requires Holds(scripts, Bases(scripts))
      modifies `objects
      ensures ok <==> SoundUpTo(scripts, |OrderOf(scripts)|)
      ensures ok ==> Holds(scripts, AddAll(scripts, Bases(scripts), OrderOf(scripts)))
    {
      for j := 0 to |order|
        invariant Holds(scripts, AddAll(scripts, Bases(scripts), order[..j]))
        invariant SoundUpTo(scripts, j)
      {
        NextSound(scripts, j);
        ok := ResolveOne(j, scripts);
        if !ok {
          return;
        }
      }
      assert order[..|order|] == order;
      return true;
    }

    ghost function Dependencies(): Graph
      reads this
    {
      Graph(tagSet, untagSet, map t | t in byTag && byTag[t] < |objects| :: objects[byTag[t]].depends)
    }

    /** The owner of every tag depends on its declared or chained dependencies, then on the forward ones. */
    ghost predicate Linked(scripts: seq<Script>)
      reads this
    {
      |objects| == |scripts| &&
      forall t :: t in byTag ==>
        byTag[t] < |scripts| && objects[byTag[t]].tag == t &&
        objects[byTag[t]].depends == Base(scripts, byTag[t]) + Forward(scripts, OrderOf(scripts), t)
    }

    lemma {:induction false} LoadedIs(scripts: seq<Script>)
      requires Holds(scripts, AddAll(scripts, Bases(scripts), OrderOf(scripts))) && Resolvable(scripts)
      ensures Linked(scripts)
      ensures ValidGraph(Dependencies()) <==> tagSet !! untagSet
    {
      OrderIs(scripts);
      forall t | t in byTag
        ensures byTag[t] < |scripts| && objects[byTag[t]].tag == t
        ensures objects[byTag[t]].depends == Base(scripts, byTag[t]) + Forward(scripts, OrderOf(scripts), t)
        ensures t in tagSet + untagSet && forall d :: d in objects[byTag[t]].depends ==> d in byTag
      {
        OwnerIs(scripts, t);
        OwnedTags(scripts, t);
        AddAllIs(scripts, Bases(scripts), OrderOf(scripts), t);
        var i :| 0 <= i < |OrderOf(scripts)| && OrderOf(scripts)[i] == t;
        NextSound(scripts, i);
        forall d | d in Forward(scripts, OrderOf(scripts), t) ensures d in byTag {
          ForwardIs(scripts, OrderOf(scripts), t, d);
        }
      }
      forall t | t in tagSet + untagSet ensures t in byTag { OwnedTags(scripts, t); }
    }

    /** Read all scripts, chain the legacy versions, and resolve and audit the dependencies. */
    method LoadAll(scripts: seq<Script>) returns (ok: bool)
      requires Holds([], [])
      modifies this
      ensures ok <==> Resolvable(scripts)
      ensures ok ==> Holds(scripts, AddAll(scripts, Bases(scripts), OrderOf(scripts))) && Linked(scripts)
      ensures ok ==> (ValidGraph(Dependencies()) <==> tagSet !! untagSet)
    {
      RegisterAll(scripts);
      ok := ChainLegacy(scripts);
      if ok {
        ok := ResolveAll(scripts);
        if ok {
          LoadedIs(scripts);
        }
      }
    }

    /** The tags of the legacy versions. */
    ghost function LegacyTags(): map<int, Tag>
      reads this
    {
      map v | v in legacy && legacy[v] < |objects| :: objects[legacy[v]].tag
    }

    /** The script of version `v` owns its tag and upgrades. */
    ghost predicate Owns(v: int)
      reads this
    {
      && v in legacy && legacy[v] < |objects|
      && var s := objects[legacy[v]];
      s.upgrades && s.legacyVersion == Some(v) && s.tag in byTag && byTag[s.tag] == legacy[v] && s.tag in tagSet
    }

    lemma {:induction false} OwnsIs(scripts: seq<Script>, ds: seq<seq<Tag>>, v: int)
      requires Holds(scripts, ds)
      ensures Owns(v) <==> OwnsItsTag(scripts, v)
    {
      LegacyIs(scripts, v);
      if v in legacy {
        OwnerIs(scripts, scripts[legacy[v]].tag);
        TagsThatAre(true, scripts, scripts[legacy[v]].tag);
      }
    }

    lemma {:induction false} LegacyLink(scripts: seq<Script>, ds: seq<seq<Tag>>, v: int)
      requires Holds(scripts, ds) && Linked(scripts) && Owns(v)
      requires v >= 3 ==> Owns(v - 1) && Chained(legacy, v)
      ensures v in LegacyTags() && LegacyTags()[v] in tagSet && LegacyTags()[v] in Dependencies().depends
      ensures v >= 3 ==> v - 1 in LegacyTags() && LegacyTags()[v - 1] in Dependencies().depends[LegacyTags()[v]]
    {
      if v >= 3 {
        assert HasVersion(scripts, legacy[v], v);
        assert Base(scripts, legacy[v]) == [scripts[legacy[v - 1]].tag];
      }
    }

    /** Loaded legacy upgraders form a chain, as far as the versions are consecutive and own their tags. */
    lemma {:induction false} LegacyIsChain(scripts: seq<Script>, ds: seq<seq<Tag>>, top: int)
      requires Holds(scripts, ds) && Linked(scripts) && 2 <= top
      requires forall v :: 2 <= v <= top ==> OwnsItsTag(scripts, v)
      ensures LegacyChain(Dependencies(), LegacyTags(), top)
    {
      forall v | 2 <= v <= top ensures Owns(v) { OwnsIs(scripts, ds, v); }
      var g, tags := Dependencies(), LegacyTags();
      forall v | 2 <= v <= top
        ensures v in tags && tags[v] in g.tagSet && tags[v] in g.depends
        ensures v >= 3 ==> v - 1 in tags && tags[v - 1] in g.depends[tags[v]]
      {
        forall j | 3 <= j <= v ensures j in legacy { assert Owns(j); }
        assert v >= 3 ==> Owns(v - 1);
        LegacyLink(scripts, ds, v);
      }
      forall v, w | 2 <= v < w <= top ensures tags[v] != tags[w] { assert Owns(v) && Owns(w); }
    }
  }

  /** Where no tag is used twice, no tag both upgrades and downgrades, and every version owns its tag. */
  lemma {:induction false} DistinctTags(scripts: seq<Script>)
    requires forall i, j :: 0 <= i < j < |scripts| ==> scripts[i].tag != scripts[j].tag
    ensures TagsThat(true, scripts) !! TagsThat(false, scripts)
    ensures forall k :: 0 <= k < |scripts| ==>
              scripts[k].tag in OwnerOf(scripts) && OwnerOf(scripts)[scripts[k].tag] == k
  {
    forall t | t in TagsThat(true, scripts) ensures t !in TagsThat(false, scripts) {
      TagsThatAre(true, scripts, t);
      TagsThatAre(false, scripts, t);
    }
    forall k | 0 <= k < |scripts|
      ensures scripts[k].tag in OwnerOf(scripts) && OwnerOf(scripts)[scripts[k].tag] == k
    {
      OwnerIs(scripts, scripts[k].tag);
    }
  }
}
