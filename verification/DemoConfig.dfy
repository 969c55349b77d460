/**
 The merge in place, on dicts that are objects, and the helper that runs it over every config file
 (examples/alerts_and_drift/_shared.py).
 */
module DemoConfig {
  import opened Prelude
  import opened TextScan
  import opened DeepMerge

  // ---------------------------------------------------------------------
  // Dicts as objects
  // ---------------------------------------------------------------------

  datatype Entry = Plain(value: Value) | Sub(dict: PyDict)

  class PyDict {
    var items: map<string, Entry>
    /** This dict and all dicts under it. */
    ghost var repr: set<PyDict>

    constructor ()
      ensures Valid() && items == map[] && fresh(repr)
    {
      items := map[];
      repr := {this};
    }

    /** The dict at `k`, if there is one. */
    ghost predicate HasSub(k: string)
      reads this
    {
      k in items && items[k].Sub?
    }

    /** A tree of dicts: no dict is reached in two ways. */
    ghost predicate Valid()
      reads this, repr
      decreases repr
    {
      && this in repr
      && (forall k :: HasSub(k) ==>
           && items[k].dict in repr && items[k].dict.repr < repr && this !in items[k].dict.repr
           && items[k].dict.Valid())
      && (forall j, k :: HasSub(j) && HasSub(k) && j != k ==> items[j].dict.repr !! items[k].dict.repr)
    }

    /** The tree the dict holds. */
    ghost function View(): Tree
      requires Valid()
      reads this, repr
      decreases repr
    {
      Node(map k | k in items :: if HasSub(k) then items[k].dict.View() else Leaf(items[k].value))
    }

    /** What lies under `k`. */
    ghost function TreeAt(k: string): Tree
      requires Valid() && k in items
      reads this, repr
      decreases repr, 0
    {
      if HasSub(k) then items[k].dict.View() else Leaf(items[k].value)
    }

    ghost function ReprAt(k: string): set<PyDict>
      requires Valid()
      reads this, repr
    {
      if HasSub(k) then items[k].dict.repr else {}
    }

    ghost function Trees(): map<string, Tree>
      requires Valid()
      reads this, repr
    {
      map k | k in items :: TreeAt(k)
    }

    ghost function Reprs(): map<string, set<PyDict>>
      requires Valid()
      reads this, repr
    {
      map k | k in items :: ReprAt(k)
    }

    twostate lemma {:induction false} OnlyAt(k: string)
      requires old(Valid()) && Valid() && items.Keys == old(items.Keys) + {k}
      requires forall j :: j in old(items) && j != k ==> ReprAt(j) == old(ReprAt(j)) && TreeAt(j) == old(TreeAt(j))
      ensures Trees() == old(Trees())[k := TreeAt(k)]
      ensures Reprs() == old(Reprs())[k := ReprAt(k)]
    {
      hide Valid, TreeAt, ReprAt;
    }

    /** `target[k] = v`: a dict under `v` is now under both. */
    method Adopt(k: string, source: PyDict)
      requires Valid() && source.Valid() && k in source.items && k !in items
      requires this !in source.repr && forall j :: j in items ==> ReprAt(j) !! source.ReprAt(k)
      modifies `items, `repr
      ensures Valid() && items.Keys == old(items.Keys) + {k} && repr == old(repr) + source.ReprAt(k)
      ensures ReprAt(k) == source.ReprAt(k) && TreeAt(k) == source.TreeAt(k)
      ensures forall j :: j in old(items) && j != k ==> ReprAt(j) == old(ReprAt(j)) && TreeAt(j) == old(TreeAt(j))
    {
      items := items[k := source.items[k]];
      repr := repr + source.ReprAt(k);
    }

    /** The recursive call. */
    method MergeUnder(k: string, d: PyDict)
      requires Valid() && d.Valid() && HasSub(k)
      requires this !in d.repr && forall j :: j in items ==> ReprAt(j) !! d.repr
      modifies `repr, ReprAt(k)
      ensures Valid() && items == old(items) && repr == old(repr) + ReprAt(k)
      ensures ReprAt(k) <= old(ReprAt(k)) + d.repr
      ensures TreeAt(k) == Merge(old(TreeAt(k)), old(d.View()))
      ensures forall j :: j in items && j != k ==> ReprAt(j) == old(ReprAt(j)) && TreeAt(j) == old(TreeAt(j))
      decreases d.repr, 3
    {
      items[k].dict.MergeMissing(d);
      repr := repr + items[k].dict.repr;
    }

    /** One turn of the loop. */
    method MergeKey(k: string, source: PyDict)
      requires Valid() && source.Valid() && k in source.items && this !in source.repr
      requires forall j :: j in items ==> ReprAt(j) !! source.ReprAt(k)
      requires k in items ==> ReprAt(k) !! source.repr
      modifies `items, `repr, if k in items then ReprAt(k) else {}
      ensures Valid() && old(repr) <= repr <= old(repr) + old(source.ReprAt(k))
      ensures k in items && Trees() == old(Trees())[k := TreeAt(k)] && Reprs() == old(Reprs())[k := ReprAt(k)]
      ensures TreeAt(k) ==
              if k in old(items) then Merge(old(TreeAt(k)), old(source.TreeAt(k))) else old(source.TreeAt(k))
      ensures ReprAt(k) <= (if k in old(items) then old(ReprAt(k)) else {}) + old(source.ReprAt(k))
      decreases source.repr, 1
    {
      hide Valid, View, TreeAt, ReprAt, Trees, Reprs;
      source.Child(k);
      if k !in items {
        Adopt(k, source);
      } else {
        Child(k);
        if items[k].Sub? && source.items[k].Sub? {
          MergeUnder(k, source.items[k].dict);
          Child(k);
        }
      }
      OnlyAt(k);
    }

    /** `_deep_merge_missing(this, source)`. */
    method MergeMissing(source: PyDict)
      requires Valid() && source.Valid() && repr !! source.repr
      modifies repr
      ensures Valid() && repr <= old(repr) + source.repr
      ensures View() == Merge(old(View()), old(source.View()))
      ensures source.Valid() && source.repr == old(source.repr) && source.View() == old(source.View())
      decreases source.repr, 2
    {
      hide Valid, View, TreeAt, ReprAt, Merge, Partial, Within, Apart, Trees, Reprs;
      ghost var mine, theirs := Trees(), source.Trees();
      ghost var had, given := Reprs(), source.Reprs();
      ghost var start, adds := repr, source.repr;
      var todo := source.items.Keys;
      Ready(source);
      PartialEnds(mine, theirs);
      while todo != {}
        invariant todo <= source.items.Keys && Valid() && start <= repr <= start + adds
        invariant source.repr == adds && source.Valid() && source.items.Keys == theirs.Keys
        invariant source.Trees() == theirs && source.Reprs() == given
        invariant Within(Reprs(), had, given, todo)
        invariant Trees() == Partial(mine, theirs, todo)
        decreases todo
      {
        var k :| k in todo;
        source.Entry(k);
        Entries();
        StillOld(Reprs(), had, given, todo, start, k);
        ApartFrom(Reprs(), had, given, todo, k);
        PartialStep(mine, theirs, todo, k);
        ghost var before := Reprs();
        MergeKey(k, source);
        WithinStep(before, had, given, todo, k, ReprAt(k));
        todo := todo - {k};
      }
      ViewIsTrees();
    }

    lemma {:induction false} ViewIsTrees()
      requires Valid()
      ensures View() == Node(Trees())
    {}

    /** The dict at `k`. */
    lemma {:induction false} Child(k: string)
      requires Valid() && k in items
      ensures HasSub(k) ==>
                items[k].dict.Valid() && items[k].dict.repr == ReprAt(k) && items[k].dict.View() == TreeAt(k)
      ensures ReprAt(k) < repr && this !in ReprAt(k)
      ensures !HasSub(k) ==> TreeAt(k).Leaf? && ReprAt(k) == {}
    {}

    lemma {:induction false} Entry(k: string)
      requires Valid() && k in items
      ensures k in Trees() && Trees()[k] == TreeAt(k) && k in Reprs() && Reprs()[k] == ReprAt(k) && ReprAt(k) <= repr
    {}

    lemma {:induction false} Entries()
      requires Valid()
      ensures Reprs().Keys == Trees().Keys == items.Keys && this in repr
      ensures forall k :: k in items ==> Reprs()[k] == ReprAt(k)
      ensures forall k :: k in items ==> Trees()[k] == TreeAt(k)
    {}

    lemma {:induction false} Ready(source: PyDict)
      requires Valid() && source.Valid() && repr !! source.repr
      ensures Apart(Reprs(), source.Reprs()) && this in repr && source in source.repr
      ensures Within(Reprs(), Reprs(), source.Reprs(), source.items.Keys)
      ensures View() == Node(Trees()) && source.View() == Node(source.Trees())
      ensures source.Trees().Keys == source.items.Keys
      ensures forall k :: k in Reprs() ==> Reprs()[k] <= repr
    {}
  }

  /** No two of these sets of dicts meet. */
  ghost predicate Apart(had: map<string, set<PyDict>>, given: map<string, set<PyDict>>) {
    && (forall j, k :: j in had && k in had && j != k ==> had[j] !! had[k])
    && (forall j, k :: j in given && k in given && j != k ==> given[j] !! given[k])
    && (forall j, k :: j in had && k in given ==> had[j] !! given[k])
  }

  ghost function Under(m: map<string, set<PyDict>>, k: string): set<PyDict> { if k in m then m[k] else {} }

  /** Every entry holds dicts that it had, and, once it is done with, dicts the source gave. */
  ghost predicate Within(now: map<string, set<PyDict>>, had: map<string, set<PyDict>>, given: map<string, set<PyDict>>,
                         todo: set<string>)
  {
    forall k :: k in now ==> now[k] <= Under(had, k) + (if k in todo then {} else Under(given, k))
  }

  lemma {:induction false} ApartFrom(now: map<string, set<PyDict>>, had: map<string, set<PyDict>>,
                                     given: map<string, set<PyDict>>, todo: set<string>, k: string)
    requires Apart(had, given) && Within(now, had, given, todo) && k in todo && k in given
    ensures forall j :: j in now ==> now[j] !! given[k]
  {}

  lemma {:induction false} StillOld(now: map<string, set<PyDict>>, had: map<string, set<PyDict>>,
                                    given: map<string, set<PyDict>>, todo: set<string>, start: set<PyDict>, k: string)
    requires Within(now, had, given, todo) && k in todo && forall j :: j in had ==> had[j] <= start
    ensures k in now ==> now[k] <= start
  {}

  lemma {:induction false} WithinStep(now: map<string, set<PyDict>>, had: map<string, set<PyDict>>,
                                      given: map<string, set<PyDict>>, todo: set<string>, k: string, r: set<PyDict>)
    requires Within(now, had, given, todo) && k in todo && k in given && r <= Under(now, k) + given[k]
    ensures Within(now[k := r], had, given, todo - {k})
  {}

  /** The target's entries while the keys in `todo` are still to come. */
  ghost function Partial(mine: map<string, Tree>, theirs: map<string, Tree>, todo: set<string>): map<string, Tree> {
    map k | k in mine.Keys + (theirs.Keys - todo) ::
      if k !in mine then theirs[k] else if k in theirs && k !in todo then Merge(mine[k], theirs[k]) else mine[k]
  }

  lemma {:induction false} PartialEnds(mine: map<string, Tree>, theirs: map<string, Tree>)
    ensures Partial(mine, theirs, theirs.Keys) == mine
    ensures Node(Partial(mine, theirs, {})) == Merge(Node(mine), Node(theirs))
  {
    assert Partial(mine, theirs, {}) == Merge(Node(mine), Node(theirs)).kids;
  }

  lemma {:induction false} PartialStep(mine: map<string, Tree>, theirs: map<string, Tree>, todo: set<string>, k: string)
    requires k in todo && k in theirs
    ensures var p := Partial(mine, theirs, todo);
            (k in p <==> k in mine) &&
            Partial(mine, theirs, todo - {k})
            == if k !in mine then p[k := theirs[k]] else p[k := Merge(p[k], theirs[k])]
  {}

  // ---------------------------------------------------------------------
  // One config file
  // ---------------------------------------------------------------------

  /** A file as the TOML reader finds it. */
  datatype File = Parsed(kids: map<string, Tree>) | Garbled

  /** `k in v` for a value that is no dict; None where Python raises. */
  function Holds(v: Value, k: string): Option<bool> {
    match v
    case Text(s) => Some(Occurs(k, s))
    case Items(strings) => Some(k in strings)
    case Other(_) => None
  }

  /** Merging into a value that is no dict raises unless there is nothing to assign or look up. */
  predicate LeavesAlone(v: Value, block: map<string, Tree>) {
    forall k | k in block.Keys :: Holds(v, k) == Some(true) && block[k].Leaf?
  }

  function KidAt(kids: map<string, Tree>, k: string): Tree { if k in kids then kids[k] else EMPTY }

  /** `_merge_into` on a file that exists; None where it raises, and then the file is not written. */
  function MergeInto(f: File, agent: string, block: map<string, Tree>): Option<File> {
    if f.Garbled? then None
    else
      var agents := KidAt(f.kids, "agents");
      if agents.Leaf? then None
      else
        var mine := KidAt(agents.kids, agent);
        if mine.Leaf? && !LeavesAlone(mine.value, block) then None
        else Some(Parsed(f.kids["agents" := Node(agents.kids[agent := Merge(mine, Node(block))])]))
  }

  lemma {:induction false} MergeIntoTwice(f: File, agent: string, block: map<string, Tree>)
    requires MergeInto(f, agent, block).Some?
    ensures MergeInto(MergeInto(f, agent, block).value, agent, block) == MergeInto(f, agent, block)
  {
    var g := MergeInto(f, agent, block).value;
    var mine := KidAt(KidAt(f.kids, "agents").kids, agent);
    MergeTwice(mine, Node(block));
    var agents := g.kids["agents"];
    assert agents.kids[agent] == Merge(mine, Node(block));
    assert agents.kids[agent := agents.kids[agent]] == agents.kids;
    assert g.kids["agents" := agents] == g.kids;
  }

  /** Outside the agent's own table the file says what it said before. */
  lemma {:induction false} OtherTablesKept(f: File, agent: string, block: map<string, Tree>, p: Path)
    requires MergeInto(f, agent, block).Some? && !(["agents", agent] <= p) && p != ["agents"]
    ensures KindAt(Node(MergeInto(f, agent, block).value.kids), p) == KindAt(Node(f.kids), p)
  {
    var g := MergeInto(f, agent, block).value;
    if p != [] && p[0] == "agents" {
      var q := p[1..];
      assert q != [] && q[0] == p[1];
      assert p[..2] == ["agents", p[1]];
      var agents, after := KidAt(f.kids, "agents"), g.kids["agents"];
      assert KindAt(Node(g.kids), p) == KindAt(after, q);
      assert KindAt(EMPTY, q) == Nothing;
      assert KindAt(Node(f.kids), p) == KindAt(agents, q);
      assert p[1] != agent;
    }
  }

  // ---------------------------------------------------------------------
  // All config files
  // ---------------------------------------------------------------------

  const FALLBACK := ".tj/config.toml"

  type Disk = map<string, File>

  datatype Sweep = Done(disk: Disk, touched: seq<string>) | Raised(disk: Disk)

  /** The loop over the search path. */
  function SweepFrom(disk: Disk, paths: seq<string>, agent: string, block: map<string, Tree>, touched: seq<string>)
    : Sweep
  {
    if paths == [] then Done(disk, touched)
    else if paths[0] !in disk then SweepFrom(disk, paths[1..], agent, block, touched)
    else match MergeInto(disk[paths[0]], agent, block)
      case None => Raised(disk)
      case Some(f) => SweepFrom(disk[paths[0] := f], paths[1..], agent, block, touched + [paths[0]])
  }

  /** `ensure_demo_agent_config`. */
  function Ensure(disk: Disk, paths: seq<string>, agent: string, block: map<string, Tree>): Sweep {
    var r := SweepFrom(disk, paths, agent, block, []);
    if r.Raised? || r.touched != [] then r
    else match MergeInto(if FALLBACK in disk then disk[FALLBACK] else Parsed(map[]), agent, block)
      case None => Raised(disk)
      case Some(f) => Done(disk[FALLBACK := f], [FALLBACK])
  }

  class ConfigFiles {
    var disk: Disk

    /** Returns the files it wrote, or None where a file made it raise. */
    method EnsureDemoAgentConfig(paths: seq<string>, agent: string, block: map<string, Tree>)
      returns (touched: Option<seq<string>>)
      modifies this
      ensures disk == Ensure(old(disk), paths, agent, block).disk
      ensures touched == match Ensure(old(disk), paths, agent, block)
                         case Done(_, ps) => Some(ps)
                         case Raised(_) => None
    {
      var seen: seq<string> := [];
      for i := 0 to |paths|
        invariant SweepFrom(old(disk), paths, agent, block, []) == SweepFrom(disk, paths[i..], agent, block, seen)
      {
        var p := paths[i];
        assert paths[i..][1..] == paths[i + 1..];
        if p in disk {
          var f := MergeInto(disk[p], agent, block);
          if f.None? {
            return None;
          }
          disk := disk[p := f.value];
          seen := seen + [p];
        }
      }
      NothingTouched(old(disk), paths, agent, block, []);
      if seen == [] {
        var f := MergeInto(if FALLBACK in disk then disk[FALLBACK] else Parsed(map[]), agent, block);
        if f.None? {
          return None;
        }
        disk := disk[FALLBACK := f.value];
        seen := [FALLBACK];
      }
      return Some(seen);
    }
  }

  lemma {:induction false} NothingTouched(disk: Disk, paths: seq<string>, agent: string, block: map<string, Tree>,
                                          touched: seq<string>)
    ensures var r := SweepFrom(disk, paths, agent, block, touched);
            r.Done? ==> |touched| <= |r.touched|
                        && (|r.touched| == |touched| ==>
                              r.disk == disk && r.touched == touched && forall p :: p in paths ==> p !in disk)
    ensures SweepFrom(disk, paths, agent, block, touched).disk.Keys == disk.Keys
    decreases |paths|
  {
    if paths != [] {
      if paths[0] !in disk {
        NothingTouched(disk, paths[1..], agent, block, touched);
      } else {
        var f := MergeInto(disk[paths[0]], agent, block);
        if f.Some? {
          var next := disk[paths[0] := f.value];
          NothingTouched(next, paths[1..], agent, block, touched + [paths[0]]);
          assert next.Keys == disk.Keys;
        }
      }
    }
  }

  /** A file that the merge leaves as it is stays as it is. */
  lemma {:induction false} StableStays(disk: Disk, paths: seq<string>, agent: string, block: map<string, Tree>,
                                       touched: seq<string>, p: string)
    requires p in disk && MergeInto(disk[p], agent, block) == Some(disk[p])
    ensures var after := SweepFrom(disk, paths, agent, block, touched).disk; p in after && after[p] == disk[p]
    decreases |paths|
  {
    if paths != [] {
      if paths[0] !in disk {
        StableStays(disk, paths[1..], agent, block, touched, p);
      } else {
        var f := MergeInto(disk[paths[0]], agent, block);
        if f.Some? {
          StableStays(disk[paths[0] := f.value], paths[1..], agent, block, touched + [paths[0]], p);
        }
      }
    }
  }

  lemma {:induction false} SweepTwice(disk: Disk, paths: seq<string>, agent: string, block: map<string, Tree>,
                                      touched: seq<string>)
    ensures var r := SweepFrom(disk, paths, agent, block, touched);
            SweepFrom(r.disk, paths, agent, block, touched) == r
    decreases |paths|
  {
    hide MergeInto;
    if paths != [] {
      var p := paths[0];
      var r := SweepFrom(disk, paths, agent, block, touched);
      NothingTouched(disk, paths, agent, block, touched);
      if p !in disk {
        SweepTwice(disk, paths[1..], agent, block, touched);
      } else {
        var f := MergeInto(disk[p], agent, block);
        if f.Some? {
          var next := disk[p := f.value];
          MergeIntoTwice(disk[p], agent, block);
          StableStays(next, paths[1..], agent, block, touched + [p], p);
          SweepTwice(next, paths[1..], agent, block, touched + [p]);
          assert r.disk[p := r.disk[p]] == r.disk;
        }
      }
    }
  }

  lemma {:induction false} OnlyFallback(disk: Disk, paths: seq<string>, agent: string, block: map<string, Tree>,
                                        touched: seq<string>)
    requires FALLBACK in disk && MergeInto(disk[FALLBACK], agent, block) == Some(disk[FALLBACK])
    requires forall p :: p in paths && p in disk ==> p == FALLBACK
    ensures var r := SweepFrom(disk, paths, agent, block, touched);
            r.Done? && r.disk == disk && forall p :: p in r.touched ==> p in touched || p == FALLBACK
    decreases |paths|
  {
    hide MergeInto;
    if paths != [] {
      if paths[0] !in disk {
        OnlyFallback(disk, paths[1..], agent, block, touched);
      } else {
        assert paths[0] == FALLBACK;
        assert disk[FALLBACK := disk[FALLBACK]] == disk;
        OnlyFallback(disk, paths[1..], agent, block, touched + [FALLBACK]);
      }
    }
  }

  /** Running the helper again changes no file and reports the same files, also where it raises half-way. */
  lemma {:induction false} EnsureTwice(disk: Disk, paths: seq<string>, agent: string, block: map<string, Tree>)
    ensures var r := Ensure(disk, paths, agent, block);
            var again := Ensure(r.disk, paths, agent, block);
            && again.disk == r.disk && again.Done? == r.Done?
            && (r.Done? ==> forall p :: p in again.touched <==> p in r.touched)
  {
    hide MergeInto;
    var s := SweepFrom(disk, paths, agent, block, []);
    var r := Ensure(disk, paths, agent, block);
    SweepTwice(disk, paths, agent, block, []);
    NothingTouched(disk, paths, agent, block, []);
    if s.Done? && s.touched == [] && r.Done? {
      MergeIntoTwice(if FALLBACK in disk then disk[FALLBACK] else Parsed(map[]), agent, block);
      OnlyFallback(r.disk, paths, agent, block, []);
      assert r.disk[FALLBACK := r.disk[FALLBACK]] == r.disk;
      var t := SweepFrom(r.disk, paths, agent, block, []).touched;
      assert t != [] ==> t[0] in t;
    }
  }

  /** In every config file, what is not under the agent's own table stays as it was. */
  lemma {:induction false} OtherAgentsUntouched(disk: Disk, paths: seq<string>, agent: string, block: map<string, Tree>,
                                                file: string, p: Path)
    requires file in disk && !(["agents", agent] <= p) && p != ["agents"]
    ensures var after := Ensure(disk, paths, agent, block).disk;
            && file in after && after[file].Parsed? == disk[file].Parsed?
            && (disk[file].Parsed? ==> KindAt(Node(after[file].kids), p) == KindAt(Node(disk[file].kids), p))
  {
    hide MergeInto, KindAt;
    OthersInSweep(disk, paths, agent, block, [], file, p);
    NothingTouched(disk, paths, agent, block, []);
    if file == FALLBACK {
      MergeKeepsOthers(disk[FALLBACK], agent, block, p);
    }
  }

  lemma {:induction false} MergeKeepsOthers(f: File, agent: string, block: map<string, Tree>, p: Path)
    requires !(["agents", agent] <= p) && p != ["agents"]
    ensures var g := MergeInto(f, agent, block);
            g.Some? ==> f.Parsed? && g.value.Parsed? && KindAt(Node(g.value.kids), p) == KindAt(Node(f.kids), p)
  {
    if MergeInto(f, agent, block).Some? {
      OtherTablesKept(f, agent, block, p);
    }
  }

  lemma {:induction false} OthersInSweep(disk: Disk, paths: seq<string>, agent: string, block: map<string, Tree>,
                                         touched: seq<string>, file: string, p: Path)
    requires file in disk && !(["agents", agent] <= p) && p != ["agents"]
    ensures var after := SweepFrom(disk, paths, agent, block, touched).disk;
            && file in after && after[file].Parsed? == disk[file].Parsed?
            && (disk[file].Parsed? ==> KindAt(Node(after[file].kids), p) == KindAt(Node(disk[file].kids), p))
    decreases |paths|
  {
    hide MergeInto, KindAt;
    if paths != [] {
      if paths[0] !in disk {
        OthersInSweep(disk, paths[1..], agent, block, touched, file, p);
      } else {
        var f := MergeInto(disk[paths[0]], agent, block);
        MergeKeepsOthers(disk[paths[0]], agent, block, p);
        if f.Some? {
          OthersInSweep(disk[paths[0] := f.value], paths[1..], agent, block, touched + [paths[0]], file, p);
        }
      }
    }
  }

  /** In every file the helper reports, the agent's whole block is there, or a value of the file is in its way. */
  lemma {:induction false} SeededEverywhere(disk: Disk, paths: seq<string>, agent: string, block: map<string, Tree>,
                                            file: string, p: Path)
    requires var r := Ensure(disk, paths, agent, block); r.Done? && file in r.touched
    requires KindAt(Node(block), p) != Nothing
    ensures var after := Ensure(disk, paths, agent, block).disk;
            && file in after && after[file].Parsed?
            && var t := Node(after[file].kids);
               KindAt(t, ["agents", agent] + p) != Nothing || Shadowed(t, ["agents", agent] + p)
  {
    hide MergeInto, KindAt, Shadowed;
    SeededBySweep(disk, paths, agent, block, []);
    var s := SweepFrom(disk, paths, agent, block, []);
    var after := Ensure(disk, paths, agent, block).disk;
    if s.touched == [] {
      MergeIntoTwice(if FALLBACK in disk then disk[FALLBACK] else Parsed(map[]), agent, block);
      assert file == FALLBACK;
    } else {
      assert Ensure(disk, paths, agent, block) == s;
    }
    StableMeans(after[file], agent, block, p);
  }

  lemma {:induction false} SeededBySweep(disk: Disk, paths: seq<string>, agent: string, block: map<string, Tree>,
                                         touched: seq<string>)
    requires forall q :: q in touched ==> q in disk && MergeInto(disk[q], agent, block) == Some(disk[q])
    ensures var r := SweepFrom(disk, paths, agent, block, touched);
            r.Done? ==>
              forall q :: q in r.touched ==> q in r.disk && MergeInto(r.disk[q], agent, block) == Some(r.disk[q])
    decreases |paths|
  {
    hide MergeInto;
    if paths != [] {
      if paths[0] !in disk {
        SeededBySweep(disk, paths[1..], agent, block, touched);
      } else {
        var f := MergeInto(disk[paths[0]], agent, block);
        if f.Some? {
          MergeIntoTwice(disk[paths[0]], agent, block);
          SeededBySweep(disk[paths[0] := f.value], paths[1..], agent, block, touched + [paths[0]]);
        }
      }
    }
  }

  lemma {:induction false} StableMeans(f: File, agent: string, block: map<string, Tree>, p: Path)
    requires MergeInto(f, agent, block) == Some(f) && KindAt(Node(block), p) != Nothing
    ensures f.Parsed?
    ensures var q := ["agents", agent] + p;
            KindAt(Node(f.kids), q) != Nothing || Shadowed(Node(f.kids), q)
  {
    var agents := KidAt(f.kids, "agents");
    var mine := KidAt(agents.kids, agent);
    assert f.kids["agents"] == Node(agents.kids[agent := Merge(mine, Node(block))]);
    assert agents == f.kids["agents"] && agents.kids[agent] == mine == Merge(mine, Node(block));
    var q := ["agents", agent] + p;
    assert q[1..] == [agent] + p && q[1..][1..] == p;
    assert KindAt(Node(f.kids), q) == KindAt(agents, q[1..]) == KindAt(mine, p);
    assert Shadowed(Node(f.kids), q) == Shadowed(agents, q[1..]) == Shadowed(mine, p);
    if mine.Node? {
      MergeAt(mine, Node(block), p);
    }
  }
}
