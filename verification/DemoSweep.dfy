/**
 What the demo helper leaves in each config file, file by file and path by path
 (examples/alerts_and_drift/_shared.py).
 */
module DemoSweep {
  import opened Prelude
  import opened DeepMerge
  import opened DemoConfig

  // ---------------------------------------------------------------------
  // One file
  // ---------------------------------------------------------------------

  /**
   Of the agent's table everything that is there stays, and every path of the block is added unless it is
   there or a value is in its way.
   */
  lemma {:induction false} SeededExactly(f: File, agent: string, block: map<string, Tree>, p: Path)
    requires MergeInto(f, agent, block).Some?
    ensures f.Parsed? && MergeInto(f, agent, block).value.Parsed?
    ensures var before, after := Node(f.kids), Node(MergeInto(f, agent, block).value.kids);
            var q := ["agents", agent] + p;
            KindAt(after, q) == if KindAt(before, q) != Nothing then KindAt(before, q)
                                else if Shadowed(before, q) then Nothing
                                else KindAt(Node(block), p)
    ensures KindAt(Node(MergeInto(f, agent, block).value.kids), ["agents"]) == Dict
  {
    hide Merge;
    var g := MergeInto(f, agent, block).value;
    var agents := KidAt(f.kids, "agents");
    var mine := KidAt(agents.kids, agent);
    var q := ["agents", agent] + p;
    assert q[1..] == [agent] + p && q[1..][1..] == p;
    assert g.kids["agents"] == Node(agents.kids[agent := Merge(mine, Node(block))]);
    assert KindAt(Node(g.kids), q) == KindAt(Merge(mine, Node(block)), p) by {
      assert KindAt(Node(g.kids), q) == KindAt(g.kids["agents"], q[1..]);
    }
    assert ["agents"][1..] == [];
    FromEmpty(p);
    if "agents" in f.kids {
      assert KindAt(Node(f.kids), q) == KindAt(agents, q[1..]);
      assert Shadowed(Node(f.kids), q) == Shadowed(agents, q[1..]);
      if agent in agents.kids {
        assert KindAt(agents, q[1..]) == KindAt(mine, p);
        assert Shadowed(agents, q[1..]) == Shadowed(mine, p);
      }
    }
    if mine.Node? {
      MergeAt(mine, Node(block), p);
    } else {
      LeafStays(mine, block, p);
    }
  }

  lemma {:induction false} FromEmpty(p: Path)
    ensures p != [] ==> KindAt(EMPTY, p) == Nothing
    ensures !Shadowed(EMPTY, p)
  {}

  lemma {:induction false} LeafStays(t: Tree, block: map<string, Tree>, p: Path)
    requires t.Leaf?
    ensures Merge(t, Node(block)) == t
    ensures KindAt(t, p) == Nothing ==> Shadowed(t, p)
  {}

  // ---------------------------------------------------------------------
  // All files
  // ---------------------------------------------------------------------

  predicate Bad(disk: Disk, agent: string, block: map<string, Tree>, p: string) {
    p in disk && MergeInto(disk[p], agent, block) == None
  }

  /** Number `k` of the search path is the first that cannot be merged into; none is where `k` is their number. */
  predicate StopsAt(disk: Disk, paths: seq<string>, agent: string, block: map<string, Tree>, k: nat) {
    && k <= |paths| && (k < |paths| ==> Bad(disk, agent, block, paths[k]))
    && forall j :: 0 <= j < k ==> !Bad(disk, agent, block, paths[j])
  }

  /** Those of the paths that are files. */
  function Existing(disk: Disk, paths: seq<string>): seq<string> {
    if paths == [] then [] else (if paths[0] in disk then [paths[0]] else []) + Existing(disk, paths[1..])
  }

  lemma {:induction false} SameExisting(a: Disk, b: Disk, paths: seq<string>)
    requires a.Keys == b.Keys
    ensures Existing(a, paths) == Existing(b, paths)
  {
    if paths != [] {
      SameExisting(a, b, paths[1..]);
      assert paths[0] in a.Keys <==> paths[0] in b.Keys;
    }
  }

  lemma {:induction false} NoneExisting(disk: Disk, paths: seq<string>)
    ensures Existing(disk, paths) == [] <==> forall p :: p in paths ==> p !in disk
  {
    if paths != [] {
      NoneExisting(disk, paths[1..]);
      assert paths == [paths[0]] + paths[1..];
    }
  }

  lemma {:induction false} SweepStep(disk: Disk, paths: seq<string>, agent: string, block: map<string, Tree>,
                                     touched: seq<string>)
    ensures SweepFrom(disk, paths, agent, block, touched)
         == if paths == [] then Done(disk, touched)
            else if paths[0] !in disk then SweepFrom(disk, paths[1..], agent, block, touched)
            else if MergeInto(disk[paths[0]], agent, block).None? then Raised(disk)
            else
              var f := MergeInto(disk[paths[0]], agent, block).value;
              SweepFrom(disk[paths[0] := f], paths[1..], agent, block, touched + [paths[0]])
  {
    hide MergeInto;
  }

  /** The files in front of the first bad one are merged into, each once over; the others stay. */
  lemma {:induction false} SweptExactly(disk: Disk, paths: seq<string>, agent: string, block: map<string, Tree>,
                                        touched: seq<string>, k: nat)
    requires StopsAt(disk, paths, agent, block, k)
    ensures var r := SweepFrom(disk, paths, agent, block, touched);
            && (r.Raised? <==> k < |paths|)
            && (r.Done? ==> r.touched == touched + Existing(disk, paths))
            && r.disk.Keys == disk.Keys
            && forall q :: q in disk ==>
                 && (q in paths[..k] ==> Some(r.disk[q]) == MergeInto(disk[q], agent, block))
                 && (q !in paths[..k] ==> r.disk[q] == disk[q])
    decreases |paths|
  {
    hide MergeInto, SweepFrom;
    SweepStep(disk, paths, agent, block, touched);
    if paths != [] && k > 0 {
      var p, rest := paths[0], paths[1..];
      assert paths[..k] == [p] + rest[..k - 1];
      assert !Bad(disk, agent, block, p);
      assert forall j :: 0 <= j < |rest| ==> rest[j] == paths[j + 1];
      if p !in disk {
        SweptExactly(disk, rest, agent, block, touched, k - 1);
      } else {
        var f := MergeInto(disk[p], agent, block).value;
        var next := disk[p := f];
        MergeIntoTwice(disk[p], agent, block);
        forall q ensures Bad(next, agent, block, q) <==> Bad(disk, agent, block, q) {}
        SweptExactly(next, rest, agent, block, touched + [p], k - 1);
        assert next.Keys == disk.Keys;
        SameExisting(disk, next, rest);
      }
    }
  }

  /**
   The helper merges into every file of the search path that is there, and reports them in that order; where
   none is, into `.tj/config.toml`, as a new file if need be.  A file it cannot merge into makes it raise,
   with the files in front of that one merged and the others as they were.
   */
  lemma {:induction false} EnsuredExactly(disk: Disk, paths: seq<string>, agent: string, block: map<string, Tree>,
                                          k: nat)
    requires StopsAt(disk, paths, agent, block, k)
    ensures var r := Ensure(disk, paths, agent, block);
            if exists p :: p in paths && p in disk then
              && (r.Raised? <==> k < |paths|) && (r.Done? ==> r.touched == Existing(disk, paths))
              && r.disk.Keys == disk.Keys
              && forall q :: q in disk ==>
                   && (q in paths[..k] ==> Some(r.disk[q]) == MergeInto(disk[q], agent, block))
                   && (q !in paths[..k] ==> r.disk[q] == disk[q])
            else
              var file := ".tj/config.toml";
              var merged := MergeInto(if file in disk then disk[file] else Parsed(map[]), agent, block);
              r == if merged.Some? then Done(disk[file := merged.value], [file]) else Raised(disk)
  {
    hide MergeInto;
    SweptExactly(disk, paths, agent, block, [], k);
    NoneExisting(disk, paths);
    var s := SweepFrom(disk, paths, agent, block, []);
    assert [] + Existing(disk, paths) == Existing(disk, paths);
    if Existing(disk, paths) == [] {
      assert forall j :: 0 <= j < |paths| ==> paths[j] in paths;
      assert s.Done?;
      assert s.disk == disk;
    }
  }

  /** There is always such a number. */
  lemma {:induction false} SomeStop(disk: Disk, paths: seq<string>, agent: string, block: map<string, Tree>)
    ensures exists k: nat :: StopsAt(disk, paths, agent, block, k)
  {
    hide Bad;
    var k := 0;
    while k < |paths| && !Bad(disk, agent, block, paths[k])
      invariant k <= |paths| && forall j :: 0 <= j < k ==> !Bad(disk, agent, block, paths[j])
    {
      k := k + 1;
    }
    assert StopsAt(disk, paths, agent, block, k);
  }
}
