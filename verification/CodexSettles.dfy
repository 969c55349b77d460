/**
 Repeated rewrites of ~/.codex/config.toml (tokenjam/cli/cmd_onboard.py) that names the tj server any
 number of times, in comments too: each rewrite retires at most one of them.
 */
module CodexSettles {
  import opened TextScan
  import opened Codex
  import opened CodexScans
  import opened CodexRewrite
  import opened CodexConverges

  /** One rewrite: the block it writes, and whether the file parsed. */
  datatype Pass = Pass(block: string, parsed: bool)

  function RewriteAll(passes: seq<Pass>, content: string): string {
    if passes == [] then content
    else
      var last := passes[|passes| - 1];
      Rewrite(last.block, last.parsed, RewriteAll(passes[..|passes| - 1], content))
  }

  ghost predicate Writable(passes: seq<Pass>) {
    forall i :: 0 <= i < |passes| ==> TomlBlock(passes[i].block)
  }

  /** Kept text in which nothing is left to take out, collapse or retire. */
  ghost predicate Quiet(w: string) {
    Trimmed(w) && Collapsed(w) && ManagedClear(w) && !Owns(Spaced(w))
  }

  /** From then on nothing but the block ever changes. */
  lemma {:induction false} QuietStays(w: string, earlier: string, block: string, parsed: bool)
    requires Quiet(w) && TomlBlock(earlier) && TomlBlock(block)
    ensures Rewrite(block, parsed, Canon(earlier, w)) == Canon(block, w)
  {
    hide Occurs, Rewrite, OwnsServer, Owns, Collapse, Trim, TomlBlock;
    SpacedFacts(w, earlier);
    SpacedFacts(w, block);
    RewriteBehind(Spaced(w), earlier, block, parsed);
    SettledStays(w);
    BlockFacts(block);
    OwnsBehind(Spaced(w), block);
    OwnsMeans(Canon(block, w));
    NotOwned(Canon(block, w));
  }

  lemma {:induction false} NotOwned(t: string)
    requires !OwnsServer(t)
    ensures RetireServer(t) == t
  {}

  /** Text clear of managed tables in front of a block. */
  ghost predicate InFront(t: string, z: string, block: string) {
    t == z + block && ManagedClear(z)
  }

  lemma {:induction false} OneServerLess(z: string, block: string)
    requires Complete(z) && block != "" && block[0] == '[' && Find(TJ_SERVER, z).Some?
    ensures Count(TJ_SERVER, WithoutServer(z, block)) < Count(TJ_SERVER, z)
  {
    hide Header, Find, WithoutServer, Occurs, Count;
    FenceSuffix(z, block);
    ServerHeaders();
    AllOneLine();
    var i := Find(TJ_SERVER, z).value;
    var j :| i + |TJ_SERVER| <= j < |z| && z[j] == '\n' && WithoutServer(z, block) == z[..i] + z[j..];
    FenceHere(TJ_SERVER, z, i);
    assert z == z[..i] + z[i..] && z[i..][j - i..] == z[j..];
    CountFence(TJ_SERVER, z[..i], z[i..]);
    CountFence(TJ_SERVER, z[..i], z[j..]);
    CountSuffixLess(TJ_SERVER, z[i..], j - i);
  }

  /** A rewrite behind which either nothing is left to do, or one server less. */
  lemma {:induction false} Step(z: string, earlier: string, p: Pass) returns (next: string)
    requires ManagedClear(z) && TomlBlock(earlier) && TomlBlock(p.block)
    ensures var t, w := Rewrite(p.block, p.parsed, z + earlier), Trim(Collapse(z));
            || (t == Canon(p.block, w) && Quiet(w))
            || (InFront(t, next, p.block) && Count(TJ_SERVER, next) < Count(TJ_SERVER, z))
  {
    hide Occurs, Header, Rewrite, OwnsServer, Owns, Collapse, Trim, TrimLeft, Count, Find, WithoutServer, ManagedClear;
    var w := Trim(Collapse(z));
    next := "";
    RewriteBehind(z, earlier, p.block, p.parsed);
    TidiedManagedClear(z);
    TrimIsTrimmed(Collapse(z));
    CollapseDone(z);
    TrimSubstring("\n\n\n", Collapse(z));
    SpacedFacts(w, p.block);
    BlockFacts(p.block);
    OwnsBehind(Spaced(w), p.block);
    OwnsMeans(Canon(p.block, w));
    if Owns(Spaced(w)) {
      next := Retired(w, p.block);
      FewerThan(z, w, next);
    } else {
      NotOwned(Canon(p.block, w));
    }
  }

  lemma {:induction false} FewerThan(z: string, w: string, next: string)
    requires w == Trim(Collapse(z)) && Count(TJ_SERVER, next) < Count(TJ_SERVER, w)
    ensures Count(TJ_SERVER, next) < Count(TJ_SERVER, z)
  {
    hide Header, Count, Collapse, Trim;
    ServerHeaders();
    CountCollapsed(TJ_SERVER, z);
    CountTrimmed(TJ_SERVER, Collapse(z));
  }

  /** The text in front once the first server is retired. */
  lemma {:induction false} Retired(w: string, block: string) returns (next: string)
    requires TomlBlock(block) && ManagedClear(w) && OwnsServer(Canon(block, w))
    ensures InFront(RetireServer(Canon(block, w)), next, block)
    ensures Count(TJ_SERVER, next) < Count(TJ_SERVER, w)
  {
    hide Occurs, Header, RetireServer, OwnsServer, Collapse, TrimLeft, Count, Find, WithoutServer, ManagedClear;
    var z := Spaced(w);
    var b1, b2, b3 :| IsBlock(block, b1, b2, b3);
    ServerHeaders();
    SpacedFacts(w, block);
    BlockFacts(block);
    RetireBehind(z, block, b1, b2, b3);
    WithoutServerManagedClear(z, block);
    TidiedManagedClear(WithoutServer(z, block));
    OneServerLess(z, block);
    CountCollapsed(TJ_SERVER, WithoutServer(z, block));
    CountTrimmed(TJ_SERVER, Collapse(WithoutServer(z, block)));
    next := TrimLeft(Collapse(WithoutServer(z, block)));
  }

  /** After the first rewrite. */
  lemma {:induction false} AfterFirst(p: Pass, content: string) returns (z: string)
    requires TomlBlock(p.block)
    ensures InFront(Rewrite(p.block, p.parsed, content), z, p.block)
    ensures Count(TJ_SERVER, z) <= Count(TJ_SERVER, content)
  {
    hide Occurs, Header, Rewrite, RetireServer, OwnsServer, Collapse, TrimLeft, Count, Find, WithoutServer,
         ManagedClear, Purge, StripOtelTables;
    z := FirstFront(p.block, content);
    FirstRewrite(p.block, p.parsed, content);
    var y := StripOtelTables(Purge(content));
    ServerHeaders();
    CountKept(TJ_SERVER, content);
    SpacedFacts(y, p.block);
    BlockFacts(p.block);
    if OwnsServer(Spaced(y) + p.block) && Find(TJ_SERVER, Spaced(y)).Some? {
      OneServerLess(Spaced(y), p.block);
      CountCollapsed(TJ_SERVER, WithoutServer(Spaced(y), p.block));
      CountTrimmed(TJ_SERVER, Collapse(WithoutServer(Spaced(y), p.block)));
    }
  }

  /** After n rewrites the file has settled, or n - 1 servers are gone. */
  lemma {:induction false} Progress(passes: seq<Pass>, content: string) returns (settled: bool, x: string)
    requires passes != [] && Writable(passes)
    ensures var t, block := RewriteAll(passes, content), passes[|passes| - 1].block;
            if settled then t == Canon(block, x) && Quiet(x)
            else InFront(t, x, block) && Count(TJ_SERVER, x) + |passes| <= Count(TJ_SERVER, content) + 1
    decreases |passes|
  {
    hide Occurs, Rewrite, Quiet, Count, TomlBlock, Canon, ManagedClear;
    var n := |passes|;
    var before, last := passes[..n - 1], passes[n - 1];
    if n == 1 {
      settled := false;
      x := AfterFirst(last, content);
      assert RewriteAll(before, content) == content;
    } else {
      settled, x := Progress(before, content);
      if settled {
        QuietStays(x, passes[n - 2].block, last.block, last.parsed);
      } else {
        var next := Step(x, passes[n - 2].block, last);
        if InFront(RewriteAll(passes, content), next, last.block) && Count(TJ_SERVER, next) < Count(TJ_SERVER, x) {
          x := next;
        } else {
          settled := true;
          x := Trim(Collapse(x));
        }
      }
    }
  }

  /**
   Convergence for every file.  As many rewrites as the file names the tj server, and two more, and from
   then on it is some settled text and the latest block.
   */
  lemma {:induction false} SettlesAlways(passes: seq<Pass>, content: string) returns (w: string)
    requires Writable(passes) && |passes| >= Count(TJ_SERVER, content) + 2
    ensures Quiet(w) && RewriteAll(passes, content) == Canon(passes[|passes| - 1].block, w)
    ensures forall p: Pass :: TomlBlock(p.block) ==>
              Rewrite(p.block, p.parsed, RewriteAll(passes, content)) == Canon(p.block, w)
  {
    hide Quiet, Count, TomlBlock, Canon, Rewrite, RewriteAll, ManagedClear;
    var settled;
    settled, w := Progress(passes, content);
    forall p: Pass | TomlBlock(p.block)
      ensures Rewrite(p.block, p.parsed, RewriteAll(passes, content)) == Canon(p.block, w)
    {
      QuietStays(w, passes[|passes| - 1].block, p.block, p.parsed);
    }
  }
}
