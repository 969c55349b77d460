/**
 The third writer of ~/.zshrc (tokenjam/cli/cmd_onboard.py): a block that puts `tj` on PATH, which a
 run appends where the shell does not find it, and which nothing takes away again.
 */
module RcPath {
  import opened Prelude
  import opened TextScan
  import opened Refresh
  import opened ShellRc
  import opened RcPipeline

  const PATH_START := "# >>> tokenjam PATH (managed) >>>"
  const PATH_END := "# <<< tokenjam PATH <<<"

  function PathLine(dir: string): string { "export PATH=\"" + dir + ":$PATH\"" }

  /** `_zshrc_tj_path_block`. */
  function PathBlock(dir: string): string {
    Block(PATH_START + "\n", PathLine(dir) + "\n", PATH_END)
  }

  /** `_ensure_tj_on_path`, given the directory that is missing on PATH and that uv could not add. */
  function EnsurePath(missing: Option<string>, t: string): string {
    if missing.None? || Occurs(PATH_START, t) then t
    else t + (if Complete(t) then "" else "\n") + "\n" + PathBlock(missing.value)
  }

  /** One run, and the directory of `tj` if it turns out not to be on PATH. */
  datatype PathRun = PathRun(run: Run, missing: Option<string>)

  function OnboardEach(rs: seq<PathRun>, t: string): string {
    if rs == [] then t
    else
      var last := rs[|rs| - 1];
      EnsurePath(last.missing, Onboard(last.run.block, last.run.wrapper, OnboardEach(rs[..|rs| - 1], t)))
  }

  function Shell(rs: seq<PathRun>): seq<Run> {
    seq(|rs|, i requires 0 <= i < |rs| => rs[i].run)
  }

  ghost predicate UsableEach(rs: seq<PathRun>) {
    && Usable(Shell(rs))
    && forall i :: 0 <= i < |rs| && rs[i].missing.Some? ==> Unmarked(rs[i].missing.value)
  }

  /** Run number `k` is one that appends the block, if none before it did. */
  predicate Writes(rs: seq<PathRun>, t: string, k: nat)
    requires k < |rs|
  {
    rs[k].missing.Some? && !Occurs(PATH_START, OnboardAll(Shell(rs[..k + 1]), t))
  }

  // ---------------------------------------------------------------------
  // The block
  // ---------------------------------------------------------------------

  lemma {:induction false} PathMarkers()
    ensures HashLine(PATH_START) && HashLine(PATH_END)
    ensures PATH_START !in {OTEL_START, LEGACY_TJ, LEGACY_OCW} && PATH_END !in {OTEL_START, LEGACY_TJ, LEGACY_OCW}
    ensures !(WRAPPER_MARKER <= PATH_START) && !(WRAPPER_MARKER <= PATH_END)
    ensures !(WRAPPER_END <= PATH_START) && !(WRAPPER_END <= PATH_END)
    ensures PATH_END[|PATH_END| - 1] == '<'
  {
    assert PATH_START[2] == '>' && PATH_END[2] == '<' && PATH_START[15] == 'P' && OTEL_START[15] == 'O';
    assert OTEL_START[2] == '>' && LEGACY_TJ[2] == 't' && LEGACY_OCW[2] == 'o';
    assert WRAPPER_MARKER[2] == 't' && WRAPPER_END[2] == 'e';
  }

  lemma {:induction false} PathLineFits(dir: string)
    requires Unmarked(dir)
    ensures CodeLine(PathLine(dir)) && ExportLine(PathLine(dir))
  {
    hide CodeLine, ExportLine, Unmarked, ClosesMarker;
    assert Plain("export PATH=\"") && Plain(":$PATH\"") && !ClosesMarker('"') by { PlainEnds(); }
    QuotedLine("export PATH=\"", dir, ":$PATH\"");
  }

  lemma {:induction false} PlainEnds()
    ensures Plain("export PATH=\"") && Plain(":$PATH\"") && !ClosesMarker('"')
  {}

  /** What the rest needs to know about the block; `q` is the block without its last newline. */
  lemma {:induction false} PathFacts(dir: string) returns (q: string)
    requires Unmarked(dir)
    ensures PathBlock(dir) == q + "\n" && q != "" && q[|q| - 1] != '\n' && PATH_START <= q
    ensures Complete(PathBlock(dir)) && OtelFree(PathBlock(dir))
    ensures !Occurs(WRAPPER_MARKER, PathBlock(dir)) && !Occurs(WRAPPER_END, PathBlock(dir))
  {
    hide Occurs, CodeLine, ExportLine, Unmarked, EndsWith;
    var line := PathLine(dir);
    q := PATH_START + "\n" + (line + "\n") + PATH_END;
    PathMarkers();
    PathLineFits(dir);
    PathOtelFree(dir);
    MarkerShapes();
    HashInBlock(WRAPPER_MARKER, PATH_START, line + "\n", PATH_END) by { ExportMeans(line); }
    HashInBlock(WRAPPER_END, PATH_START, line + "\n", PATH_END) by { ExportMeans(line); }
  }

  lemma {:induction false} ExportMeans(line: string)
    requires ExportLine(line)
    ensures OneLine(line) && !Occurs(WRAPPER_MARKER, line + "\n") && !Occurs(WRAPPER_END, line + "\n")
  {}

  lemma {:induction false} PathOtelFree(dir: string)
    requires Unmarked(dir)
    ensures OtelFree(PathBlock(dir))
  {
    hide Occurs, ExportLine, Unmarked, EndsWith;
    PathLineFits(dir);
    PathMarkers();
    MarkerShapes();
    MarkerNotInPath(OTEL_START, dir);
    MarkerNotInPath(LEGACY_TJ, dir);
    MarkerNotInPath(LEGACY_OCW, dir);
  }

  lemma {:induction false} MarkerNotInPath(m: string, dir: string)
    requires HashLine(m) && m != PATH_START && m != PATH_END
    requires OneLine(PathLine(dir)) && !EndsWith(PathLine(dir), m)
    ensures !Occurs(m + "\n", PathBlock(dir))
  {
    hide Occurs, EndsWith;
    PathMarkers();
    HashLineAnchors(m);
    MarkerEndsLine(m, PathLine(dir));
    HashLineInBlock(m, PATH_START, PathLine(dir) + "\n", PATH_END);
  }

  // ---------------------------------------------------------------------
  // The file with the block in it
  // ---------------------------------------------------------------------

  /** The file that a run leaves, and what stripping leaves of it, with and without more text behind. */
  lemma {:induction false} RunShape(runs: seq<Run>, t: string) returns (a: string)
    requires runs != [] && Usable(runs) && NoLeftover(t)
    ensures var f := OnboardAll(runs, t);
            && Complete(f) && StripOtel(f) == a
            && Complete(a) && OtelFree(a) && Occurs(WRAPPER_MARKER, a) && !Blank(a)
            && forall p :: OtelFree(p) ==> StripOtel(f + "\n" + p) == a + "\n" + p
  {
    hide OnboardAll, IsPlainBlock, IsWrapper, NoLeftover, StripOtel, OtelFree, Occurs, Settled, Front;
    var b, w := runs[|runs| - 1].block, runs[|runs| - 1].wrapper;
    var f, front := OnboardAll(runs, t), Front(t);
    FileShape(runs, t);
    KeptShape("", t);
    NewlineIsFree();
    if Occurs(WRAPPER_MARKER, front) {
      SettledIsStable(w, t);
      a := Settled(w, t);
      BlockThenText(a, b, "");
      assert a + b + "" == a + b && a + "" == a;
    } else if f == front + b + "\n" + w {
      NotHidden(t);
      AroundWrapper(front, w);
      BlockThenText(front, b, "\n" + w);
      a := front + ("\n" + w);
      assert front + b + ("\n" + w) == f;
    } else {
      NotHidden(t);
      FreshSettles(w, front);
      a := front + "\n" + w + "\n";
      BlockThenText(a, b, "");
      assert a + b + "" == a + b && a + "" == a;
    }
  }

  lemma {:induction false} NotHidden(t: string)
    requires NoLeftover(t)
    ensures OtelFree(Front(t)) && Complete(Front(t))
  {
    KeptShape("", t);
  }

  lemma {:induction false} AroundWrapper(front: string, w: string)
    requires Complete(front) && OtelFree(front) && IsWrapper(w)
    ensures var a := front + ("\n" + w);
            && Complete(a) && OtelFree(a) && Occurs(WRAPPER_MARKER, a) && !Blank(a)
            && OtelFree("\n" + w) && Complete("\n" + w)
  {
    hide Occurs, IsWrapper, OtelFree;
    WrapperFits(w);
    NewlineIsFree();
    OtelFreeSplit("\n", w);
    OtelFreeSplit(front, "\n" + w);
    MarkerInFront("\n", w);
    MarkerInFront(front, "\n" + w);
    NotBlankSum("\n", w);
    NotBlankSum(front, "\n" + w);
  }

  lemma {:induction false} BlockThenText(a: string, b: string, c: string)
    requires Complete(a) && OtelFree(a) && IsPlainBlock(b) && OtelFree(c) && Complete(c)
    ensures Complete(a + b + c) && StripOtel(a + b + c) == a + c
    ensures forall p :: OtelFree(p) ==> StripOtel(a + b + c + "\n" + p) == a + c + "\n" + p
  {
    hide StripOtel, OtelFree, IsPlainBlock, Occurs;
    BlockFacts(b);
    StripBlock(a, b, c);
    NewlineIsFree();
    forall p | OtelFree(p) ensures StripOtel(a + b + c + "\n" + p) == a + c + "\n" + p {
      OtelFreeSplit("\n", p);
      OtelFreeSplit(c, "\n" + p);
      StripBlock(a, b, c + ("\n" + p));
      assert a + b + c + "\n" + p == a + b + (c + ("\n" + p));
      assert a + c + "\n" + p == a + (c + ("\n" + p));
    }
  }

  lemma {:induction false} UnwireInFront(a: string, p: string)
    requires Complete(a) && !Occurs(WRAPPER_MARKER, p) && !Occurs(WRAPPER_END, p)
    ensures UnwireWrapper(a + p) == UnwireWrapper(a) + p
    ensures forall w :: Refreshed(WRAPPER_MARKER, WRAPPER_END, w, a + p)
                     == Refreshed(WRAPPER_MARKER, WRAPPER_END, w, a) + p
  {
    hide ReplaceBlocks, Occurs, UnwireWrapper;
    MarkersAreAnchors();
    MarkerShapes();
    HashLineAnchors(WRAPPER_END);
    FindEndNeedsMarker(WRAPPER_END, NewlineOrEnd, p);
    FindEndNeedsMarker(WRAPPER_END, Newline, p);
    ReplaceSplit(WRAPPER_MARKER, WRAPPER_END, NewlineOrEnd, "", a, p);
    SameRemoval(a);
    UnwireEqualsRemoval(a);
    UnwireEqualsRemoval(a + p);
    forall w
      ensures Refreshed(WRAPPER_MARKER, WRAPPER_END, w, a + p) == Refreshed(WRAPPER_MARKER, WRAPPER_END, w, a) + p
    {
      ReplaceSplit(WRAPPER_MARKER, WRAPPER_END, Newline, w, a, p);
    }
  }

  /** Newlines around the block keep it free of the wrapper's markers. */
  lemma {:induction false} Around(m: string, p: string)
    requires HashLine(m) && !Occurs(m, p) && Complete(p)
    ensures !Occurs(m, "\n" + p) && !Occurs(m, "\n" + p + "\n")
  {
    HashLineAnchors(m);
    OccursNeedsHead(m, "\n");
    OccursSplit(m, "\n", p);
    OccursSplit(m, "\n" + p, "\n");
  }

  /** The file right after the block was appended, as the start of whatever comes then. */
  lemma {:induction false} Written(runs: seq<Run>, t: string, dir: string) returns (a: string, q: string)
    requires runs != [] && Usable(runs) && NoLeftover(t) && Unmarked(dir)
    requires !Occurs(PATH_START, OnboardAll(runs, t))
    ensures PathBlock(dir) == q + "\n" && q != "" && q[|q| - 1] != '\n' && PATH_START <= q
    ensures Complete(a) && Occurs(WRAPPER_MARKER, a)
    ensures StripOtel(OnboardAll(runs, t)) == a
    ensures var f := EnsurePath(Some(dir), OnboardAll(runs, t));
            && NoLeftover(f) && Front(f) == a + ("\n" + PathBlock(dir) + "\n")
            && StripOtel(f) == a + ("\n" + PathBlock(dir))
  {
    hide OnboardAll, Usable, NoLeftover, StripOtel, OtelFree, Occurs, PathBlock, Unmarked;
    a := RunShape(runs, t);
    q := PathFacts(dir);
    var f0, p := OnboardAll(runs, t), PathBlock(dir);
    var f := EnsurePath(Some(dir), f0);
    assert f == f0 + "\n" + p by { assert f0 + "" + "\n" + p == f0 + "\n" + p; }
    WrittenKept(f, a, p, q);
  }

  lemma {:induction false} WrittenKept(f: string, a: string, p: string, q: string)
    requires StripOtel(f) == a + "\n" + p && p == q + "\n" && q != "" && q[|q| - 1] != '\n'
    requires Complete(a) && OtelFree(a) && !Blank(a) && OtelFree(p)
    ensures StripOtel(f) == a + ("\n" + p)
    ensures NoLeftover(f) && Front(f) == a + ("\n" + p + "\n")
  {
    hide StripOtel, OtelFree, RStripNewlines, NoLeftover;
    var x := a + "\n" + q;
    assert a + "\n" + p == x + "\n" && a + ("\n" + p) == x + "\n";
    NotBlankFront(a, "\n" + p);
    RStripKeeps(x);
    assert Kept(f) == x;
    NewlineIsFree();
    OtelFreeSplit("\n", p);
    OtelFreeSplit(a, "\n" + p);
    LeftoverMeans(f);
    assert x + "\n\n" == a + ("\n" + p + "\n");
  }

  lemma {:induction false} LeftoverMeans(f: string)
    requires OtelFree(Kept(f) + "\n")
    ensures NoLeftover(f)
  {}

  lemma {:induction false} NotBlankFront(a: string, b: string)
    requires !Blank(a)
    ensures !Blank(a + b)
  {
    var k :| 0 <= k < |a| && !IsSpace(a[k]);
    assert (a + b)[k] == a[k];
  }

  lemma {:induction false} TailOfBlock(u: string, p: string, q: string)
    requires p == q + "\n" && q != "" && q[|q| - 1] != '\n'
    ensures RStripNewlines(u + ("\n" + p)) + "\n" == u + "\n" + p
    ensures RStripNewlines(u + ("\n" + p + "\n")) + "\n" == u + "\n" + p
  {
    var x := u + "\n" + q;
    TailNewlines(x);
    assert u + ("\n" + p) == x + "\n" && u + ("\n" + p + "\n") == x + "\n" + "\n" && u + "\n" + p == x + "\n";
  }

  lemma {:induction false} BlockFree(dir: string)
    requires Unmarked(dir)
    ensures var p := PathBlock(dir);
            && !Occurs(WRAPPER_MARKER, "\n" + p) && !Occurs(WRAPPER_END, "\n" + p)
            && !Occurs(WRAPPER_MARKER, "\n" + p + "\n") && !Occurs(WRAPPER_END, "\n" + p + "\n")
  {
    hide PathBlock, Occurs;
    var q := PathFacts(dir);
    MarkerShapes();
    Around(WRAPPER_MARKER, PathBlock(dir));
    Around(WRAPPER_END, PathBlock(dir));
  }

  /** Uninstalling later leaves what uninstalling before the block was appended would have left, and the block. */
  lemma {:induction false} StaysBehind(runs: seq<Run>, after: seq<Run>, t: string, dir: string)
    requires runs != [] && Usable(runs) && Usable(after) && NoLeftover(t) && Unmarked(dir)
    requires !Occurs(PATH_START, OnboardAll(runs, t))
    ensures var f := EnsurePath(Some(dir), OnboardAll(runs, t));
            RStripNewlines(Uninstall(OnboardAll(after, f))) + "\n"
            == Uninstall(OnboardAll(runs, t)) + "\n" + PathBlock(dir)
  {
    hide OnboardAll, Usable, NoLeftover, StripOtel, Occurs, PathBlock, Unmarked, UnwireWrapper, Front, EnsurePath,
         RStripNewlines;
    var a, q := Written(runs, t, dir);
    var p, f := PathBlock(dir), EnsurePath(Some(dir), OnboardAll(runs, t));
    BlockFree(dir);
    UnwireInFront(a, "\n" + p);
    UnwireInFront(a, "\n" + p + "\n");
    TailOfBlock(UnwireWrapper(a), p, q);
    if after == [] {
      NoRuns(f);
    } else {
      UninstallUndoes(after, f);
    }
  }

  /** Once appended the block is never appended again. */
  lemma {:induction false} StaysThere(runs: seq<Run>, after: seq<Run>, t: string, dir: string)
    requires runs != [] && Usable(runs) && Usable(after) && NoLeftover(t) && Unmarked(dir)
    requires !Occurs(PATH_START, OnboardAll(runs, t))
    ensures Occurs(PATH_START, OnboardAll(after, EnsurePath(Some(dir), OnboardAll(runs, t))))
  {
    hide OnboardAll, NoLeftover, StripOtel, Occurs, PathBlock, Unmarked, Front, EnsurePath, ReplaceBlocks, IsWrapper,
         IsPlainBlock;
    var a, q := Written(runs, t, dir);
    var p, f := PathBlock(dir), EnsurePath(Some(dir), OnboardAll(runs, t));
    if after == [] {
      NoRuns(f);
      BlockIsThere(f, runs, t, dir);
    } else {
      BlockFree(dir);
      UnwireInFront(a, "\n" + p + "\n");
      FileShape(after, f);
      MarkerInFront(a, "\n" + p + "\n");
      var b, w := after[|after| - 1].block, after[|after| - 1].wrapper;
      var r := Refreshed(WRAPPER_MARKER, WRAPPER_END, w, a);
      Regrouped(r, p, q, b);
      FoundWithin(r + "\n", q, "\n" + "\n" + b);
    }
  }

  lemma {:induction false} Regrouped(r: string, p: string, q: string, b: string)
    requires p == q + "\n"
    ensures r + ("\n" + p + "\n") + b == r + "\n" + q + ("\n" + "\n" + b)
  {}

  lemma {:induction false} NoRuns(f: string)
    ensures OnboardAll([], f) == f
  {}

  lemma {:induction false} BlockIsThere(f: string, runs: seq<Run>, t: string, dir: string)
    requires Unmarked(dir) && f == EnsurePath(Some(dir), OnboardAll(runs, t))
    ensures Occurs(PATH_START, f)
  {
    hide OnboardAll, Occurs, PathBlock;
    var q := PathFacts(dir);
    var f0 := OnboardAll(runs, t);
    if !Occurs(PATH_START, f0) {
      var x := f0 + (if Complete(f0) then "" else "\n") + "\n";
      FoundWithin(x, q, "\n");
      assert f == x + q + "\n";
    }
  }

  lemma {:induction false} FoundWithin(x: string, q: string, y: string)
    requires PATH_START <= q
    ensures Occurs(PATH_START, x + q + y)
  {
    assert (x + q + y)[|x|..] == q + y;
    OccursSuffix(PATH_START, x + q + y, |x|);
  }

  lemma {:induction false} TailNewlines(x: string)
    requires x != "" && x[|x| - 1] != '\n'
    ensures RStripNewlines(x + "\n") == x && RStripNewlines(x + "\n" + "\n") == x
  {
    RStripKeeps(x);
    assert x + "\n" + "\n" == x + "\n\n";
  }

  // ---------------------------------------------------------------------
  // Whole lives of a file
  // ---------------------------------------------------------------------

  lemma {:induction false} ShellOf(rs: seq<PathRun>, k: nat)
    requires k <= |rs|
    ensures Shell(rs[..k]) == Shell(rs)[..k] && Shell(rs[k..]) == Shell(rs)[k..]
    ensures UsableEach(rs) ==> Usable(Shell(rs[..k])) && Usable(Shell(rs[k..])) && UsableEach(rs[..k])
  {
    hide IsPlainBlock, IsWrapper, Unmarked;
    assert Shell(rs[..k]) == Shell(rs)[..k] && Shell(rs[k..]) == Shell(rs)[k..];
  }

  /** As long as no run appends the block the runs are those of the other results. */
  lemma {:induction false} NoneWrites(rs: seq<PathRun>, t: string)
    requires forall k :: 0 <= k < |rs| ==> !Writes(rs, t, k)
    ensures OnboardEach(rs, t) == OnboardAll(Shell(rs), t)
    decreases |rs|
  {
    hide Occurs, Onboard;
    if rs != [] {
      var n := |rs|;
      var before := rs[..n - 1];
      ShellOf(rs, n - 1);
      forall k | 0 <= k < n - 1 ensures !Writes(before, t, k) {
        assert before[..k + 1] == rs[..k + 1] && !Writes(rs, t, k);
      }
      NoneWrites(before, t);
      assert rs[..n] == rs && !Writes(rs, t, n - 1);
      LastRun(Shell(rs), t);
    } else {
      NoRuns(t);
    }
  }

  /** From the run that appends it on, it stands. */
  lemma {:induction false} OneWrites(rs: seq<PathRun>, t: string, k: nat, m: nat)
    requires k < m <= |rs| && UsableEach(rs) && NoLeftover(t)
    requires Writes(rs, t, k) && forall j :: 0 <= j < k ==> !Writes(rs, t, j)
    ensures OnboardEach(rs[..m], t)
         == OnboardAll(Shell(rs)[k + 1..m], EnsurePath(rs[k].missing, OnboardAll(Shell(rs[..k + 1]), t)))
    decreases m
  {
    hide Occurs, Onboard, NoLeftover, OnboardAll, IsPlainBlock, IsWrapper, Unmarked, PathBlock;
    var f := EnsurePath(rs[k].missing, OnboardAll(Shell(rs[..k + 1]), t));
    ShellOf(rs, k + 1);
    assert rs[..m][..m - 1] == rs[..m - 1] && rs[..m][m - 1] == rs[m - 1];
    var after := Shell(rs)[k + 1..m];
    if m == k + 1 {
      forall j | 0 <= j < k ensures !Writes(rs[..k], t, j) {
        assert rs[..k][..j + 1] == rs[..j + 1] && !Writes(rs, t, j);
      }
      NoneWrites(rs[..k], t);
      ShellOf(rs, k);
      LastRun(Shell(rs[..k + 1]), t);
      assert Shell(rs[..k + 1])[..k] == Shell(rs[..k]);
      assert after == [];
      NoRuns(f);
    } else {
      OneWrites(rs, t, k, m - 1);
      var before := Shell(rs)[k + 1..m - 1];
      assert after[..|after| - 1] == before && after[|after| - 1] == rs[m - 1].run;
      LastRun(after, f);
      UsablePart(Shell(rs), k + 1, m);
      StaysThere(Shell(rs[..k + 1]), after, t, rs[k].missing.value);
    }
  }

  lemma {:induction false} UsablePart(runs: seq<Run>, i: nat, j: nat)
    requires i <= j <= |runs| && Usable(runs)
    ensures Usable(runs[i..j])
  {}

  /**
   The block stays behind: where a run appends it, uninstalling leaves what uninstalling right before
   would have left, a blank line, and the block.
   */
  lemma {:induction false} PathBlockStays(rs: seq<PathRun>, t: string, k: nat)
    requires k < |rs| && UsableEach(rs) && NoLeftover(t)
    requires Writes(rs, t, k) && forall j :: 0 <= j < k ==> !Writes(rs, t, j)
    ensures RStripNewlines(Uninstall(OnboardEach(rs, t))) + "\n"
         == Uninstall(OnboardAll(Shell(rs[..k + 1]), t)) + "\n" + PathBlock(rs[k].missing.value)
  {
    hide Occurs, NoLeftover, OnboardAll, OnboardEach, IsPlainBlock, IsWrapper, Unmarked, PathBlock, Uninstall;
    assert rs[..|rs|] == rs && Shell(rs)[k + 1..|rs|] == Shell(rs)[k + 1..];
    OneWrites(rs, t, k, |rs|);
    ShellOf(rs, k + 1);
    StaysBehind(Shell(rs[..k + 1]), Shell(rs)[k + 1..], t, rs[k].missing.value);
  }

  // ---------------------------------------------------------------------
  // Which files come back
  // ---------------------------------------------------------------------

  /** The two other writers do not write the start marker of the block. */
  ghost predicate PathFree(runs: seq<Run>) {
    forall i :: 0 <= i < |runs| ==> !Occurs(PATH_START, runs[i].block) && !Occurs(PATH_START, runs[i].wrapper)
  }

  lemma {:induction false} MarkerOfOwn(runs: seq<Run>, t: string)
    requires runs != [] && Usable(runs) && PathFree(runs) && OtelFree(t + "\n") && !Occurs(WRAPPER_MARKER, t)
    ensures Occurs(PATH_START, OnboardAll(runs, t)) <==> Occurs(PATH_START, t)
  {
    hide Occurs, OnboardAll, StripOtel, IsPlainBlock, IsWrapper, NoLeftover, OtelFree, Front;
    var b, w := runs[|runs| - 1].block, runs[|runs| - 1].wrapper;
    var front, f := Front(t), OnboardAll(runs, t);
    Untouched(t);
    NotInPrefix(t);
    FileShape(runs, t);
    KeptShape("", t);
    FrontHolds(t);
    BlockFacts(b);
    WrapperFits(w);
    PathMarkers();
    HashLineAnchors(PATH_START);
    OccursNeedsHead(PATH_START, "\n");
    if f == front + b + "\n" + w {
      OccursSplit(PATH_START, front + b + "\n", w);
      OccursSplit(PATH_START, front + b, "\n");
      OccursSplit(PATH_START, front, b);
    } else {
      OccursSplit(PATH_START, front + "\n" + w + "\n", b);
      OccursSplit(PATH_START, front + "\n" + w, "\n");
      OccursSplit(PATH_START, front + "\n", w);
      OccursSplit(PATH_START, front, "\n");
    }
  }

  lemma {:induction false} FrontHolds(t: string)
    requires StripOtel(t) == t
    ensures Occurs(PATH_START, Front(t)) <==> Occurs(PATH_START, t)
    ensures Occurs(PATH_START, Bare(t)) <==> Occurs(PATH_START, t)
  {
    hide Occurs, StripOtel;
    PathMarkers();
    HashLineAnchors(PATH_START);
    OccursNeedsHead(PATH_START, "");
    if Blank(t) {
      if Occurs(PATH_START, t) {
        HasHash(PATH_START, t);
      }
    } else {
      var x := RStripNewlines(t);
      OccursInFront(PATH_START, x, "\n\n");
      HoldsStripped(t);
      KeptShape("", t);
    }
  }

  lemma {:induction false} HoldsStripped(t: string)
    ensures Occurs(PATH_START, RStripNewlines(t)) <==> Occurs(PATH_START, t)
  {
    hide Occurs;
    if t != "" && t[|t| - 1] == '\n' {
      var s := t[..|t| - 1];
      HoldsStripped(s);
      PathMarkers();
      HashLineAnchors(PATH_START);
      OccursInFront(PATH_START, s, "\n");
      assert t == s + "\n";
    }
  }

  /**
   A file without managed text comes back exactly, up to newlines at its end, if it holds the block's
   marker already or if `tj` is found on PATH in every run.
   */
  lemma {:induction false} ComesBackExactly(rs: seq<PathRun>, t: string)
    requires rs != [] && UsableEach(rs) && PathFree(Shell(rs))
    requires OtelFree(t + "\n") && !Occurs(WRAPPER_MARKER, t)
    ensures RStripNewlines(Uninstall(OnboardEach(rs, t))) == Bare(t)
       <==> Occurs(PATH_START, t) || forall k :: 0 <= k < |rs| ==> rs[k].missing == None
  {
    hide Occurs, OnboardAll, OnboardEach, Uninstall, IsPlainBlock, IsWrapper, Unmarked, OtelFree, NoLeftover, Bare,
         PathBlock, StripOtel;
    Untouched(t);
    FrontHolds(t);
    forall k | 0 <= k < |rs| ensures Writes(rs, t, k) <==> rs[k].missing.Some? && !Occurs(PATH_START, t) {
      ShellOf(rs, k + 1);
      MarkerOfOwn(Shell(rs[..k + 1]), t);
    }
    if Occurs(PATH_START, t) || forall k :: 0 <= k < |rs| ==> rs[k].missing == None {
      NoneWrites(rs, t);
      RoundTrip(Shell(rs), t);
    } else {
      var k := FirstMissing(rs);
      PathBlockStays(rs, t, k);
      ShellOf(rs, k + 1);
      var dir := rs[k].missing.value;
      var q := PathFacts(dir);
      var u, r := Uninstall(OnboardAll(Shell(rs[..k + 1]), t)), RStripNewlines(Uninstall(OnboardEach(rs, t)));
      assert r + "\n" == u + "\n" + q + "\n";
      assert r == (r + "\n")[..|r|] == u + "\n" + q;
      FoundWithin(u + "\n", q, "");
      assert u + "\n" + q + "" == r;
    }
  }

  lemma {:induction false} FirstMissing(rs: seq<PathRun>) returns (k: nat)
    requires exists k :: 0 <= k < |rs| && rs[k].missing != None
    ensures k < |rs| && rs[k].missing.Some? && forall j :: 0 <= j < k ==> rs[j].missing == None
  {
    if rs[0].missing.Some? {
      k := 0;
    } else {
      k := FirstMissing(rs[1..]);
      k := k + 1;
      assert forall j :: 1 <= j < k ==> rs[j] == rs[1..][j - 1];
    }
  }
}
