/**
 Whole runs of onboarding and uninstalling over one rc file.  Each of the two writers
 (OTEL block, `claude` wrapper) edits a file the other one wrote.
 */
module RcPipeline {
  import opened TextScan
  import opened Refresh
  import opened ShellRc

  /** What one run of onboarding writes: the OTEL block with the secret of the day, the wrapper of the release. */
  datatype Run = Run(block: string, wrapper: string)

  /** Several runs, one after the other. */
  function OnboardAll(runs: seq<Run>, t: string): string {
    if runs == [] then t
    else
      var last := runs[|runs| - 1];
      Onboard(last.block, last.wrapper, OnboardAll(runs[..|runs| - 1], t))
  }

  /** The text that stands in front of the OTEL block from the second run on. */
  function Settled(wrapper: string, t: string): string {
    if Occurs(WRAPPER_MARKER, Front(t))
    then ReplaceBlocks(WRAPPER_MARKER, WRAPPER_END, Newline, wrapper, Front(t))
    else Front(t) + "\n" + wrapper + "\n"
  }

  /** The first run of a file without a wrapper appends the wrapper after the OTEL block. */
  function AfterFirst(block: string, wrapper: string, t: string): string {
    if Occurs(WRAPPER_MARKER, Front(t)) then Settled(wrapper, t) + block
    else Front(t) + block + "\n" + wrapper
  }

  ghost predicate Usable(runs: seq<Run>) {
    forall i :: 0 <= i < |runs| ==> IsPlainBlock(runs[i].block) && IsWrapper(runs[i].wrapper)
  }

  /** The text kept from `t` has no OTEL marker line left in it. */
  predicate NoLeftover(t: string) { OtelFree(Kept(t) + "\n") }

  lemma {:induction false} WrapperFits(w: string)
    requires IsWrapper(w)
    ensures Fits(WRAPPER_MARKER, WRAPPER_END, w) && Complete(w) && Tidy(w) && OtelFree(w) && !Blank(w)
    ensures Count(WRAPPER_MARKER, w) == 1 && Occurs(WRAPPER_MARKER, w)
  {
    var body := WrapperFacts(w);
    MarkerShapes();
    CountZero(WRAPPER_MARKER, w);
  }

  /** The wrapper is refreshed in front of the block and the block itself is left alone. */
  lemma {:induction false} RefreshFront(a: string, block: string, w: string)
    requires Complete(a) && IsPlainBlock(block) && IsWrapper(w)
    ensures ReplaceBlocks(WRAPPER_MARKER, WRAPPER_END, Newline, w, a + block)
         == ReplaceBlocks(WRAPPER_MARKER, WRAPPER_END, Newline, w, a) + block
  {
    BlockFacts(block);
    MarkerShapes();
    HashLineAnchors(WRAPPER_MARKER);
    FindEndNeedsMarker(WRAPPER_END, Newline, block);
    ReplaceSplit(WRAPPER_MARKER, WRAPPER_END, Newline, w, a, block);
  }

  lemma {:induction false} MarkerInFront(a: string, b: string)
    requires Complete(a)
    ensures Occurs(WRAPPER_MARKER, a + b) <==> Occurs(WRAPPER_MARKER, a) || Occurs(WRAPPER_MARKER, b)
  {
    MarkersAreAnchors();
    OccursSplit(WRAPPER_MARKER, a, b);
  }

  lemma {:induction false} Appends(x: string, w: string)
    requires Complete(x) && !Occurs(WRAPPER_MARKER, x)
    ensures InstallWrapper(w, x) == x + "\n" + w
  {
    assert x + "" + "\n" + w == x + "\n" + w;
  }

  lemma {:induction false} FirstRun(block: string, w: string, t: string)
    requires IsPlainBlock(block) && IsWrapper(w)
    ensures Onboard(block, w, t) == AfterFirst(block, w, t)
  {
    KeptShape(block, t);
    BlockFacts(block);
    MarkerInFront(Front(t), block);
    if Occurs(WRAPPER_MARKER, Front(t)) {
      RefreshFront(Front(t), block, w);
    } else {
      assert Complete(Front(t) + block);
      Appends(Front(t) + block, w);
    }
  }

  // ---------------------------------------------------------------------
  // Where the text settles
  // ---------------------------------------------------------------------

  /** Text in front of the block that a further run changes in its wrapper only. */
  ghost predicate Stable(a: string) {
    && Complete(a) && OtelFree(a) && Occurs(WRAPPER_MARKER, a) && !Blank(a)
    && RStripNewlines(a) + "\n\n" == a
  }

  lemma {:induction false} StableRun(w: string, a: string, b1: string, b2: string)
    requires IsWrapper(w) && Stable(a) && IsPlainBlock(b1) && IsPlainBlock(b2)
    ensures Onboard(b2, w, a + b1) == Refreshed(WRAPPER_MARKER, WRAPPER_END, w, a) + b2
  {
    hide StripOtel, Occurs, OtelFree, IsPlainBlock, IsWrapper, ReplaceBlocks;
    StripSettled(a, b1);
    RStripBlank(a);
    MarkerInFront(a, b2);
    RefreshFront(a, b2, w);
  }

  lemma {:induction false} OneNewlineStripped(x: string)
    requires Tidy(x)
    ensures RStripNewlines(x + "\n") + "\n\n" == x + "\n"
  {
    var y := x[..|x| - 1];
    assert x == y + "\n" && x + "\n" == y + "\n\n";
    RStripKeeps(y);
  }

  lemma {:induction false} TidySum(a: string, b: string)
    requires Tidy(b)
    ensures Tidy(a + b)
  {}

  lemma {:induction false} NotBlankSum(a: string, b: string)
    requires !Blank(b)
    ensures !Blank(a + b)
  {
    var k :| 0 <= k < |b| && !IsSpace(b[k]);
    assert (a + b)[|a| + k] == b[k];
  }

  /** With no wrapper to begin with. */
  lemma {:induction false} FreshSettles(w: string, front: string)
    requires IsWrapper(w) && Complete(front) && OtelFree(front) && !Occurs(WRAPPER_MARKER, front)
    ensures Stable(front + "\n" + w + "\n")
  {
    WrapperFits(w);
    var a := front + "\n" + w + "\n";
    NewlineIsFree();
    OtelFreeSplit(front, "\n");
    OtelFreeSplit(front + "\n", w);
    OtelFreeSplit(front + "\n" + w, "\n");
    MarkerInFront(front, "\n");
    MarkerInFront(front + "\n", w);
    MarkerInFront(front + "\n" + w, "\n");
    NotBlankSum(front + "\n", w);
    assert Blank(a) ==> Blank(front + "\n" + w) by {
      assert forall k :: 0 <= k < |front + "\n" + w| ==> a[k] == (front + "\n" + w)[k];
    }
    TidySum(front + "\n", w);
    OneNewlineStripped(front + "\n" + w);
  }

  /** With a wrapper, closed or not, already in the kept text. */
  lemma {:induction false} RefreshedSettles(w: string, x: string)
    requires IsWrapper(w) && Tidy(x) && OtelFree(x) && Occurs(WRAPPER_MARKER, x)
    ensures Stable(ReplaceBlocks(WRAPPER_MARKER, WRAPPER_END, Newline, w, x + "\n"))
  {
    WrapperFits(w);
    MarkerShapes();
    MarkersDiffer();
    HashLineAnchors(WRAPPER_MARKER);
    HashLineAnchors(WRAPPER_END);
    var y := Refreshed(WRAPPER_MARKER, WRAPPER_END, w, x);
    var a := Refreshed(WRAPPER_MARKER, WRAPPER_END, w, x + "\n");
    OccursNeedsHead(WRAPPER_MARKER, "\n");
    OccursNeedsHead(WRAPPER_END, "\n");
    FindEndNeedsMarker(WRAPPER_END, Newline, "\n");
    ReplaceSplit(WRAPPER_MARKER, WRAPPER_END, Newline, w, x, "\n");
    assert a == y + "\n";
    StaysTidy(WRAPPER_MARKER, WRAPPER_END, w, x);
    OneNewlineStripped(y);
    NoNewMarkerLine(WRAPPER_MARKER, WRAPPER_END, w, OTEL_START, x);
    NoNewMarkerLine(WRAPPER_MARKER, WRAPPER_END, w, LEGACY_TJ, x);
    NoNewMarkerLine(WRAPPER_MARKER, WRAPPER_END, w, LEGACY_OCW, x);
    NewlineIsFree();
    OtelFreeSplit(y, "\n");
    MarkerCount(WRAPPER_MARKER, WRAPPER_END, w, x);
    MarkerInFront(y, "\n");
    HasHash(WRAPPER_MARKER, a);
  }

  lemma {:induction false} HasHash(m: string, t: string)
    requires HashLine(m) && Occurs(m, t)
    ensures !Blank(t)
  {
    if Blank(t) {
      assert forall k :: 0 <= k < |t| ==> IsSpace(t[k]);
      assert !IsSpace('#');
      assert '#' !in t;
      OccursNeedsHead(m, t);
    }
  }

  lemma {:induction false} SettledIsStable(w: string, t: string)
    requires IsWrapper(w) && NoLeftover(t)
    ensures Stable(Settled(w, t))
  {
    hide StripOtel, Stable, Kept, Occurs, OtelFree, IsWrapper;
    KeptShape("", t);
    if Occurs(WRAPPER_MARKER, Front(t)) {
      MarkerShapes();
      HasHash(WRAPPER_MARKER, Front(t));
      var x := Kept(t) + "\n";
      assert Front(t) == x + "\n";
      MarkerInFront(x, "\n");
      OccursNeedsHead(WRAPPER_MARKER, "\n");
      RefreshedSettles(w, x);
    } else {
      FreshSettles(w, Front(t));
    }
  }

  /** Refreshing the settled text with another wrapper gives the text settled with that one. */
  lemma {:induction false} SettledAgain(w: string, v: string, t: string)
    requires IsWrapper(w) && IsWrapper(v)
    ensures Refreshed(WRAPPER_MARKER, WRAPPER_END, v, Settled(w, t)) == Settled(v, t)
  {
    hide StripOtel, Kept, Occurs, IsWrapper, ReplaceBlocks;
    var front := Front(t);
    KeptShape("", t);
    WrapperFits(w);
    WrapperFits(v);
    if Occurs(WRAPPER_MARKER, front) {
      RefreshTwice(WRAPPER_MARKER, WRAPPER_END, w, v, front);
    } else {
      OccursNeedsHead(WRAPPER_MARKER, "\n");
      MarkerInFront(front, "\n");
      RemoveBetween(WRAPPER_MARKER, WRAPPER_END, w, v, front + "\n", "\n");
    }
  }

  /** The second run, from a file that had no wrapper, moves the OTEL block past the wrapper. */
  lemma {:induction false} SecondRun(r1: Run, r2: Run, t: string)
    requires Usable([r1, r2]) && NoLeftover(t)
    ensures Onboard(r2.block, r2.wrapper, AfterFirst(r1.block, r1.wrapper, t)) == Settled(r2.wrapper, t) + r2.block
  {
    hide IsPlainBlock, IsWrapper, NoLeftover, Onboard, Settled, Occurs;
    assert [r1, r2][0] == r1 && [r1, r2][1] == r2;
    SettledIsStable(r1.wrapper, t);
    SettledAgain(r1.wrapper, r2.wrapper, t);
    if Occurs(WRAPPER_MARKER, Front(t)) {
      StableRun(r2.wrapper, Settled(r1.wrapper, t), r1.block, r2.block);
    } else {
      MovesBlock(r1, r2, t);
    }
  }

  lemma {:induction false} MovesBlock(r1: Run, r2: Run, t: string)
    requires IsPlainBlock(r1.block) && IsWrapper(r1.wrapper) && IsPlainBlock(r2.block) && IsWrapper(r2.wrapper)
    requires NoLeftover(t) && !Occurs(WRAPPER_MARKER, Front(t))
    ensures Onboard(r2.block, r2.wrapper, Front(t) + r1.block + "\n" + r1.wrapper) == Settled(r2.wrapper, t) + r2.block
  {
    hide IsPlainBlock, IsWrapper, Occurs, StripOtel, Kept, Front, ReplaceBlocks, OtelFree;
    var front, w := Front(t), r1.wrapper;
    var c := front + "\n" + w;
    KeptShape("", t);
    StripFirst(r1.block, w, front);
    WrapperFits(w);
    NotBlankSum(front + "\n", w);
    TidySum(front + "\n", w);
    OneNewlineStripped(c);
    RStripAppend(c);
    assert WriteOtel(r2.block, front + r1.block + "\n" + w) == c + "\n" + r2.block;
    assert Settled(w, t) == c + "\n";
    SettledIsStable(w, t);
    SettledAgain(w, r2.wrapper, t);
    MarkerInFront(c + "\n", r2.block);
    RefreshFront(c + "\n", r2.block, r2.wrapper);
  }

  /**
   Convergence.  From the second run on the file is the text settled with the latest wrapper,
   followed by the latest block: nothing but the content of these two ever changes again.
   */
  lemma {:induction false} Converges(runs: seq<Run>, t: string)
    requires |runs| >= 2 && Usable(runs) && NoLeftover(t)
    ensures var last := runs[|runs| - 1];
            OnboardAll(runs, t) == Settled(last.wrapper, t) + last.block
    decreases |runs|
  {
    hide OnboardAll, Onboard, Settled, IsPlainBlock, IsWrapper, NoLeftover;
    var n := |runs|;
    var before, last := runs[..n - 1], runs[n - 1];
    assert before[n - 2] == runs[n - 2];
    LastRun(runs, t);
    if n == 2 {
      OneRun(before, t);
      FirstRun(before[0].block, before[0].wrapper, t);
      SecondRun(before[0], last, t);
    } else {
      Converges(before, t);
      LaterRun(before[n - 2], last, t);
    }
  }

  lemma {:induction false} LastRun(runs: seq<Run>, t: string)
    requires runs != []
    ensures var last := runs[|runs| - 1];
            OnboardAll(runs, t) == Onboard(last.block, last.wrapper, OnboardAll(runs[..|runs| - 1], t))
  {}

  lemma {:induction false} LaterRun(r1: Run, r2: Run, t: string)
    requires IsPlainBlock(r1.block) && IsWrapper(r1.wrapper) && IsPlainBlock(r2.block) && IsWrapper(r2.wrapper)
    requires NoLeftover(t)
    ensures Onboard(r2.block, r2.wrapper, Settled(r1.wrapper, t) + r1.block) == Settled(r2.wrapper, t) + r2.block
  {
    hide Settled, IsPlainBlock, IsWrapper, NoLeftover, Onboard;
    SettledIsStable(r1.wrapper, t);
    SettledAgain(r1.wrapper, r2.wrapper, t);
    StableRun(r2.wrapper, Settled(r1.wrapper, t), r1.block, r2.block);
  }

  lemma {:induction false} OneRun(runs: seq<Run>, t: string)
    requires |runs| == 1
    ensures OnboardAll(runs, t) == Onboard(runs[0].block, runs[0].wrapper, t)
  {
    assert runs[..0] == [];
  }

  /** The file the second run leaves is a fixed point of all later runs that write the same. */
  lemma {:induction false} FixedPoint(r1: Run, r2: Run, t: string)
    requires Usable([r1, r2]) && NoLeftover(t)
    ensures var twice := OnboardAll([r1, r2], t); Onboard(r2.block, r2.wrapper, twice) == twice
  {
    hide OnboardAll, Settled, IsPlainBlock, IsWrapper, NoLeftover, Onboard;
    assert [r1, r2][1] == r2;
    Converges([r1, r2], t);
    LaterRun(r2, r2, t);
  }

  // ---------------------------------------------------------------------
  // Uninstalling
  // ---------------------------------------------------------------------

  lemma {:induction false} UnwireEqualsRemoval(t: string)
    ensures UnwireWrapper(t) == ReplaceBlocks(WRAPPER_MARKER, WRAPPER_END, NewlineOrEnd, "", t)
  {
    MarkersAreAnchors();
    if !Occurs(WRAPPER_MARKER, t) {
      CopyAll(WRAPPER_MARKER, WRAPPER_END, NewlineOrEnd, "", t);
    }
  }

  lemma {:induction false} RemoveFresh(w: string, front: string, rest: string)
    requires IsWrapper(w) && Complete(front) && !Occurs(WRAPPER_MARKER, front) && !Occurs(WRAPPER_MARKER, rest)
    ensures UnwireWrapper(front + "\n" + w + rest) == front + "\n" + rest
  {
    WrapperFits(w);
    OccursNeedsHead(WRAPPER_MARKER, "\n");
    MarkerInFront(front, "\n");
    UnwireEqualsRemoval(front + "\n" + w + rest);
    RemoveBetween(WRAPPER_MARKER, WRAPPER_END, w, w, front + "\n", rest);
  }

  lemma {:induction false} RStripTwo(t: string)
    ensures RStripNewlines(t + "\n") == RStripNewlines(t)
    ensures RStripNewlines(t + "\n" + "\n") == RStripNewlines(t)
  {
    RStripAppend(t);
    RStripAppend(t + "\n");
  }

  /** The file after any number of runs, by what is kept from it. */
  lemma {:induction false} FileShape(runs: seq<Run>, t: string)
    requires runs != [] && Usable(runs) && NoLeftover(t)
    ensures var b, w := runs[|runs| - 1].block, runs[|runs| - 1].wrapper;
            var f := OnboardAll(runs, t);
            && IsPlainBlock(b) && IsWrapper(w)
            && (Occurs(WRAPPER_MARKER, Front(t)) ==> f == Settled(w, t) + b)
            && (!Occurs(WRAPPER_MARKER, Front(t)) ==>
                  f == Front(t) + b + "\n" + w || f == Front(t) + "\n" + w + "\n" + b)
  {
    hide OnboardAll, IsPlainBlock, IsWrapper, NoLeftover;
    if |runs| == 1 {
      OneRun(runs, t);
      FirstRun(runs[0].block, runs[0].wrapper, t);
    } else {
      Converges(runs, t);
    }
  }

  lemma {:induction false} NothingToUnwire(t: string)
    requires !Occurs(WRAPPER_MARKER, t)
    ensures UnwireWrapper(t) == t
  {}

  /**
   Onboarding any number of times and then uninstalling is the same, up to trailing
   newlines, as unwiring the kept text directly.
   */
  lemma {:induction false} UninstallUndoes(runs: seq<Run>, t: string)
    requires runs != [] && Usable(runs) && NoLeftover(t)
    ensures RStripNewlines(Uninstall(OnboardAll(runs, t))) == RStripNewlines(UnwireWrapper(Front(t)))
  {
    hide OnboardAll, IsPlainBlock, IsWrapper, OtelFree, Kept, Uninstall, UnwireWrapper, Occurs, RStripNewlines;
    var b, w := runs[|runs| - 1].block, runs[|runs| - 1].wrapper;
    var front, f := Front(t), OnboardAll(runs, t);
    FileShape(runs, t);
    KeptShape("", t);
    hide Front;
    if Occurs(WRAPPER_MARKER, front) {
      SettledIsStable(w, t);
      UninstallRefreshed(b, w, front, Settled(w, t));
    } else {
      hide Settled;
      NothingToUnwire(front);
      RStripTwo(front);
      if f == front + b + "\n" + w {
        UninstallFirst(b, w, front);
      } else {
        UninstallSettled(b, w, front);
      }
    }
  }

  lemma {:induction false} UninstallRefreshed(b: string, w: string, front: string, a: string)
    requires IsPlainBlock(b) && IsWrapper(w) && Complete(front)
    requires a == ReplaceBlocks(WRAPPER_MARKER, WRAPPER_END, Newline, w, front) && Complete(a) && OtelFree(a)
    ensures Uninstall(a + b) == UnwireWrapper(front)
  {
    hide StripOtel, IsPlainBlock, UnwireWrapper, OtelFree;
    StripSettled(a, b);
    WrapperFits(w);
    MarkersAreAnchors();
    RemoveRefreshed(WRAPPER_MARKER, WRAPPER_END, w, front);
    UnwireEqualsRemoval(a);
    UnwireEqualsRemoval(front);
    SameRemoval(front);
  }

  lemma {:induction false} UninstallSettled(b: string, w: string, front: string)
    requires IsPlainBlock(b) && IsWrapper(w)
    requires Complete(front) && OtelFree(front) && !Occurs(WRAPPER_MARKER, front)
    ensures Uninstall(front + "\n" + w + "\n" + b) == front + "\n" + "\n"
  {
    hide StripOtel, IsPlainBlock, IsWrapper, Occurs, OtelFree, UnwireWrapper;
    FreshSettles(w, front);
    StripSettled(front + "\n" + w + "\n", b);
    OccursNeedsHead(WRAPPER_MARKER, "\n");
    RemoveFresh(w, front, "\n");
  }

  lemma {:induction false} StripSettled(a: string, b: string)
    requires Complete(a) && OtelFree(a) && IsPlainBlock(b)
    ensures StripOtel(a + b) == a
  {
    BlockFacts(b);
    NewlineIsFree();
    StripBlock(a, b, "");
    assert a + b + "" == a + b && a + "" == a;
  }

  lemma {:induction false} UninstallFirst(b: string, w: string, front: string)
    requires IsPlainBlock(b) && IsWrapper(w)
    requires Complete(front) && OtelFree(front) && !Occurs(WRAPPER_MARKER, front)
    ensures Uninstall(front + b + "\n" + w) == front + "\n"
  {
    StripFirst(b, w, front);
    OccursNeedsHead(WRAPPER_MARKER, "");
    RemoveFresh(w, front, "");
    assert front + "\n" + w + "" == front + "\n" + w;
    assert front + "\n" + "" == front + "\n";
  }

  lemma {:induction false} StripFirst(b: string, w: string, front: string)
    requires IsPlainBlock(b) && IsWrapper(w)
    requires Complete(front) && OtelFree(front)
    ensures StripOtel(front + b + "\n" + w) == front + "\n" + w
  {
    hide StripOtel, OtelFree, Occurs;
    BlockFacts(b);
    WrapperFits(w);
    NewlineIsFree();
    OtelFreeSplit("\n", w);
    StripBlock(front, b, "\n" + w);
    assert front + b + "\n" + w == front + b + ("\n" + w);
    assert front + ("\n" + w) == front + "\n" + w;
  }

  lemma {:induction false} SameRemoval(t: string)
    requires Complete(t)
    ensures ReplaceBlocks(WRAPPER_MARKER, WRAPPER_END, Newline, "", t)
         == ReplaceBlocks(WRAPPER_MARKER, WRAPPER_END, NewlineOrEnd, "", t)
  {
    MarkersAreAnchors();
    MarkerShapes();
    HashLineAnchors(WRAPPER_END);
    ReplaceSplit(WRAPPER_MARKER, WRAPPER_END, NewlineOrEnd, "", t, "");
    assert t + "" == t;
  }

  /**
   Onboarding n >= 1 times with any secrets and uninstalling leaves what stripping alone leaves,
   up to trailing newlines, if no wrapper was there before.
   */
  lemma {:induction false} UninstallLeavesStripped(runs: seq<Run>, t: string)
    requires runs != [] && Usable(runs)
    requires NoLeftover(t) && !Occurs(WRAPPER_MARKER, StripOtel(t))
    ensures RStripNewlines(Uninstall(OnboardAll(runs, t))) == Kept(t)
  {
    hide Uninstall, OnboardAll, UnwireWrapper, StripOtel, Occurs, NoLeftover;
    NotInPrefix(t);
    UninstallUndoes(runs, t);
    KeptShape("", t);
  }

  /**
   The round trip.  For a file without managed text, onboarding n >= 1 times with any
   secrets and uninstalling gives back the file up to trailing newlines; a file of nothing
   but white space becomes empty up to newlines.
   */
  lemma {:induction false} RoundTrip(runs: seq<Run>, t: string)
    requires runs != [] && Usable(runs)
    requires OtelFree(t + "\n") && !Occurs(WRAPPER_MARKER, t)
    ensures RStripNewlines(Uninstall(OnboardAll(runs, t))) == Bare(t)
  {
    Untouched(t);
    UninstallLeavesStripped(runs, t);
  }

  /** A file without managed text is kept as it is, up to trailing newlines. */
  lemma {:induction false} Untouched(t: string)
    requires OtelFree(t + "\n")
    ensures StripOtel(t) == t && NoLeftover(t)
  {
    var u := t + "\n";
    assert u[..|t|] == t;
    FreeOfPrefix(OTEL_START + "\n", u, |t|);
    FreeOfPrefix(LEGACY_TJ + "\n", u, |t|);
    FreeOfPrefix(LEGACY_OCW + "\n", u, |t|);
    StripNothing(t);
    RStripShape(t);
    NewlineIsFree();
    if !Blank(t) {
      var k := |Kept(t)|;
      StrippedTail(t);
      assert Kept(t) + "\n" == u[..k + 1];
      FreeOfPrefix(OTEL_START + "\n", u, k + 1);
      FreeOfPrefix(LEGACY_TJ + "\n", u, k + 1);
      FreeOfPrefix(LEGACY_OCW + "\n", u, k + 1);
    } else {
      assert Kept(t) + "\n" == "\n";
    }
  }

  lemma {:induction false} StrippedTail(t: string)
    ensures var k := |RStripNewlines(t)|; k <= |t| && (t + "\n")[k] == '\n'
  {
    RStripShape(t);
    if t != [] && t[|t| - 1] == '\n' {
      StrippedTail(t[..|t| - 1]);
    }
  }

  lemma {:induction false} NotInPrefix(t: string)
    requires !Occurs(WRAPPER_MARKER, StripOtel(t))
    ensures !Occurs(WRAPPER_MARKER, Front(t)) && UnwireWrapper(Front(t)) == Front(t)
  {
    hide StripOtel, Occurs;
    var u := StripOtel(t);
    RStripShape(u);
    OccursNeedsHead(WRAPPER_MARKER, "");
    if !Blank(u) {
      FreeOfPrefix(WRAPPER_MARKER, u, |Kept(t)|);
      assert u[..|Kept(t)|] == Kept(t);
      NoMarkerAfterNewlines(Kept(t));
    }
  }

  lemma {:induction false} NoMarkerAfterNewlines(x: string)
    requires !Occurs(WRAPPER_MARKER, x)
    ensures !Occurs(WRAPPER_MARKER, x + "\n\n")
  {
    MarkerShapes();
    HashLineAnchors(WRAPPER_MARKER);
    OccursInFront(WRAPPER_MARKER, x, "\n\n");
  }
}
