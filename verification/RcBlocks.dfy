/** How many blocks of each kind an rc file holds after onboarding (tokenjam/cli/cmd_onboard.py). */
module RcBlocks {
  import opened Prelude
  import opened TextScan
  import opened Refresh
  import opened ShellRc
  import opened RcPipeline

  /** The closed blocks that a left-to-right scan finds. */
  function Blocks(s: string, e: string, t: string): nat
    requires s != []
    decreases |t|
  {
    if t == [] then 0
    else match BlockHere(s, e, Newline, t)
      case Some(n) => 1 + Blocks(s, e, t[n..])
      case None => Blocks(s, e, t[1..])
  }

  // ---------------------------------------------------------------------
  // Counting whole blocks
  // ---------------------------------------------------------------------

  lemma {:induction false} CountLonger(p: string, q: string, t: string)
    requires p <= q
    ensures Count(q, t) <= Count(p, t)
  {
    if t != [] {
      CountLonger(p, q, t[1..]);
    }
  }

  lemma {:induction false} CountInside(p: string, a: string, c: string)
    requires p != []
    ensures Count(p, a + p + c) >= 1
  {
    if a == [] {
      assert p <= a + p + c;
    } else {
      assert (a + p + c)[1..] == a[1..] + p + c;
      CountInside(p, a[1..], c);
    }
  }

  /** A block with one start marker overlaps no later copy of itself. */
  lemma {:induction false} CountBehind(s: string, e: string, w: string, x: string, k: nat)
    requires Fits(s, e, w) && Count(s, w) == 1 && 0 < k <= |w|
    ensures Count(w, w[k..] + x) == Count(w, x)
    decreases |w| - k
  {
    hide Fits;
    FitsIsComplete(s, e, w);
    MarkerAnchors(s, e, w);
    var t := w[k..] + x;
    if k == |w| {
      assert t == x;
    } else {
      assert t[1..] == w[k + 1..] + x;
      CountBehind(s, e, w, x, k + 1);
      LineBound(s, w[k..], x);
      if w <= t {
        assert s <= t;
        CountFromHere(s, w, k);
        HereCounts(s, w[k..]);
      }
    }
  }

  lemma {:induction false} HereCounts(p: string, t: string)
    requires p <= t && t != []
    ensures Count(p, t) >= 1
  {}

  lemma {:induction false} MarkerAnchors(s: string, e: string, w: string)
    requires Fits(s, e, w)
    ensures Anchor(s) && s != [] && w != [] && OneLine(e) && e != []
  {
    HashLineAnchors(s);
    HashLineAnchors(e);
  }

  lemma {:induction false} CountOwn(s: string, e: string, w: string, x: string)
    requires Fits(s, e, w) && Count(s, w) == 1
    ensures Count(w, w + x) == 1 + Count(w, x)
  {
    hide Fits;
    MarkerAnchors(s, e, w);
    CountBehind(s, e, w, x, 1);
    assert (w + x)[1..] == w[1..] + x;
  }

  /** Refreshing leaves as many copies of the new block as there were closed blocks. */
  lemma {:induction false} CountRefreshed(s: string, e: string, w: string, t: string)
    requires Fits(s, e, w) && Count(s, w) == 1
    ensures Count(w, Refreshed(s, e, w, t)) == Blocks(s, e, t)
    decreases |t|
  {
    hide Fits, BlockHere, ReplaceBlocks;
    MarkerAnchors(s, e, w);
    EmptyStays(s, e, w);
    var r := Refreshed(s, e, w, t);
    if t != [] {
      match BlockHere(s, e, Newline, t) {
        case Some(n) =>
          StepBlock(s, e, Newline, w, t, n);
          CountRefreshed(s, e, w, t[n..]);
          CountOwn(s, e, w, Refreshed(s, e, w, t[n..]));
        case None =>
          StepChar(s, e, Newline, w, t);
          CountRefreshed(s, e, w, t[1..]);
          assert r[1..] == Refreshed(s, e, w, t[1..]);
          NoneHere(s, e, w, t);
      }
    }
  }

  lemma {:induction false} NoneHere(s: string, e: string, w: string, t: string)
    requires Fits(s, e, w) && BlockHere(s, e, Newline, t) == None
    ensures !(w <= Refreshed(s, e, w, t))
  {
    hide BlockHere, ReplaceBlocks;
    FitsIsComplete(s, e, w);
    MarkerAnchors(s, e, w);
    if w <= Refreshed(s, e, w, t) {
      HashIsOneLine(s);
      PrefixBack(s, e, w, s, t);
      NothingCloses(s, e, w, t);
      var body :| IsBody(e, body) && w == Block(s, body, e);
      assert t == w + t[|w|..];
      BlockFound(s, e, Newline, body, t[|w|..]);
    }
  }

  lemma {:induction false} HashIsOneLine(s: string)
    requires HashLine(s)
    ensures OneLine(s)
  {}

  lemma {:induction false} NoMarkerNoBlock(s: string, e: string, t: string)
    requires s != [] && !Occurs(s, t)
    ensures Blocks(s, e, t) == 0
  {
    if t != [] {
      NoMarkerNoBlock(s, e, t[1..]);
    }
  }

  /** Text without markers after whole lines has no part in a block. */
  lemma {:induction false} BlocksSplit(s: string, e: string, a: string, b: string)
    requires Anchor(s) && e != [] && OneLine(e)
    requires Complete(a) && !Occurs(s, b) && FindEnd(e, Newline, b) == None
    ensures Blocks(s, e, a + b) == Blocks(s, e, a)
    decreases |a|
  {
    hide BlockHere, Occurs, FindEnd;
    if a == [] {
      assert a + b == b;
      NoMarkerNoBlock(s, e, b);
    } else {
      BlockHereSplit(s, e, Newline, a, b);
      match BlockHere(s, e, Newline, a) {
        case Some(n) =>
          assert (a + b)[n..] == a[n..] + b;
          BlocksSplit(s, e, a[n..], b);
        case None =>
          assert (a + b)[1..] == a[1..] + b;
          BlocksSplit(s, e, a[1..], b);
      }
    }
  }

  // ---------------------------------------------------------------------
  // One block of each kind
  // ---------------------------------------------------------------------

  lemma {:induction false} FreshCount(w: string, front: string)
    requires IsWrapper(w) && Complete(front) && !Occurs(WRAPPER_MARKER, front)
    ensures Count(WRAPPER_MARKER, front + "\n" + w + "\n") == 1
    ensures Count(WRAPPER_MARKER, "\n" + w) == 1
  {
    hide Count, Occurs;
    WrapperFits(w);
    MarkersAreAnchors();
    CountZero(WRAPPER_MARKER, front);
    OccursNeedsHead(WRAPPER_MARKER, "\n");
    CountZero(WRAPPER_MARKER, "\n");
    CountSplit(WRAPPER_MARKER, front, "\n");
    CountSplit(WRAPPER_MARKER, front + "\n", w);
    CountSplit(WRAPPER_MARKER, front + "\n" + w, "\n");
    CountSplit(WRAPPER_MARKER, "\n", w);
  }

  lemma {:induction false} FirstCounts(b: string, w: string, front: string)
    requires IsPlainBlock(b) && IsWrapper(w)
    requires Complete(front) && OtelFree(front) && !Occurs(WRAPPER_MARKER, front)
    ensures Count(OTEL_START + "\n", front + b + "\n" + w) == 1
    ensures Count(WRAPPER_MARKER, front + b + "\n" + w) == 1
  {
    hide Count, Occurs;
    BlockFacts(b);
    MarkersAreAnchors();
    assert OtelFree("\n" + w) by {
      WrapperFits(w);
      NewlineIsFree();
      OtelFreeSplit("\n", w);
    }
    FreshCount(w, front);
    assert front + b + "\n" + w == front + b + ("\n" + w);
    FrontCounts(front, b, "\n" + w);
  }

  lemma {:induction false} FrontCounts(a: string, b: string, c: string)
    requires Complete(a) && OtelFree(a) && !Occurs(WRAPPER_MARKER, a)
    requires Complete(b) && Count(OTEL_START + "\n", b) == 1 && !Occurs(WRAPPER_MARKER, b)
    requires OtelFree(c)
    ensures Count(OTEL_START + "\n", a + b + c) == 1
    ensures Count(WRAPPER_MARKER, a + b + c) == Count(WRAPPER_MARKER, c)
  {
    MarkersAreAnchors();
    CountThree(OTEL_START + "\n", a, b, c);
    CountThree(WRAPPER_MARKER, a, b, c);
    CountZero(OTEL_START + "\n", a);
    CountZero(OTEL_START + "\n", c);
    CountZero(WRAPPER_MARKER, a);
    CountZero(WRAPPER_MARKER, b);
  }

  lemma {:induction false} CountThree(m: string, a: string, b: string, c: string)
    requires Anchor(m) && Complete(a) && Complete(b)
    ensures Count(m, a + b + c) == Count(m, a) + Count(m, b) + Count(m, c)
  {
    CountSplit(m, b, c);
    CountSplit(m, a, b + c);
    assert a + b + c == a + (b + c);
  }

  lemma {:induction false} FrontFacts(t: string)
    requires NoLeftover(t)
    ensures Complete(Front(t)) && OtelFree(Front(t))
  {
    KeptShape("", t);
  }

  /** One OTEL block, the latest, after every run. */
  lemma {:induction false} OneOtelBlock(runs: seq<Run>, t: string)
    requires runs != [] && Usable(runs) && NoLeftover(t)
    ensures var f := OnboardAll(runs, t);
            Count(OTEL_START + "\n", f) == 1 && Count(runs[|runs| - 1].block, f) == 1
  {
    hide OnboardAll, IsPlainBlock, IsWrapper, NoLeftover, Settled, Count, Occurs;
    var b, w, f := runs[|runs| - 1].block, runs[|runs| - 1].wrapper, OnboardAll(runs, t);
    FileShape(runs, t);
    FrontFacts(t);
    if Occurs(WRAPPER_MARKER, Front(t)) {
      SettledIsClear(w, t);
      OneAtEnd(Settled(w, t), b);
    } else if f == Front(t) + b + "\n" + w {
      OneInFront(b, w, Front(t));
    } else {
      FreshIsClear(w, Front(t));
      OneAtEnd(Front(t) + "\n" + w + "\n", b);
    }
  }

  /**
   After the first run, of any file, there is one OTEL block exactly when the text that stays in
   front of it holds no start marker.
   */
  lemma {:induction false} FirstOtelBlock(r: Run, t: string)
    requires IsPlainBlock(r.block) && IsWrapper(r.wrapper)
    ensures Count(OTEL_START + "\n", Onboard(r.block, r.wrapper, t)) == 1
       <==> !Occurs(OTEL_START + "\n", Settled(r.wrapper, t))
  {
    hide Count, Occurs, IsPlainBlock, IsWrapper, Onboard, ReplaceBlocks, Front, OtelFree;
    var b, w, front := r.block, r.wrapper, Front(t);
    FirstRun(b, w, t);
    KeptShape(b, t);
    CountZero(OTEL_START + "\n", Settled(w, t));
    if Occurs(WRAPPER_MARKER, front) {
      WholeRefreshed(w, front);
      BehindText(Settled(w, t), b);
    } else {
      BetweenTexts(front, b, w);
    }
  }

  lemma {:induction false} BehindText(a: string, b: string)
    requires Complete(a) && IsPlainBlock(b)
    ensures Count(OTEL_START + "\n", a + b) == Count(OTEL_START + "\n", a) + 1
  {
    BlockFacts(b);
    MarkersAreAnchors();
    CountSplit(OTEL_START + "\n", a, b);
  }

  lemma {:induction false} BetweenTexts(front: string, b: string, w: string)
    requires Complete(front) && IsPlainBlock(b) && IsWrapper(w)
    ensures Count(OTEL_START + "\n", front + b + "\n" + w) == Count(OTEL_START + "\n", front) + 1
    ensures Count(OTEL_START + "\n", front + "\n" + w + "\n") == Count(OTEL_START + "\n", front)
  {
    hide Count, Occurs, IsPlainBlock, IsWrapper, OtelFree;
    var m := OTEL_START + "\n";
    BlockFacts(b);
    MarkersAreAnchors();
    CountTail(m, w);
    assert front + b + "\n" + w == front + b + ("\n" + w);
    CountThree(m, front, b, "\n" + w);
    assert front + "\n" + w + "\n" == front + ("\n" + w) + "\n";
    CountThree(m, front, "\n" + w, "\n");
  }

  lemma {:induction false} WholeRefreshed(w: string, front: string)
    requires IsWrapper(w) && Complete(front)
    ensures Complete(Refreshed(WRAPPER_MARKER, WRAPPER_END, w, front))
  {
    WrapperFits(w);
    StaysComplete(WRAPPER_MARKER, WRAPPER_END, w, front);
  }

  lemma {:induction false} StaysComplete(s: string, e: string, w: string, t: string)
    requires Fits(s, e, w) && Complete(t)
    ensures Complete(Refreshed(s, e, w, t))
    decreases |t|
  {
    FitsIsComplete(s, e, w);
    if t != [] {
      match BlockHere(s, e, Newline, t)
      case Some(n) =>
        StepBlock(s, e, Newline, w, t, n);
        StaysComplete(s, e, w, t[n..]);
      case None =>
        StepChar(s, e, Newline, w, t);
        StaysComplete(s, e, w, t[1..]);
        StaysPresent(s, e, w, t[1..]);
    }
  }

  lemma {:induction false} StaysPresent(s: string, e: string, w: string, t: string)
    requires Fits(s, e, w)
    ensures Refreshed(s, e, w, t) == "" <==> t == ""
  {
    FitsIsComplete(s, e, w);
  }

  lemma {:induction false} CountTail(m: string, w: string)
    requires m == OTEL_START + "\n" && IsWrapper(w)
    ensures Count(m, "\n" + w) == 0 && Count(m, "\n") == 0 && Complete("\n" + w)
  {
    hide Count, Occurs;
    WrapperFits(w);
    MarkersAreAnchors();
    NewlineIsFree();
    CountSplit(m, "\n", w);
    CountZero(m, "\n");
    CountZero(m, w);
  }

  lemma {:induction false} SettledIsClear(w: string, t: string)
    requires IsWrapper(w) && NoLeftover(t)
    ensures Complete(Settled(w, t)) && OtelFree(Settled(w, t))
  {
    SettledIsStable(w, t);
  }

  lemma {:induction false} FreshIsClear(w: string, front: string)
    requires IsWrapper(w) && Complete(front) && OtelFree(front) && !Occurs(WRAPPER_MARKER, front)
    ensures Complete(front + "\n" + w + "\n") && OtelFree(front + "\n" + w + "\n")
  {
    FreshSettles(w, front);
  }

  lemma {:induction false} OneAtEnd(a: string, b: string)
    requires Complete(a) && OtelFree(a) && IsPlainBlock(b)
    ensures Count(OTEL_START + "\n", a + b) == 1 && Count(b, a + b) == 1
  {
    hide Count, Occurs, IsPlainBlock;
    BlockFacts(b);
    BehindText(a, b);
    CountZero(OTEL_START + "\n", a);
    CountLonger(OTEL_START + "\n", b, a + b);
    CountInside(b, a, "");
    assert a + b + "" == a + b;
  }

  lemma {:induction false} OneInFront(b: string, w: string, front: string)
    requires IsPlainBlock(b) && IsWrapper(w)
    requires Complete(front) && OtelFree(front) && !Occurs(WRAPPER_MARKER, front)
    ensures var f := front + b + "\n" + w; Count(OTEL_START + "\n", f) == 1 && Count(b, f) == 1
  {
    hide Count, Occurs, IsPlainBlock, IsWrapper;
    var f := front + b + "\n" + w;
    BlockFacts(b);
    FirstCounts(b, w, front);
    CountLonger(OTEL_START + "\n", b, f);
    CountInside(b, front, "\n" + w);
    assert f == front + b + ("\n" + w);
  }

  /**
   After every run there are as many wrapper blocks as there were closed ones in the kept text, or
   one where there was no marker at all.
   */
  lemma {:induction false} WrapperBlocks(runs: seq<Run>, t: string)
    requires runs != [] && Usable(runs) && NoLeftover(t)
    ensures Count(runs[|runs| - 1].wrapper, OnboardAll(runs, t))
         == if Occurs(WRAPPER_MARKER, Front(t)) then Blocks(WRAPPER_MARKER, WRAPPER_END, Front(t)) else 1
  {
    hide OnboardAll, IsPlainBlock, IsWrapper, NoLeftover, Count, Occurs, ReplaceBlocks, StripOtel, Front, Blocks;
    var b, w := runs[|runs| - 1].block, runs[|runs| - 1].wrapper;
    var f, front := OnboardAll(runs, t), Front(t);
    FileShape(runs, t);
    WrapperFits(w);
    FrontFacts(t);
    BlockFacts(b);
    if Occurs(WRAPPER_MARKER, front) {
      RefreshFront(front, b, w);
      CountRefreshed(WRAPPER_MARKER, WRAPPER_END, w, front + b);
      MarkersAreAnchors();
      MarkerShapes();
      HashLineAnchors(WRAPPER_END);
      FindEndNeedsMarker(WRAPPER_END, Newline, b);
      BlocksSplit(WRAPPER_MARKER, WRAPPER_END, front, b);
    } else {
      OneFreshWrapper(b, w, front, f);
    }
  }

  lemma {:induction false} OneFreshWrapper(b: string, w: string, front: string, f: string)
    requires IsPlainBlock(b) && IsWrapper(w)
    requires Complete(front) && OtelFree(front) && !Occurs(WRAPPER_MARKER, front)
    requires f == front + b + "\n" + w || f == front + "\n" + w + "\n" + b
    ensures Count(w, f) == 1
  {
    hide IsPlainBlock, IsWrapper, Count, Occurs, OtelFree;
    if f == front + b + "\n" + w {
      FirstCounts(b, w, front);
      assert f == front + b + "\n" + w + "";
      MarkedOnce(w, front + b + "\n", "");
    } else {
      MarkersBefore(b, w, front);
      assert f == front + "\n" + w + ("\n" + b);
      MarkedOnce(w, front + "\n", "\n" + b);
    }
  }

  lemma {:induction false} MarkedOnce(w: string, a: string, c: string)
    requires IsWrapper(w) && Count(WRAPPER_MARKER, a + w + c) == 1
    ensures Count(w, a + w + c) == 1
  {
    hide IsWrapper, Count, Occurs;
    WrapperFits(w);
    FitsIsComplete(WRAPPER_MARKER, WRAPPER_END, w);
    CountLonger(WRAPPER_MARKER, w, a + w + c);
    CountInside(w, a, c);
  }

  lemma {:induction false} LastNewline(x: string, b: string)
    ensures x + "\n" + b == x + ("\n" + b)
  {}

  lemma {:induction false} MarkersBefore(b: string, w: string, front: string)
    requires IsPlainBlock(b) && IsWrapper(w)
    requires Complete(front) && !Occurs(WRAPPER_MARKER, front)
    ensures Count(WRAPPER_MARKER, front + "\n" + w + ("\n" + b)) == 1
  {
    hide IsPlainBlock, IsWrapper, Count, Occurs;
    var a := front + "\n" + w + "\n";
    BlockFacts(b);
    FreshCount(w, front);
    MarkersAreAnchors();
    CountSplit(WRAPPER_MARKER, a, b);
    CountZero(WRAPPER_MARKER, b);
    LastNewline(front + "\n" + w, b);
  }

  /**
   After every run, the first included, there is exactly one OTEL block, and exactly one wrapper
   block just when the kept text has no wrapper marker or one closed wrapper.
   */
  lemma {:induction false} ExactlyOne(runs: seq<Run>, t: string)
    requires runs != [] && Usable(runs) && NoLeftover(t)
    ensures Count(OTEL_START + "\n", OnboardAll(runs, t)) == 1
    ensures Count(runs[|runs| - 1].block, OnboardAll(runs, t)) == 1
    ensures Count(runs[|runs| - 1].wrapper, OnboardAll(runs, t)) == 1
       <==> (Occurs(WRAPPER_MARKER, Front(t)) ==> Blocks(WRAPPER_MARKER, WRAPPER_END, Front(t)) == 1)
  {
    hide OnboardAll, IsPlainBlock, IsWrapper, NoLeftover, Count, Occurs;
    OneOtelBlock(runs, t);
    WrapperBlocks(runs, t);
  }

  /** A wrapper marker that is never closed keeps the wrapper from ever being installed. */
  lemma {:induction false} OrphanWrapperMarker(runs: seq<Run>)
    requires runs != [] && Usable(runs)
    ensures Count(runs[|runs| - 1].wrapper, OnboardAll(runs, WRAPPER_MARKER + "\n")) == 0
  {
    hide OnboardAll, IsPlainBlock, IsWrapper, NoLeftover, Count, Occurs;
    OrphanFront();
    WrapperBlocks(runs, WRAPPER_MARKER + "\n");
  }

  lemma {:induction false} OrphanFront()
    ensures var t := WRAPPER_MARKER + "\n";
            NoLeftover(t) && Occurs(WRAPPER_MARKER, Front(t)) && Blocks(WRAPPER_MARKER, WRAPPER_END, Front(t)) == 0
  {
    hide Occurs, NoLeftover, StripOtel;
    var t := WRAPPER_MARKER + "\n";
    MarkerShapes();
    MarkersDiffer();
    assert OtelFree(t + "\n") by {
      NotInOrphan(OTEL_START);
      NotInOrphan(LEGACY_TJ);
      NotInOrphan(LEGACY_OCW);
    }
    Untouched(t);
    RStripKeeps(WRAPPER_MARKER);
    HasHash(WRAPPER_MARKER, t) by { AtHead(WRAPPER_MARKER, t); }
    assert Front(t) == WRAPPER_MARKER + "\n\n";
    AtHead(WRAPPER_MARKER, Front(t));
    NoEndInOrphan();
    NeverCloses(WRAPPER_MARKER, WRAPPER_END, Front(t));
  }

  lemma {:induction false} AtHead(p: string, t: string)
    requires p <= t
    ensures Occurs(p, t)
  {}

  lemma {:induction false} NotInOrphan(m: string)
    requires m in {OTEL_START, LEGACY_TJ, LEGACY_OCW}
    ensures !Occurs(m + "\n", WRAPPER_MARKER + "\n" + "\n")
  {
    MarkerShapes();
    var t := WRAPPER_MARKER + "\n" + "\n";
    OccursOnlyAtHead(m + "\n", t);
    assert OTEL_START[2] == '>' && LEGACY_TJ[5] == 'h' && LEGACY_OCW[2] == 'o';
    assert WRAPPER_MARKER[2] == 't' && WRAPPER_MARKER[5] == 'p';
  }

  lemma {:induction false} NoEndInOrphan()
    ensures !Occurs(WRAPPER_END, WRAPPER_MARKER + "\n\n")
  {
    MarkerShapes();
    var t := WRAPPER_MARKER + "\n\n";
    OccursOnlyAtHead(WRAPPER_END, t);
    assert WRAPPER_END[2] == 'e' && WRAPPER_MARKER[2] == 't';
  }

  lemma {:induction false} NeverCloses(s: string, e: string, t: string)
    requires s != [] && !Occurs(e, t)
    ensures Blocks(s, e, t) == 0
  {
    if t != [] {
      NeverCloses(s, e, t[1..]);
      if s <= t {
        if Occurs(e, t[|s|..]) {
          OccursSuffix(e, t, |s|);
        }
        FindEndNeedsMarker(e, Newline, t[|s|..]);
      }
    }
  }
}
