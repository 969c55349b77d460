/**
 Refreshing a block in place: every block between two comment markers is replaced by a
 new block between the same markers.  What such a replacement keeps, for any text.
 */
module Refresh {
  import opened Prelude
  import opened TextScan

  /** `w` is a block from `s` to `e` whose start marker has the line to itself. */
  ghost predicate Fits(s: string, e: string, w: string) {
    && HashLine(s) && HashLine(e)
    && s + "\n" <= w
    && exists body :: IsBody(e, body) && w == Block(s, body, e)
  }

  function Refreshed(s: string, e: string, w: string, t: string): string
    requires s != []
  {
    ReplaceBlocks(s, e, Newline, w, t)
  }

  lemma {:induction false} FitsIsComplete(s: string, e: string, w: string)
    requires Fits(s, e, w)
    ensures Complete(w) && |s| < |w| && w[|s|] == '\n' && s <= w
  {
    assert s + "\n" <= w;
    assert (s + "\n")[|s|] == '\n';
  }

  lemma {:induction false} EmptyStays(s: string, e: string, w: string)
    requires s != []
    ensures forall term, repl :: ReplaceBlocks(s, e, term, repl, "") == ""
  {}

  /** A pattern within one line that starts the new text already started the old one. */
  lemma {:induction false} PrefixBack(s: string, e: string, w: string, p: string, t: string)
    requires Fits(s, e, w) && p != [] && OneLine(p)
    requires p <= Refreshed(s, e, w, t)
    ensures p <= t
    decreases |t|
  {
    FitsIsComplete(s, e, w);
    if t != [] {
      match BlockHere(s, e, Newline, t) {
        case Some(n) =>
          StepBlock(s, e, Newline, w, t, n);
          assert Refreshed(s, e, w, t)[|s|] == '\n';
        case None =>
          StepChar(s, e, Newline, w, t);
          if |p| > 1 {
            PrefixBack(s, e, w, p[1..], t[1..]);
          }
      }
    }
  }

  /** A line end at the start of the new text was one of the old text, or belongs to a start marker. */
  lemma {:induction false} LineBack(s: string, e: string, w: string, m: string, t: string)
    requires Fits(s, e, w) && OneLine(m)
    requires m + "\n" <= Refreshed(s, e, w, t)
    ensures m + "\n" <= t || EndsWith(m, s)
    decreases |t|
  {
    FitsIsComplete(s, e, w);
    if t != [] {
      match BlockHere(s, e, Newline, t) {
        case Some(n) =>
          StepBlock(s, e, Newline, w, t, n);
          LineOfBlock(s, w, m, w + Refreshed(s, e, w, t[n..]));
        case None =>
          StepChar(s, e, Newline, w, t);
          if m != [] {
            assert m[1..] + "\n" == (m + "\n")[1..];
            LineBack(s, e, w, m[1..], t[1..]);
            assert EndsWith(m[1..], s) ==> m[1..][|m| - 1 - |s|..] == m[|m| - |s|..];
          }
      }
    }
  }

  lemma {:induction false} LineOfBlock(s: string, w: string, m: string, t: string)
    requires s != [] && OneLine(s) && OneLine(m) && s + "\n" <= w && w <= t && m + "\n" <= t
    ensures m == s
  {
    assert t[|m|] == '\n' && t[|s|] == '\n' by {
      assert (m + "\n")[|m|] == '\n' && (s + "\n")[|s|] == '\n';
    }
    assert m == t[..|m|] && s == t[..|s|];
    assert forall k :: 0 <= k < |m| ==> t[k] != '\n';
    assert forall k :: 0 <= k < |s| ==> t[k] != '\n';
  }

  /** No marker line appears that was not there before. */
  lemma {:induction false} NoNewMarkerLine(s: string, e: string, w: string, m: string, t: string)
    requires Fits(s, e, w) && HashLine(m) && m != s
    requires !Occurs(m + "\n", w) && !Occurs(m + "\n", t)
    ensures !Occurs(m + "\n", Refreshed(s, e, w, t))
    decreases |t|
  {
    FitsIsComplete(s, e, w);
    HashLineAnchors(m);
    var r := Refreshed(s, e, w, t);
    if t != [] {
      match BlockHere(s, e, Newline, t) {
        case Some(n) =>
          StepBlock(s, e, Newline, w, t, n);
          if Occurs(m + "\n", t[n..]) {
            OccursSuffix(m + "\n", t, n);
          }
          NoNewMarkerLine(s, e, w, m, t[n..]);
          OccursSplit(m + "\n", w, Refreshed(s, e, w, t[n..]));
        case None =>
          StepChar(s, e, Newline, w, t);
          NoNewMarkerLine(s, e, w, m, t[1..]);
          assert r[1..] == Refreshed(s, e, w, t[1..]);
          if m + "\n" <= r {
            LineBack(s, e, w, m, t);
            HashEndsWithHash(m, s);
          }
      }
    }
  }

  lemma {:induction false} HashEndsWithHash(m: string, s: string)
    requires HashLine(m) && HashLine(s)
    ensures EndsWith(m, s) ==> m == s
  {
    if EndsWith(m, s) {
      assert m[|m| - |s|] == s[0];
      assert m == m[|m| - |s|..];
    }
  }

  /** Refreshing with one block and then with another is refreshing with the other. */
  lemma {:induction false} RefreshTwice(s: string, e: string, w: string, v: string, t: string)
    requires Fits(s, e, w) && Fits(s, e, v)
    ensures Refreshed(s, e, v, Refreshed(s, e, w, t)) == Refreshed(s, e, v, t)
    decreases |t|
  {
    hide ReplaceBlocks, BlockHere;
    FitsIsComplete(s, e, w);
    var r := Refreshed(s, e, w, t);
    EmptyStays(s, e, w);
    EmptyStays(s, e, v);
    if t != [] {
      match BlockHere(s, e, Newline, t) {
        case Some(n) =>
          StepBlock(s, e, Newline, w, t, n);
          StepBlock(s, e, Newline, v, t, n);
          RefreshTwice(s, e, w, v, t[n..]);
          var body :| IsBody(e, body) && w == Block(s, body, e);
          ReplaceOne(s, e, Newline, v, body, Refreshed(s, e, w, t[n..]));
        case None =>
          StepChar(s, e, Newline, w, t);
          StepChar(s, e, Newline, v, t);
          assert r[1..] == Refreshed(s, e, w, t[1..]) && r[0] == t[0];
          RefreshTwice(s, e, w, v, t[1..]);
          if s <= t {
            NothingCloses(s, e, w, t);
          } else {
            NotAtStart(s, e, w, t);
            StepChar(s, e, Newline, v, r);
          }
      }
    }
  }

  lemma {:induction false} NotAtStart(s: string, e: string, w: string, t: string)
    requires Fits(s, e, w) && !(s <= t)
    ensures !(s <= Refreshed(s, e, w, t))
    ensures forall term :: BlockHere(s, e, term, Refreshed(s, e, w, t)) == None
  {
    if s <= Refreshed(s, e, w, t) {
      PrefixBack(s, e, w, s, t);
    }
  }

  /** A start marker that no end marker closes: nothing from here on changes. */
  lemma {:induction false} NothingCloses(s: string, e: string, w: string, t: string)
    requires Fits(s, e, w) && s <= t && BlockHere(s, e, Newline, t) == None
    ensures FindEnd(e, Newline, t[|s|..]) == None
    ensures Refreshed(s, e, w, t) == t
  {
    CopyMarker(s, e, w, t, 0);
    assert t[0..] == t;
  }

  /** From inside the unclosed start marker on, the scan copies. */
  lemma {:induction false} CopyMarker(s: string, e: string, w: string, t: string, k: nat)
    requires Fits(s, e, w) && k <= |s| <= |t| && t[..|s|] == s
    requires FindEnd(e, Newline, t[|s|..]) == None
    ensures Refreshed(s, e, w, t[k..]) == t[k..]
    decreases |s| - k
  {
    if k == |s| {
      NoEndNoChange(s, e, Newline, w, t[k..]);
    } else {
      var u := t[k..];
      assert u[1..] == t[k + 1..];
      CopyMarker(s, e, w, t, k + 1);
      if s <= u {
        assert u[0] == t[k] == s[k];
        assert k == 0;
        assert u == t;
      }
      StepChar(s, e, Newline, w, u);
    }
  }

  lemma {:induction false} StillNoBlock(s: string, e: string, w: string, t: string)
    requires Fits(s, e, w) && Complete(t) && BlockHere(s, e, Newline, t) == None
    ensures BlockHere(s, e, NewlineOrEnd, Refreshed(s, e, w, t)) == None
  {
    if s <= t {
      NothingCloses(s, e, w, t);
      FindEndComplete(e, t[|s|..]);
    } else {
      NotAtStart(s, e, w, t);
    }
  }

  /** Removing the refreshed blocks leaves what removing the old ones would have left. */
  lemma {:induction false} RemoveRefreshed(s: string, e: string, w: string, t: string)
    requires Fits(s, e, w) && Complete(t)
    ensures ReplaceBlocks(s, e, NewlineOrEnd, "", Refreshed(s, e, w, t)) == ReplaceBlocks(s, e, Newline, "", t)
    decreases |t|
  {
    hide ReplaceBlocks, BlockHere;
    var r := Refreshed(s, e, w, t);
    EmptyStays(s, e, w);
    if t != [] {
      match BlockHere(s, e, Newline, t) {
        case Some(n) =>
          StepBlock(s, e, Newline, w, t, n);
          StepBlock(s, e, Newline, "", t, n);
          RemoveRefreshed(s, e, w, t[n..]);
          var body :| IsBody(e, body) && w == Block(s, body, e);
          ReplaceOne(s, e, NewlineOrEnd, "", body, Refreshed(s, e, w, t[n..]));
        case None =>
          StillNoBlock(s, e, w, t);
          StepChar(s, e, Newline, w, t);
          StepChar(s, e, Newline, "", t);
          StepChar(s, e, NewlineOrEnd, "", r);
          RemoveRefreshed(s, e, w, t[1..]);
          assert r[1..] == Refreshed(s, e, w, t[1..]);
      }
    }
  }

  /** Refreshing neither drops the last start marker nor adds one. */
  lemma {:induction false} MarkerCount(s: string, e: string, w: string, t: string)
    requires Fits(s, e, w) && Count(s, w) == 1
    ensures Count(s, Refreshed(s, e, w, t)) <= Count(s, t)
    ensures Occurs(s, t) <==> Occurs(s, Refreshed(s, e, w, t))
    decreases |t|
  {
    FitsIsComplete(s, e, w);
    HashLineAnchors(s);
    var r := Refreshed(s, e, w, t);
    if t != [] {
      match BlockHere(s, e, Newline, t) {
        case Some(n) =>
          StepBlock(s, e, Newline, w, t, n);
          MarkerCount(s, e, w, t[n..]);
          CountSplit(s, w, Refreshed(s, e, w, t[n..]));
          CountFromHere(s, t, n);
          CountZero(s, r);
        case None =>
          StepChar(s, e, Newline, w, t);
          assert r[1..] == Refreshed(s, e, w, t[1..]) && r[0] == t[0];
          MarkerCount(s, e, w, t[1..]);
          if s <= t {
            NothingCloses(s, e, w, t);
          } else {
            NotAtStart(s, e, w, t);
          }
      }
    }
  }

  lemma {:induction false} CountFromHere(s: string, t: string, n: nat)
    requires s <= t && 0 < n <= |t|
    ensures Count(s, t) >= 1 + Count(s, t[n..])
  {
    assert t[1..][n - 1..] == t[n..];
    CountSuffix(s, t[1..], n - 1);
  }

  lemma {:induction false} CountSuffix(s: string, t: string, n: nat)
    requires n <= |t|
    ensures Count(s, t) >= Count(s, t[n..])
  {
    if n > 0 {
      assert t[1..][n - 1..] == t[n..];
      CountSuffix(s, t[1..], n - 1);
    }
  }

  /** Ended by exactly one newline. */
  ghost predicate Tidy(t: string) {
    |t| > 1 && t[|t| - 1] == '\n' && t[|t| - 2] != '\n'
  }

  lemma {:induction false} StaysTidy(s: string, e: string, w: string, t: string)
    requires Fits(s, e, w) && Tidy(w) && Tidy(t)
    ensures Tidy(Refreshed(s, e, w, t))
    decreases |t|
  {
    match BlockHere(s, e, Newline, t) {
      case Some(n) =>
        StepBlock(s, e, Newline, w, t, n);
        BlockClosesLine(s, e, t);
        if n < |t| {
          StaysTidy(s, e, w, t[n..]);
        }
      case None =>
        StepChar(s, e, Newline, w, t);
        if |t| > 2 {
          StaysTidy(s, e, w, t[1..]);
        } else {
          OccursNeedsHead(s, t[1..]);
          CopyAll(s, e, Newline, w, t[1..]);
        }
    }
  }

  /** Removing, or replacing, the one block there is. */
  lemma {:induction false} RemoveBetween(s: string, e: string, w: string, v: string, a: string, b: string)
    requires Fits(s, e, w)
    requires Complete(a) && !Occurs(s, a) && !Occurs(s, b)
    ensures ReplaceBlocks(s, e, NewlineOrEnd, "", a + w + b) == a + b
    ensures Refreshed(s, e, v, a + w + b) == a + v + b
  {
    var body :| IsBody(e, body) && w == Block(s, body, e);
    HashLineAnchors(s);
    HashLineAnchors(e);
    ReplaceWith(s, e, Newline, v, w, body, a, b);
    ReplaceWith(s, e, NewlineOrEnd, "", w, body, a, b);
    assert a + "" == a;
  }

  lemma {:induction false} ReplaceWith(s: string, e: string, term: Terminator, repl: string,
                                       w: string, body: string, a: string, b: string)
    requires Anchor(s) && e != [] && OneLine(e) && IsBody(e, body) && w == Block(s, body, e)
    requires Complete(a) && !Occurs(s, a) && !Occurs(s, b)
    ensures ReplaceBlocks(s, e, term, repl, a + w + b) == a + repl + b
  {
    ReplaceBetween(s, e, term, repl, a, w, body, b);
  }
}
