/**
 Which otel tables the purge of ~/.codex/config.toml takes for those of the old name of the program
 (tokenjam/cli/cmd_onboard.py), in the terms of the file.
 */
module CodexLegacy {
  import opened TextScan
  import opened Codex
  import opened CodexScans
  import opened CodexRewrite
  import opened CodexLines

  /** `m`, in any case, in front of `b`. */
  ghost predicate AnyCase(t: string, p: string, m: string, b: string) { t == m + b && Lower(m) == p }

  lemma {:induction false} LowerLength(t: string)
    ensures |Lower(t)| == |t|
  {
    if t != "" {
      LowerLength(t[1..]);
    }
  }

  lemma {:induction false} AnyCaseMeans(p: string, t: string)
    ensures StartsAnyCase(p, t) <==> exists m, b :: AnyCase(t, p, m, b)
    ensures StartsAnyCase(p, t) ==> |p| <= |t| && Lower(t[..|p|]) == p
  {
    if p == "" {
      assert AnyCase(t, "", "", t);
    } else {
      if StartsAnyCase(p, t) {
        AnyCaseMeans(p[1..], t[1..]);
        assert t[..|p|][1..] == t[1..][..|p| - 1];
        assert t == t[..|p|] + t[|p|..];
        assert AnyCase(t, p, t[..|p|], t[|p|..]);
      }
      if m, b :| AnyCase(t, p, m, b) {
        LowerLength(m);
        assert t[1..] == m[1..] + b;
        assert AnyCase(t[1..], p[1..], m[1..], b);
        AnyCaseMeans(p[1..], t[1..]);
      }
    }
  }

  /** A '#' with no opening bracket in front of it, and "managed by ocw" in any case behind it. */
  ghost predicate CommentAt(u: string, v: string, w: string, m: string, b: string) {
    && u == v + ("#" + (w + (m + b)))
    && '[' !in v && Blank(w) && Lower(m) == "managed by ocw"
  }

  lemma {:induction false} BlankInFront(w: string, m: string, b: string)
    requires Blank(w) && m != "" && !IsSpace(m[0])
    ensures TrimLeft(w + (m + b)) == m + b
  {
    TrimLeftSplit(w, m + b);
    BlankTrimsAway(w);
  }

  lemma {:induction false} NoteIsWord(m: string)
    requires Lower(m) == "managed by ocw"
    ensures m != "" && !IsSpace(m[0])
  {
    assert Lower(m)[0] == 'm';
  }

  lemma {:induction false} CommentHere(u: string)
    requires u != "" && u[0] == '#'
    ensures StartsAnyCase("managed by ocw", TrimLeft(u[1..])) <==> exists w, m, b :: CommentAt(u, "", w, m, b)
  {
    hide StartsAnyCase, TrimLeft, IsSpace;
    var t := u[1..];
    AnyCaseMeans("managed by ocw", TrimLeft(t));
    if m, b :| AnyCase(TrimLeft(t), "managed by ocw", m, b) {
      TrimLeftSplits(t);
      var w :| Blank(w) && t == w + TrimLeft(t);
      assert u == "" + ("#" + (w + (m + b)));
      assert CommentAt(u, "", w, m, b);
    }
    if w, m, b :| CommentAt(u, "", w, m, b) {
      assert t == w + (m + b);
      NoteIsWord(m);
      BlankInFront(w, m, b);
      assert AnyCase(TrimLeft(t), "managed by ocw", m, b);
    }
  }

  lemma {:induction false} CommentMeans(u: string)
    ensures LegacyComment(u) <==> exists v, w, m, b :: CommentAt(u, v, w, m, b)
  {
    hide StartsAnyCase;
    if u != "" {
      CommentMeans(u[1..]);
      if u[0] == '#' {
        CommentHere(u);
      }
      if LegacyComment(u) && LegacyComment(u[1..]) {
        var v, w, m, b :| CommentAt(u[1..], v, w, m, b);
        CommentLater(u, v, w, m, b);
      }
      if v, w, m, b :| CommentAt(u, v, w, m, b) {
        if v == "" {
          assert u[0] == '#';
        } else {
          assert u[0] == v[0];
          CommentSooner(u, v, w, m, b);
        }
      }
    }
  }

  lemma {:induction false} CommentLater(u: string, v: string, w: string, m: string, b: string)
    requires u != "" && u[0] != '[' && CommentAt(u[1..], v, w, m, b)
    ensures CommentAt(u, [u[0]] + v, w, m, b)
  {
    assert u == [u[0]] + u[1..];
  }

  lemma {:induction false} CommentSooner(u: string, v: string, w: string, m: string, b: string)
    requires v != "" && CommentAt(u, v, w, m, b)
    ensures CommentAt(u[1..], v[1..], w, m, b)
  {
    assert u[1..] == v[1..] + ("#" + (w + (m + b)));
  }

  /** An otel header in any case, and the comment behind it before the next opening bracket. */
  ghost predicate LegacyAt(t: string, a: string, h: string, u: string, v: string, w: string, m: string, b: string) {
    t == a + (h + u) && Lower(h) == "[otel]" && CommentAt(u, v, w, m, b)
  }

  ghost predicate LegacyHere(t: string, h: string, u: string) {
    t == h + u && Lower(h) == "[otel]" && exists v, w, m, b :: CommentAt(u, v, w, m, b)
  }

  ghost predicate LegacyMarked(t: string) {
    exists a, h, u, v, w, m, b :: LegacyAt(t, a, h, u, v, w, m, b)
  }

  lemma {:induction false} HeadMeans(t: string)
    ensures (StartsAnyCase(OTEL, t) && LegacyComment(t[if |t| < |OTEL| then |t| else |OTEL|..]))
            <==> exists h, u :: LegacyHere(t, h, u)
  {
    hide LegacyComment, StartsAnyCase, CommentAt;
    AnyCaseMeans(OTEL, t);
    assert OTEL == "[otel]";
    if StartsAnyCase(OTEL, t) {
      var h, u := t[..|OTEL|], t[|OTEL|..];
      CommentMeans(u);
      assert t == h + u;
      if LegacyComment(u) {
        assert LegacyHere(t, h, u);
      }
    }
    if h, u :| LegacyHere(t, h, u) {
      LowerLength(h);
      assert AnyCase(t, OTEL, h, u);
      assert t[|OTEL|..] == u;
      CommentMeans(u);
    }
  }

  /** One character more in front. */
  lemma {:induction false} LegacyLater(t: string)
    requires t != "" && LegacyMarked(t[1..])
    ensures LegacyMarked(t)
  {
    hide CommentAt, Lower;
    var a, h, u, v, w, m, b :| LegacyAt(t[1..], a, h, u, v, w, m, b);
    assert t == [t[0]] + t[1..];
    assert t == ([t[0]] + a) + (h + u);
    assert LegacyAt(t, [t[0]] + a, h, u, v, w, m, b);
  }

  lemma {:induction false} LegacyAtStart(t: string, h: string, u: string)
    requires LegacyHere(t, h, u)
    ensures LegacyMarked(t)
  {
    hide CommentAt, Lower;
    var v, w, m, b :| CommentAt(u, v, w, m, b);
    assert t == "" + (h + u);
    assert LegacyAt(t, "", h, u, v, w, m, b);
  }

  lemma {:induction false} LegacySplits(t: string)
    requires t != "" && LegacyMarked(t)
    ensures LegacyMarked(t[1..]) || exists h, u :: LegacyHere(t, h, u)
  {
    hide CommentAt, Lower;
    var a, h, u, v, w, m, b :| LegacyAt(t, a, h, u, v, w, m, b);
    if a == "" {
      assert t == h + u;
      assert LegacyHere(t, h, u);
    } else {
      assert t[1..] == a[1..] + (h + u);
      assert LegacyAt(t[1..], a[1..], h, u, v, w, m, b);
    }
  }

  lemma {:induction false} NothingIsLegacy()
    ensures !LegacyMarked("")
  {
    hide CommentAt;
    if a, h, u, v, w, m, b :| LegacyAt("", a, h, u, v, w, m, b) {
      LowerLength(h);
      assert false;
    }
  }

  /** The search for the old otel tables finds exactly such a header and comment. */
  lemma {:induction false} LegacyExactly(t: string)
    ensures HasLegacyOtel(t) <==> LegacyMarked(t)
  {
    hide LegacyComment, StartsAnyCase, LegacyMarked, LegacyHere;
    if t == "" {
      NothingIsLegacy();
    } else {
      HeadMeans(t);
      LegacyExactly(t[1..]);
      if h, u :| LegacyHere(t, h, u) {
        LegacyAtStart(t, h, u);
      }
      if LegacyMarked(t[1..]) {
        LegacyLater(t);
      }
      if LegacyMarked(t) {
        LegacySplits(t);
      }
    }
  }

  /**
   What the purge keeps: every line outside the old server's table and, exactly when the text left
   without that table is marked, outside the otel tables, in order; also of what other tables `gs` leave.
   */
  lemma {:induction false} PurgedExactly(content: string, gs: set<string>)
    requires Neat(EVERY, content) && gs <= EVERY
    ensures Neat(EVERY, Purge(content))
    ensures UpToTheEnd(
              KeptLines(gs, Purge(content)),
              KeptLines(gs + (if LegacyMarked(Cut(OCW_SERVER, content)) then OURS else {OCW_SERVER}), content))
  {
    hide UpToTheEnd, Header, Trim, Collapse, Neat, KeptLines, HasLegacyOtel, Cut, CutAll, Tidied, LegacyMarked;
    OursAreHeaders();
    var tree := set h | h in PURGE_ORDER;
    var c := Cut(OCW_SERVER, content);
    LegacyExactly(c);
    CutKeeps(EVERY, OCW_SERVER, content);
    CutAllKeeps(EVERY, PURGE_ORDER, c, gs);
    assert gs + tree + {OCW_SERVER} == gs + OURS;
    TidyKeeps(EVERY, if HasLegacyOtel(c) then CutAll(PURGE_ORDER, c) else c, gs);
  }
}
