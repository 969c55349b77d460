/**
 The purge of legacy sections on its own, and the block that onboarding appends
 (tokenjam/cli/cmd_onboard.py).
 */
module CodexPurge {
  import opened TextScan
  import opened Codex
  import opened CodexScans
  import opened CodexRewrite
  import opened CodexConverges
  import Otlp

  // ---------------------------------------------------------------------
  // Words in any case
  // ---------------------------------------------------------------------

  /** Only the characters under the word count. */
  lemma {:induction false} AnyCaseWord(p: string, t: string)
    requires OneLine(p) && StartsAnyCase(p, t)
    ensures |p| <= |t| && OneLine(t[..|p|])
  {
    if p != "" {
      AnyCaseWord(p[1..], t[1..]);
      assert t[0] != '\n';
      assert t[..|p|] == [t[0]] + t[1..][..|p| - 1];
    }
  }

  lemma {:induction false} AnyCaseSame(p: string, g: string, t: string)
    requires |g| == |p| && g <= t
    ensures StartsAnyCase(p, t) <==> StartsAnyCase(p, g)
  {
    if p != "" {
      AnyCaseSame(p[1..], g[1..], t[1..]);
    }
  }

  lemma {:induction false} AnyCaseCollapsed(p: string, t: string)
    requires OneLine(p) && StartsAnyCase(p, Collapse(t))
    ensures StartsAnyCase(p, t) && |p| <= |Collapse(t)| && |p| <= |t|
    ensures Collapse(t)[|p|..] == Collapse(t[|p|..])
  {
    hide Collapse;
    AnyCaseWord(p, Collapse(t));
    var g := Collapse(t)[..|p|];
    CollapsePrefix(g, t);
    AnyCaseSame(p, g, Collapse(t));
    AnyCaseSame(p, g, t);
  }

  lemma {:induction false} AnyCaseAppend(p: string, t: string, b: string)
    requires OneLine(p)
    ensures StartsAnyCase(p, t) ==> StartsAnyCase(p, t + b)
    ensures StartsAnyCase(p, t + "\n") ==> StartsAnyCase(p, t)
  {
    if StartsAnyCase(p, t) {
      AnyCaseWord(p, t);
      AnyCaseSame(p, t[..|p|], t);
      AnyCaseSame(p, t[..|p|], t + b);
    }
    if StartsAnyCase(p, t + "\n") {
      AnyCaseWord(p, t + "\n");
      assert (t + "\n")[|t|] == '\n' && (t + "\n")[..|t| + 1] == t + "\n";
      var g := t[..|p|];
      assert g <= t + "\n";
      AnyCaseSame(p, g, t + "\n");
      AnyCaseSame(p, g, t);
    }
  }

  // ---------------------------------------------------------------------
  // The legacy mark is not created by tidying
  // ---------------------------------------------------------------------

  const LEGACY_NOTE := "managed by ocw"

  lemma {:induction false} PlainWords()
    ensures OneLine(LEGACY_NOTE) && OneLine(OTEL) && LEGACY_NOTE != ""
    ensures |OTEL| == 6
  {}

  lemma {:induction false} NoteCollapsed(v: string)
    ensures StartsAnyCase(LEGACY_NOTE, TrimLeft(Collapse(v))) ==> StartsAnyCase(LEGACY_NOTE, TrimLeft(v))
  {
    hide StartsAnyCase, Collapse, TrimLeft;
    PlainWords();
    CollapseTrimLeft(v);
    if StartsAnyCase(LEGACY_NOTE, TrimLeft(Collapse(v))) {
      AnyCaseCollapsed(LEGACY_NOTE, TrimLeft(v));
    }
  }

  lemma {:induction false} CommentCollapsed(v: string)
    requires LegacyComment(Collapse(v))
    ensures LegacyComment(v)
  {
    hide StartsAnyCase, TrimLeft;
    if v != "" {
      if "\n\n\n" <= v {
        assert v[0] == "\n\n\n"[0];
        CommentCollapsed(v[1..]);
      } else {
        assert Collapse(v)[1..] == Collapse(v[1..]);
        NoteCollapsed(v[1..]);
        if LegacyComment(Collapse(v[1..])) {
          CommentCollapsed(v[1..]);
        }
      }
    }
  }

  lemma {:induction false} LegacyHere(t: string)
    requires StartsAnyCase(OTEL, t)
    ensures |OTEL| <= |t|
    ensures LegacyComment(t[|OTEL|..]) ==> HasLegacyOtel(t)
  {
    PlainWords();
    AnyCaseWord(OTEL, t);
  }

  lemma {:induction false} LegacyCollapsed(t: string)
    requires HasLegacyOtel(Collapse(t))
    ensures HasLegacyOtel(t)
  {
    hide StartsAnyCase, LegacyComment;
    PlainWords();
    if t != "" {
      if "\n\n\n" <= t {
        LegacyCollapsed(t[1..]);
      } else {
        assert Collapse(t)[1..] == Collapse(t[1..]);
        if HasLegacyOtel(Collapse(t[1..])) {
          LegacyCollapsed(t[1..]);
        } else {
          AnyCaseCollapsed(OTEL, t);
          CommentCollapsed(t[|OTEL|..]);
          LegacyHere(t);
        }
      }
    }
  }

  lemma {:induction false} NoteAppend(v: string, b: string)
    ensures StartsAnyCase(LEGACY_NOTE, TrimLeft(v)) ==> StartsAnyCase(LEGACY_NOTE, TrimLeft(v + b))
    ensures StartsAnyCase(LEGACY_NOTE, TrimLeft(v + "\n")) ==> StartsAnyCase(LEGACY_NOTE, TrimLeft(v))
  {
    hide StartsAnyCase;
    PlainWords();
    if v == "" {
      assert v + "\n" == "\n" && TrimLeft("\n") == TrimLeft("\n"[1..]) == "";
      NothingStarts();
    } else if IsSpace(v[0]) {
      assert (v + b)[1..] == v[1..] + b && (v + "\n")[1..] == v[1..] + "\n";
      NoteAppend(v[1..], b);
    } else {
      AnyCaseAppend(LEGACY_NOTE, v, b);
    }
  }

  lemma {:induction false} NothingStarts()
    ensures !StartsAnyCase(LEGACY_NOTE, "")
  {}

  lemma {:induction false} CommentAppend(u: string, b: string)
    ensures LegacyComment(u) ==> LegacyComment(u + b)
    ensures LegacyComment(u + "\n") ==> LegacyComment(u)
  {
    hide StartsAnyCase, TrimLeft;
    if u != "" {
      assert (u + b)[1..] == u[1..] + b && (u + "\n")[1..] == u[1..] + "\n";
      CommentAppend(u[1..], b);
      NoteAppend(u[1..], b);
    } else {
      assert u + "\n" == "\n" && "\n"[1..] == "";
    }
  }

  lemma {:induction false} LegacyAppend(t: string, b: string)
    ensures HasLegacyOtel(t) ==> HasLegacyOtel(t + b)
    ensures HasLegacyOtel(t + "\n") ==> HasLegacyOtel(t)
  {
    hide StartsAnyCase, LegacyComment;
    PlainWords();
    if t == "" {
      assert t + "\n" == "\n" && "\n"[1..] == "";
      if StartsAnyCase(OTEL, "\n") {
        AnyCaseWord(OTEL, "\n");
      }
    } else {
      assert (t + b)[1..] == t[1..] + b && (t + "\n")[1..] == t[1..] + "\n";
      LegacyAppend(t[1..], b);
      AnyCaseAppend(OTEL, t, b);
      if StartsAnyCase(OTEL, t) {
        LegacyHere(t);
        LegacyHere(t + b);
        assert (t + b)[|OTEL|..] == t[|OTEL|..] + b && (t + "\n")[|OTEL|..] == t[|OTEL|..] + "\n";
        CommentAppend(t[|OTEL|..], b);
      }
    }
  }

  lemma {:induction false} LegacySuffix(t: string, k: nat)
    requires k <= |t| && HasLegacyOtel(t[k..])
    ensures HasLegacyOtel(t)
  {
    hide StartsAnyCase, LegacyComment;
    if k > 0 {
      assert t[k..] == t[1..][k - 1..];
      LegacySuffix(t[1..], k - 1);
    } else {
      assert t[0..] == t;
    }
  }

  lemma {:induction false} LegacyTidied(t: string)
    requires HasLegacyOtel(Tidied(Collapse(t)))
    ensures HasLegacyOtel(t)
  {
    hide Collapse, TrimLeft, TrimRight, StartsAnyCase, LegacyComment;
    var c := Collapse(t);
    var u := TrimLeft(c);
    var w := Trim(c);
    TrimLeftShape(c);
    TrimRightShape(u);
    LegacyAppend(w, u[|w|..]);
    assert u == w + u[|w|..];
    LegacySuffix(c, |c| - |u|);
    LegacyCollapsed(t);
  }

  // ---------------------------------------------------------------------
  // Purging twice
  // ---------------------------------------------------------------------

  lemma {:induction false} TidiedTwice(t: string)
    ensures var p := Tidied(Collapse(t)); Tidied(Collapse(p)) == p
  {
    hide Collapse, TrimLeft, TrimRight;
    var c := Collapse(t);
    var w := Trim(c);
    TrimIsTrimmed(c);
    CollapseDone(t);
    TrimSubstring("\n\n\n", c);
    NewlineBlank();
    if w == "" {
      CollapseEmpty();
      BlankTrimsAway("");
    } else {
      LastWordCollapses(w);
      TrimBlankTail(w, "\n");
      TrimIsTrimmed(w);
    }
  }

  lemma {:induction false} LastWordCollapses(w: string)
    requires w != "" && Trimmed(w) && Collapsed(w)
    ensures Collapse(w + "\n") == w + "\n"
  {
    hide Collapse;
    var a, c := w[..|w| - 1], w[|w| - 1];
    assert w == a + [c] && w + "\n" == a + ([c] + "\n");
    CollapseSplit(a, [c]);
    CollapseSplit(a, [c] + "\n");
    CollapseNothing(w);
    WordCollapses(c);
    WordThenNewline(c);
    assert Collapse(a) + ([c] + "\n") == (Collapse(a) + [c]) + "\n";
  }

  lemma {:induction false} WordThenNewline(c: char)
    requires c != '\n'
    ensures Collapse([c] + "\n") == [c] + "\n"
  {
    var t := [c] + "\n";
    assert t[1..] == "\n" && "\n"[1..] == "";
    assert Collapse("\n") == "\n";
    NoTriple(t);
    CollapseStep(t);
  }

  lemma {:induction false} PurgedKeepsNoTree(c: string)
    requires HasLegacyOtel(c)
    ensures NoneOf(PURGE_ORDER, Tidied(Collapse(CutAll(PURGE_ORDER, c))))
  {
    hide Occurs, CutAll, Header, Collapse, Tidied;
    OrdersAreHeaders();
    AllOneLine();
    forall i | 0 <= i < |PURGE_ORDER|
      ensures !Occurs(PURGE_ORDER[i], Tidied(Collapse(CutAll(PURGE_ORDER, c))))
    {
      NotAfterCutAll(PURGE_ORDER, PURGE_ORDER[i], c);
      TidiedClear(PURGE_ORDER[i], CutAll(PURGE_ORDER, c));
    }
  }

  /** The purge is idempotent on texts of any content, character by character. */
  lemma {:induction false} PurgeIdempotent(t: string)
    ensures Purge(Purge(t)) == Purge(t)
  {
    hide Occurs, Cut, CutAll, Header, Collapse, HasLegacyOtel, Tidied;
    var c := Cut(OCW_SERVER, t);
    var p := Purge(t);
    PurgedHasNoServer(t);
    ServerHeaders();
    OrdersAreHeaders();
    AllOneLine();
    CutNothing(OCW_SERVER, p);
    if HasLegacyOtel(c) {
      PurgedKeepsNoTree(c);
      CutAllNothing(PURGE_ORDER, p);
      TidiedTwice(CutAll(PURGE_ORDER, c));
    } else {
      if HasLegacyOtel(p) {
        LegacyTidied(c);
      }
      TidiedTwice(c);
    }
  }

  // ---------------------------------------------------------------------
  // The block is a block
  // ---------------------------------------------------------------------

  /** Single lines, and no two empty ones in a row. */
  ghost predicate Airy(lines: seq<string>) {
    && (forall i :: 0 <= i < |lines| ==> OneLine(lines[i]))
    && (forall i :: 0 < i < |lines| && lines[i] == "" ==> lines[i - 1] != "")
  }

  lemma {:induction false} LineCollapsed(w: string, r: string)
    requires OneLine(w) && Collapsed(r) && Leading(r) <= 1
    ensures Collapsed(w + "\n" + r)
    ensures Leading(w + "\n" + r) == if w == "" then 1 + Leading(r) else 0
  {
    var t := w + "\n" + r;
    LeadingMeans(t);
    if w == "" {
      assert t[1..] == r;
    } else {
      assert t[0] != '\n' && t[1..] == w[1..] + "\n" + r;
      LineCollapsed(w[1..], r);
    }
  }

  lemma {:induction false} AiryCollapsed(lines: seq<string>)
    requires Airy(lines)
    ensures Collapsed(Unlines(lines))
    ensures Leading(Unlines(lines)) == if lines != [] && lines[0] == "" then 1 else 0
  {
    hide Occurs;
    if lines == [] {
      LeadingMeans("");
      CollapsedNothing();
    } else {
      AiryCollapsed(lines[1..]);
      LineCollapsed(lines[0], Unlines(lines[1..]));
      assert Unlines(lines) == lines[0] + "\n" + Unlines(lines[1..]);
    }
  }

  lemma {:induction false} CollapsedNothing()
    ensures Collapsed("")
  {
    LeadingMeans("");
  }

  lemma {:induction false} DigitsPlain(n: nat)
    ensures forall k :: 0 <= k < |Otlp.NatToString(n)| ==> '0' <= Otlp.NatToString(n)[k] <= '9'
  {
    Otlp.NatRoundTrip(n);
  }

  lemma {:induction false} NoteHasNoBracket()
    ensures OneLine(MANAGED_NOTE) && '[' !in MANAGED_NOTE
  {}

  lemma {:induction false} NoteLinesFit()
    ensures Unbracketed([MANAGED_NOTE, "log_user_prompt = false", ""])
  {
    hide MANAGED_NOTE;
    NoteHasNoBracket();
  }

  lemma {:induction false} HttpLinesFit(port: nat)
    ensures Unbracketed(HttpLines(port)) && HttpLines(port)[0] != ""
  {
    hide Otlp.NatToString;
    DigitsPlain(port);
    var d := Otlp.NatToString(port);
    assert '[' !in d && OneLine(d);
    var a, b := "endpoint = \"http://127.0.0.1:", "/v1/logs\"";
    assert '[' !in a && OneLine(a) && '[' !in b && OneLine(b);
    assert HttpLines(port)[0] == a + d + b;
  }

  lemma {:induction false} HeaderLinesFit(secret: string)
    requires OneLine(secret) && '[' !in secret
    ensures Unbracketed(HeaderLines(secret)) && HeaderLines(secret)[0] != ""
  {
    var a, b := "Authorization = \"Bearer ", "\"";
    assert '[' !in a && OneLine(a) && '[' !in b && OneLine(b);
  }

  lemma {:induction false} LastCharacters(x: string, line: string)
    requires line != ""
    ensures var t := x + (line + "\n"); |t| > 1 && t[|t| - 1] == '\n' && t[|t| - 2] == line[|line| - 1]
  {}

  lemma {:induction false} BlockIsAiry(a: string, b: string, c: string, d: string, e: string)
    requires OneLine(a) && OneLine(b) && OneLine(c) && OneLine(d) && OneLine(e)
    requires b != "" && d != ""
    ensures Airy([OTEL, a, b, "", OTLP_HTTP, c, d, "", OTLP_HTTP_HEADERS, e])
  {
    OtelHeaders();
    HttpHeader();
    HttpHeadersHeader();
  }

  /** What onboarding appends is a block, for every port and every secret without a bracket or a newline. */
  lemma {:induction false} OtelTomlIsBlock(port: nat, secret: string)
    requires OneLine(secret) && '[' !in secret
    ensures TomlBlock(OtelToml(port, secret))
  {
    hide Unlines, Occurs, Otlp.NatToString;
    var b1 := [MANAGED_NOTE, "log_user_prompt = false", ""];
    var b2 := HttpLines(port);
    var b3 := HeaderLines(secret);
    NoteLinesFit();
    HttpLinesFit(port);
    HeaderLinesFit(secret);
    var l1, l2, l3 := [OTEL] + b1, [OTLP_HTTP] + b2, [OTLP_HTTP_HEADERS] + b3;
    var lines := l1 + (l2 + l3);
    TableIsLines(OTEL, b1);
    TableIsLines(OTLP_HTTP, b2);
    TableIsLines(OTLP_HTTP_HEADERS, b3);
    UnlinesJoin(l2, l3);
    UnlinesJoin(l1, l2 + l3);
    assert lines == [OTEL, b1[0], b1[1], "", OTLP_HTTP, b2[0], b2[1], "", OTLP_HTTP_HEADERS, b3[0]];
    BlockIsAiry(b1[0], b1[1], b2[0], b2[1], b3[0]);
    AiryCollapsed(lines);
    var block := OtelToml(port, secret);
    var x := Unlines(l1) + (Unlines(l2) + (OTLP_HTTP_HEADERS + "\n"));
    OneLineOnly(b3[0]);
    assert block == x + (b3[0] + "\n");
    LastCharacters(x, b3[0]);
    assert b3[0][|b3[0]| - 1] == '"';
    assert IsBlock(block, b1, b2, b3);
  }

  lemma {:induction false} TableIsLines(h: string, body: seq<string>)
    ensures Table(h, body) == Unlines([h] + body)
  {
    assert ([h] + body)[1..] == body;
  }

  lemma {:induction false} OneLineOnly(line: string)
    ensures Unlines([line]) == line + "\n"
  {
    assert Unlines([line][1..]) == "";
  }
}
