/**
 Which files take a rotation of the secret.  The rc file is any list of lines, the last of which may
 lack its newline; a start marker may stand anywhere, with or without an end marker after it.
 */
module RcRotation {
  import opened Prelude
  import opened TextScan
  import opened Refresh
  import opened ShellRc
  import opened RcPipeline
  import opened RcLines
  import opened RcLastLine

  /** A line that ends with a start marker is the marker; an end marker may end any line. */
  ghost predicate WholeMarker(line: string) {
    && OneLine(line)
    && (EndsWith(line, OTEL_START) ==> line == OTEL_START)
    && (EndsWith(line, LEGACY_TJ) ==> line == LEGACY_TJ)
    && (EndsWith(line, LEGACY_OCW) ==> line == LEGACY_OCW)
  }

  ghost predicate WholeMarkers(lines: seq<string>) {
    forall i :: 0 <= i < |lines| ==> WholeMarker(lines[i])
  }

  ghost predicate IsEnd(line: string) { EndsWith(line, OTEL_END) }

  ghost predicate HasEnd(lines: seq<string>) {
    exists i :: 0 <= i < |lines| && IsEnd(lines[i])
  }

  /** Every start marker has an end marker somewhere below it. */
  ghost predicate Closed(lines: seq<string>) {
    forall i :: 0 <= i < |lines| && lines[i] == OTEL_START ==> HasEnd(lines[i..])
  }

  /** A legacy marker is only one where a newline follows. */
  predicate IsLegacy(line: string) { line == LEGACY_TJ || line == LEGACY_OCW }

  /** The number of lines in front of the first end marker. */
  ghost function ToEnd(lines: seq<string>): (n: nat)
    requires HasEnd(lines)
    ensures n < |lines| && IsEnd(lines[n]) && !HasEnd(lines[..n])
  {
    if IsEnd(lines[0]) then 0
    else
      assert HasEnd(lines[1..]) by { EndLater(lines); }
      var n := 1 + ToEnd(lines[1..]);
      assert lines[..n] == [lines[0]] + lines[1..][..n - 1];
      n
  }

  lemma {:induction false} EndLater(lines: seq<string>)
    requires HasEnd(lines) && !IsEnd(lines[0])
    ensures HasEnd(lines[1..])
  {
    var i :| 0 <= i < |lines| && IsEnd(lines[i]);
    assert lines[1..][i - 1] == lines[i];
  }

  /** What the sentinel pass leaves: whole lines, and whether the last one, without newline, is still there. */
  datatype Rest = Rest(lines: seq<string>, open: bool)

  ghost function Unfenced(lines: seq<string>, last: string): Rest
    decreases |lines|
  {
    if lines == [] then Rest([], true)
    else if lines[0] != OTEL_START then
      var r := Unfenced(lines[1..], last);
      Rest([lines[0]] + r.lines, r.open)
    else if HasEnd(lines[1..]) then Unfenced(lines[2 + ToEnd(lines[1..])..], last)
    else if IsEnd(last) then Rest([], false)
    else Rest(lines, true)
  }

  /** The text of some whole lines and a last one, if it is there. */
  function Joined(r: Rest, last: string): string {
    Unlines(r.lines) + if r.open then last else ""
  }

  // ---------------------------------------------------------------------
  // The sentinel pass on lines
  // ---------------------------------------------------------------------

  lemma {:induction false} NoEndLine(lines: seq<string>)
    requires WholeMarkers(lines) && !HasEnd(lines)
    ensures !Occurs(OTEL_END + "\n", Unlines(lines)) && Complete(Unlines(lines))
  {
    hide Occurs;
    MarkerShapes();
    forall i | 0 <= i < |lines| ensures OneLine(lines[i]) && !EndsWith(lines[i], OTEL_END) {
      assert WholeMarker(lines[i]) && !IsEnd(lines[i]);
    }
    LinesHaveNoMarker(OTEL_END, lines);
  }

  lemma {:induction false} UnlinesSplit(lines: seq<string>, k: nat)
    requires k <= |lines|
    ensures Unlines(lines) == Unlines(lines[..k]) + Unlines(lines[k..])
  {
    if k == 0 {
      assert lines[..0] == [] && lines[0..] == lines;
    } else {
      UnlinesSplit(lines[1..], k - 1);
      assert lines[1..][..k - 1] == lines[..k][1..] && lines[1..][k - 1..] == lines[k..];
    }
  }

  /** An end marker closes at the end of its line, or of the text. */
  lemma {:induction false} EndOfLine(e: string, y: string, rest: string)
    requires OneLine(y) && e != "" && EndsWith(y, e) && (rest == "" || rest[0] == '\n')
    ensures FindEnd(e, NewlineOrEnd, y + rest) == Some(if rest == "" then |y| else |y| + 1)
    decreases |y|
  {
    var t := y + rest;
    if |y| == |e| {
      assert y[0..] == y;
      assert e <= t;
    } else {
      assert t[1..] == y[1..] + rest && y[1..][|y| - 1 - |e|..] == y[|y| - |e|..];
      EndOfLine(e, y[1..], rest);
      assert EndHere(e, NewlineOrEnd, t) == None by {
        if e <= t {
          assert t[|e|] == y[|e|];
        }
      }
    }
  }

  /** A fence goes up to the end of its first closing line. */
  lemma {:induction false} FenceCloses(s: string, e: string, body: string, y: string, rest: string)
    requires s != "" && e != "" && OneLine(e) && IsBody(e, body)
    requires OneLine(y) && EndsWith(y, e) && (rest == "" || rest[0] == '\n')
    ensures ReplaceBlocks(s, e, NewlineOrEnd, "", s + body + y + rest)
         == ReplaceBlocks(s, e, NewlineOrEnd, "", if rest == "" then "" else rest[1..])
  {
    hide ReplaceBlocks, FindEnd, Occurs;
    var t := s + body + y + rest;
    EndOfLine(e, y, rest);
    FindEndNone(e, body);
    FindEndSplit(e, NewlineOrEnd, body, y + rest);
    assert t[|s|..] == body + (y + rest);
    var n := |s| + |body| + |y| + if rest == "" then 0 else 1;
    assert BlockHere(s, e, NewlineOrEnd, t) == Some(n);
    StepBlock(s, e, NewlineOrEnd, "", t, n);
    assert t[n..] == if rest == "" then "" else rest[1..];
  }

  lemma {:induction false} FencedText(lines: seq<string>, n: nat)
    requires n + 1 < |lines|
    ensures Unlines(lines)
         == lines[0] + "\n" + Unlines(lines[1..][..n]) + lines[n + 1] + ("\n" + Unlines(lines[2 + n..]))
  {
    var rest := lines[1..];
    UnlinesSplit(rest, n);
    assert rest[n..][1..] == lines[2 + n..] && rest[n..][0] == lines[n + 1];
    ThreeParts(lines[0], Unlines(rest[..n]), lines[n + 1], Unlines(lines[2 + n..]));
  }

  lemma {:induction false} ThreeParts(a: string, b: string, c: string, d: string)
    ensures a + "\n" + (b + (c + "\n" + d)) == a + "\n" + b + c + ("\n" + d)
  {}

  /** A fenced block at the head of the lines goes, up to its first end marker. */
  lemma {:induction false} FenceGoes(lines: seq<string>, last: string)
    requires WholeMarkers(lines) && lines != [] && lines[0] == OTEL_START && HasEnd(lines[1..])
    ensures StripSentinels(Unlines(lines) + last) == StripSentinels(Unlines(lines[2 + ToEnd(lines[1..])..]) + last)
  {
    hide ReplaceBlocks, Occurs, WholeMarker, Unlines, ToEnd, EndsWith;
    var n := ToEnd(lines[1..]);
    var body, y, after := lines[1..][..n], lines[n + 1], Unlines(lines[2 + n..]);
    FencedText(lines, n);
    NoEndLine(body);
    MarkerShapes();
    HashLineAnchors(OTEL_END);
    IsOneLine(y);
    var s := OTEL_START + "\n";
    FenceCloses(s, OTEL_END, Unlines(body), y, "\n" + after + last);
    Tailed(s + Unlines(body) + y, after, last);
  }

  lemma {:induction false} IsOneLine(line: string)
    requires WholeMarker(line)
    ensures OneLine(line)
  {}

  lemma {:induction false} Tailed(a: string, b: string, c: string)
    ensures a + ("\n" + b) + c == a + ("\n" + b + c) && ("\n" + b + c)[1..] == b + c
  {}

  /** A fence that only the last line closes takes everything. */
  lemma {:induction false} LastCloses(lines: seq<string>, last: string)
    requires WholeMarkers(lines) && lines != [] && lines[0] == OTEL_START && !HasEnd(lines[1..])
    requires WholeMarker(last) && IsEnd(last)
    ensures StripSentinels(Unlines(lines) + last) == ""
  {
    hide ReplaceBlocks, Occurs, WholeMarker, EndsWith;
    var body := Unlines(lines[1..]);
    NoEndLine(lines[1..]);
    MarkerShapes();
    HashLineAnchors(OTEL_END);
    IsOneLine(last);
    FenceCloses(OTEL_START + "\n", OTEL_END, body, last, "");
    assert Unlines(lines) + last == OTEL_START + "\n" + body + last + "";
    OccursNeedsHead(OTEL_START + "\n", "");
    CopyAll(OTEL_START + "\n", OTEL_END, NewlineOrEnd, "", "");
  }

  lemma {:induction false} StartIsNoEnd()
    ensures !IsEnd(OTEL_START)
  {
    hide EndsWith;
    MarkerShapes();
    EndMarkerEnds();
    HashEndsWithHash(OTEL_START, OTEL_END);
  }

  lemma {:induction false} EndsNowhere(e: string, y: string)
    requires OneLine(y) && e != "" && !EndsWith(y, e)
    ensures FindEnd(e, NewlineOrEnd, y) == None
  {
    if y != "" {
      assert |e| < |y| ==> y[1..][|y| - 1 - |e|..] == y[|y| - |e|..];
      if |e| == |y| {
        assert y[0..] == y;
      }
      EndsNowhere(e, y[1..]);
      assert EndHere(e, NewlineOrEnd, y) == None;
    }
  }

  lemma {:induction false} OpenFenceStays(lines: seq<string>, last: string)
    requires WholeMarkers(lines) && !HasEnd(lines) && WholeMarker(last) && !IsEnd(last)
    ensures StripSentinels(Unlines(lines) + last) == Unlines(lines) + last
  {
    hide ReplaceBlocks, Occurs, WholeMarker, EndsWith, FindEnd;
    var t := Unlines(lines);
    MarkerShapes();
    HashLineAnchors(OTEL_END);
    NoEndLine(lines);
    IsOneLine(last);
    FindEndNone(OTEL_END, t);
    EndsNowhere(OTEL_END, last);
    FindEndSplit(OTEL_END, NewlineOrEnd, t, last);
    NoEndNoChange(OTEL_START + "\n", OTEL_END, NewlineOrEnd, "", t + last);
  }

  lemma {:induction false} LineStays(x: string, rest: string)
    requires WholeMarker(x) && x != OTEL_START
    ensures StripSentinels(x + "\n" + rest) == x + "\n" + StripSentinels(rest)
  {
    hide ReplaceBlocks, Occurs;
    MarkersAreAnchors();
    MarkerShapes();
    HashLineAnchors(OTEL_START);
    MarkerEndsLine(OTEL_START, x);
    CopyLines(OTEL_START + "\n", OTEL_END, NewlineOrEnd, "", x + "\n", rest);
  }

  lemma {:induction false} LastStays(last: string)
    requires OneLine(last)
    ensures StripSentinels(last) == last
  {
    hide Occurs;
    NoNewlineNoMarker(OTEL_START + "\n", last);
    CopyAll(OTEL_START + "\n", OTEL_END, NewlineOrEnd, "", last);
  }

  lemma {:induction false} NoNewlineNoMarker(p: string, t: string)
    requires '\n' in p && '\n' !in t
    ensures !Occurs(p, t)
  {
    var k :| 0 <= k < |p| && p[k] == '\n';
    assert k < |t| ==> t[k] in t;
    if t != "" {
      assert forall c :: c in t[1..] ==> c in t;
      NoNewlineNoMarker(p, t[1..]);
    }
  }

  lemma {:induction false} FencePass(lines: seq<string>, last: string)
    requires WholeMarkers(lines) && WholeMarker(last)
    ensures StripSentinels(Unlines(lines) + last) == Joined(Unfenced(lines, last), last)
    decreases |lines|
  {
    hide StripSentinels, WholeMarker, IsEnd;
    var r := Unfenced(lines, last);
    if lines == [] {
      IsOneLine(last);
      LastStays(last);
      assert "" + last == last;
    } else if lines[0] != OTEL_START {
      var rest := Unfenced(lines[1..], last);
      LineStays(lines[0], Unlines(lines[1..]) + last);
      FencePass(lines[1..], last);
      assert r.lines[1..] == rest.lines;
      assert Unlines(lines) + last == lines[0] + "\n" + (Unlines(lines[1..]) + last);
      assert Joined(r, last) == lines[0] + "\n" + Joined(rest, last);
    } else if HasEnd(lines[1..]) {
      FenceGoes(lines, last);
      FencePass(lines[2 + ToEnd(lines[1..])..], last);
    } else if IsEnd(last) {
      LastCloses(lines, last);
      assert Unlines([]) + "" == "";
    } else {
      StartIsNoEnd();
      NoEndFromHere(lines);
      OpenFenceStays(lines, last);
    }
  }

  lemma {:induction false} NoEndFromHere(lines: seq<string>)
    requires lines != [] && !IsEnd(lines[0]) && !HasEnd(lines[1..])
    ensures !HasEnd(lines)
  {
    hide IsEnd;
    if HasEnd(lines) {
      EndLater(lines);
    }
  }

  // ---------------------------------------------------------------------
  // Closed or not
  // ---------------------------------------------------------------------

  lemma {:induction false} ClosedTail(lines: seq<string>)
    requires lines != [] && lines[0] != OTEL_START
    ensures Closed(lines[1..]) <==> Closed(lines)
  {
    hide HasEnd;
    assert forall i :: 1 <= i < |lines| ==> lines[i] == lines[1..][i - 1] && lines[i..] == lines[1..][i - 1..];
    assert forall i :: 0 <= i < |lines| - 1 ==> lines[1..][i] == lines[i + 1] && lines[1..][i..] == lines[i + 1..];
  }

  lemma {:induction false} ClosedBehind(lines: seq<string>, k: nat)
    requires 0 < k <= |lines| && IsEnd(lines[k - 1])
    ensures Closed(lines[k..]) <==> Closed(lines)
  {
    hide IsEnd;
    assert forall i :: k <= i < |lines| ==> lines[i] == lines[k..][i - k] && lines[i..] == lines[k..][i - k..];
    assert forall i :: 0 <= i < |lines| - k ==> lines[k..][i] == lines[i + k] && lines[k..][i..] == lines[i + k..];
    forall i | 0 <= i < k ensures HasEnd(lines[i..]) {
      assert IsEnd(lines[i..][k - 1 - i]);
    }
  }

  lemma {:induction false} AllClosed(lines: seq<string>)
    requires lines != [] && IsEnd(lines[|lines| - 1])
    ensures Closed(lines)
  {
    hide IsEnd;
    forall i | 0 <= i < |lines| ensures HasEnd(lines[i..]) {
      assert IsEnd(lines[i..][|lines| - 1 - i]);
    }
  }

  lemma {:induction false} NeverClosed(lines: seq<string>)
    requires lines != [] && lines[0] == OTEL_START && !HasEnd(lines)
    ensures !Closed(lines)
  {
    assert lines[0..] == lines;
  }

  /** No start marker is left. */
  ghost predicate NoStart(r: Rest, last: string) {
    OTEL_START !in r.lines && (r.open ==> last != OTEL_START)
  }

  /** A start marker is left exactly when one of them is not closed. */
  lemma {:induction false} UnfencedClosed(lines: seq<string>, last: string)
    ensures NoStart(Unfenced(lines, last), last) <==> Closed(lines + [last])
    ensures forall x :: x in Unfenced(lines, last).lines ==> x in lines
    ensures !Unfenced(lines, last).open ==> IsEnd(last)
    decreases |lines|
  {
    hide Closed, ToEnd, HasEnd, IsEnd;
    var all := lines + [last];
    if lines == [] {
      OneLineClosed(last);
      assert all == [last];
    } else if lines[0] != OTEL_START {
      UnfencedClosed(lines[1..], last);
      assert all[1..] == lines[1..] + [last];
      ClosedTail(all);
      assert forall x :: x in lines[1..] ==> x in lines;
    } else if HasEnd(lines[1..]) {
      var k := 2 + ToEnd(lines[1..]);
      UnfencedClosed(lines[k..], last);
      assert all[k..] == lines[k..] + [last] && all[k - 1] == lines[1..][k - 2];
      ClosedBehind(all, k);
      assert forall x :: x in lines[k..] ==> x in lines;
    } else if IsEnd(last) {
      assert all[|all| - 1] == last;
      AllClosed(all);
    } else {
      StartIsNoEnd();
      NoEndFromHere(lines);
      NoEndAtAll(lines, last);
      NeverClosed(all);
      assert lines[0] in lines;
    }
  }

  lemma {:induction false} NoEndAtAll(lines: seq<string>, last: string)
    requires !HasEnd(lines) && !IsEnd(last)
    ensures !HasEnd(lines + [last])
  {
    hide IsEnd;
    var all := lines + [last];
    assert forall i :: 0 <= i < |lines| ==> all[i] == lines[i] && !IsEnd(lines[i]);
  }

  lemma {:induction false} OneLineClosed(last: string)
    ensures Closed([last]) <==> last != OTEL_START
  {
    StartIsNoEnd();
    if last == OTEL_START {
      assert !HasEnd([last]);
      NeverClosed([last]);
    }
  }

  // ---------------------------------------------------------------------
  // The legacy passes on lines
  // ---------------------------------------------------------------------

  /** The lines as the legacy passes see them. */
  function AsPieces(lines: seq<string>): seq<Piece> {
    if lines == [] then []
    else [if lines[0] == LEGACY_TJ || lines[0] == LEGACY_OCW then LegacyBlock(lines[0], []) else Line(lines[0])]
         + AsPieces(lines[1..])
  }

  lemma {:induction false} SameText(lines: seq<string>)
    requires WholeMarkers(lines)
    ensures Render(AsPieces(lines)) == Unlines(lines) && AllReady(AsPieces(lines))
  {
    if lines != [] {
      var ps := AsPieces(lines);
      SameText(lines[1..]);
      assert ps[1..] == AsPieces(lines[1..]);
      assert WholeMarker(lines[0]);
      assert lines[0] + "\n" + Unlines([]) == lines[0] + "\n";
      assert forall i :: 1 <= i < |ps| ==> ps[i] == ps[1..][i - 1];
    }
  }

  /** A start marker is no `export` line, and legacy markers do not survive. */
  lemma {:induction false} StartSurvives(lines: seq<string>, eating: bool)
    ensures OTEL_START in Survivors(AsPieces(lines), eating) <==> OTEL_START in lines
    ensures forall x :: x in Survivors(AsPieces(lines), eating) ==> x in lines && x != LEGACY_TJ && x != LEGACY_OCW
    decreases |lines|
  {
    if lines != [] {
      MarkersDistinct();
      assert AsPieces(lines)[1..] == AsPieces(lines[1..]);
      StartSurvives(lines[1..], true);
      StartSurvives(lines[1..], false);
      StartIsNoExport();
      assert forall x :: x in lines <==> x == lines[0] || x in lines[1..];
    }
  }

  lemma {:induction false} StartIsNoExport()
    ensures !IsExport(OTEL_START)
  {
    assert "export "[0] != OTEL_START[0];
  }

  /** What stripping leaves of the whole lines. */
  ghost function Left(lines: seq<string>, last: string): seq<string> {
    Survivors(AsPieces(Unfenced(lines, last).lines), false)
  }

  /** A last line that is no export line, or that nothing is skipped in front of, stays. */
  lemma {:induction false} LastThrough(last: string, first: bool, second: bool)
    requires WholeMarker(last)
    ensures var y := TailOf(LEGACY_OCW, TailOf(LEGACY_TJ, last, first), second);
            y == last || (y == "" && IsExport(last))
  {
    hide TailOf;
    LegacyThrough(LEGACY_TJ, last, first);
    LegacyThrough(LEGACY_OCW, last, second);
    LegacyThrough(LEGACY_OCW, "", second);
  }

  lemma {:induction false} LegacyThrough(m: string, last: string, eating: bool)
    requires OneLine(last)
    ensures TailOf(m, last, eating) == if eating && IsExport(last) then "" else last
  {
    hide StripLegacy, SkipExports, Occurs;
    NoNewlineNoMarker(m + "\n", last);
    LegacyCopies(m, last);
    SkipLast(last);
    EmptyText(m);
  }

  /** The result of stripping, with the last line or what is left of it. */
  lemma {:induction false} StripLines(lines: seq<string>, last: string) returns (y: string)
    requires WholeMarkers(lines) && WholeMarker(last)
    ensures StripOtel(Unlines(lines) + last) == Unlines(Left(lines, last)) + y
    ensures forall x :: x in Left(lines, last) ==> WholeMarker(x) && !IsLegacy(x)
    ensures OTEL_START in Left(lines, last) <==> OTEL_START in Unfenced(lines, last).lines
    ensures y == if Unfenced(lines, last).open && !(y == "" && IsExport(last)) then last else ""
  {
    hide StripSentinels, StripLegacy, Survivors, Unfenced, TailOf, WholeMarker, Eating, Closed, IsExport;
    var r := Unfenced(lines, last);
    FencePass(lines, last);
    UnfencedClosed(lines, last);
    assert WholeMarkers(r.lines) by {
      forall i | 0 <= i < |r.lines| ensures WholeMarker(r.lines[i]) {
        assert r.lines[i] in r.lines;
      }
    }
    SameText(r.lines);
    var tail := if r.open then last else "";
    LegacyPasses(AsPieces(r.lines), tail);
    StartSurvives(r.lines, false);
    var first, second :|
      StripLegacy(LEGACY_OCW, StripLegacy(LEGACY_TJ, Unlines(r.lines) + tail))
      == Unlines(Left(lines, last)) + TailOf(LEGACY_OCW, TailOf(LEGACY_TJ, tail, first), second);
    y := TailOf(LEGACY_OCW, TailOf(LEGACY_TJ, tail, first), second);
    NothingAfter();
    LastThrough(last, first, second);
  }

  // ---------------------------------------------------------------------
  // The condition
  // ---------------------------------------------------------------------

  lemma {:induction false} FreeUpToNewlines(u: string)
    requires Complete(u) && u != ""
    ensures OtelFree(RStripNewlines(u) + "\n") <==> OtelFree(u)
  {
    hide OtelFree;
    var v := u[..|u| - 1];
    assert u == v + "\n";
    if v != "" && v[|v| - 1] == '\n' {
      FreeUpToNewlines(v);
      OtelFreeSplit(v, "\n");
      NewlineIsFree();
    } else {
      RStripKeeps(v);
    }
  }

  /** What is kept holds a marker line exactly when the stripped text, ended by a newline, does. */
  lemma {:induction false} LeftoverInStripped(t: string)
    ensures NoLeftover(t) <==> OtelFree(StripOtel(t) + "\n")
  {
    hide StripOtel, OtelFree;
    var u := StripOtel(t);
    RStripAppend(u);
    if Blank(u) {
      NewlineIsFree();
      BlankIsFree(u + "\n") by {
        assert IsSpace('\n');
        assert forall k :: 0 <= k < |u + "\n"| ==> IsSpace((u + "\n")[k]);
      }
      assert Kept(t) + "\n" == "\n";
    } else {
      FreeUpToNewlines(u + "\n");
    }
  }

  lemma {:induction false} BlankIsFree(u: string)
    requires Blank(u)
    ensures OtelFree(u)
  {
    hide Occurs;
    MarkerShapes();
    assert !IsSpace('#');
    assert '#' !in u;
    OccursNeedsHead(OTEL_START + "\n", u);
    OccursNeedsHead(LEGACY_TJ + "\n", u);
    OccursNeedsHead(LEGACY_OCW + "\n", u);
  }

  lemma {:induction false} MarkerAmong(m: string, lines: seq<string>)
    requires m == OTEL_START || IsLegacy(m)
    requires forall x :: x in lines ==> WholeMarker(x)
    ensures Occurs(m + "\n", Unlines(lines)) <==> m in lines
  {
    hide Occurs;
    MarkerShapes();
    HashLineAnchors(m);
    forall i | 0 <= i < |lines| ensures OneLine(lines[i]) && (EndsWith(lines[i], m) <==> lines[i] == m) {
      assert lines[i] in lines;
      assert lines[i] == m ==> m[0..] == m;
    }
    MarkerInLines(m, lines);
  }

  /**
   The kept text holds no marker line exactly when every start marker is closed and the file does not
   end in a bare legacy marker.
   */
  lemma {:induction false} ClosedLeavesNothing(lines: seq<string>, last: string)
    requires WholeMarkers(lines) && WholeMarker(last)
    ensures NoLeftover(Unlines(lines) + last) <==> Closed(lines + [last]) && !IsLegacy(last)
  {
    hide StripOtel, Left, Occurs, Closed, Unfenced, WholeMarker, NoLeftover, IsEnd;
    var t := Unlines(lines) + last;
    var y := StripLines(lines, last);
    UnfencedClosed(lines, last);
    LeftoverInStripped(t);
    var all := Left(lines, last) + [y];
    UnlinesAppend(Left(lines, last), y);
    assert WholeMarker("") by { NothingIsMarked(); }
    MarkerAmong(OTEL_START, all);
    MarkerAmong(LEGACY_TJ, all);
    MarkerAmong(LEGACY_OCW, all);
    MarkersStand(last);
    assert forall x :: x in all <==> x in Left(lines, last) || x == y;
  }

  lemma {:induction false} NothingIsMarked()
    ensures WholeMarker("")
  {}

  /** Markers are neither empty nor export lines nor end markers. */
  lemma {:induction false} MarkersStand(last: string)
    ensures "" != OTEL_START && !IsLegacy("")
    ensures last == OTEL_START || IsLegacy(last) ==> !IsExport(last) && !IsEnd(last)
  {
    hide EndsWith;
    MarkerShapes();
    MarkersDistinct();
    if last == OTEL_START || IsLegacy(last) {
      HashEndsWithHash(last, OTEL_END);
      assert last[0] == '#' && "export "[0] == 'e';
      assert OTEL_END[2] == '<' && OTEL_START[2] == '>' && LEGACY_TJ[2] == 't' && LEGACY_OCW[2] == 'o';
    }
  }

  /**
   Rotating the secret, line by line: for every file, with or without a newline at its end, the second
   secret replaces the first exactly when each start marker has an end marker below it and the file
   does not end in a bare legacy marker.
   */
  lemma {:induction false} RotationByLines(b1: string, b2: string, lines: seq<string>, last: string)
    requires IsOtelBlock(b1) && WholeMarkers(lines) && WholeMarker(last)
    ensures var t := Unlines(lines) + last;
            WriteOtel(b2, WriteOtel(b1, t)) == WriteOtel(b2, t) <==> Closed(lines + [last]) && !IsLegacy(last)
  {
    hide WriteOtel, Closed, Unlines, IsOtelBlock;
    SecretAbsorbed(b1, b2, Unlines(lines) + last);
    ClosedLeavesNothing(lines, last);
  }
}
