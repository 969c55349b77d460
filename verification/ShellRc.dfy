/**
 The managed parts of the shell rc files (tokenjam/cli/cmd_onboard.py): the OTEL export
 block of ~/.zshrc and the `claude` wrapper function.  Files are plain strings; nothing is
 assumed about how they are divided into lines unless a lemma says so.
 */
module ShellRc {
  import opened Prelude
  import opened TextScan
  import Otlp

  const OTEL_START := "# >>> tokenjam OTEL (managed) >>>"
  const OTEL_END := "# <<< tokenjam OTEL <<<"
  const LEGACY_TJ := "# tj harness observability"
  const LEGACY_OCW := "# ocw harness observability"
  const WRAPPER_MARKER := "# tj per-terminal naming"
  const WRAPPER_END := "# end tj per-terminal naming"

  // ---------------------------------------------------------------------
  // The blocks onboarding writes
  // ---------------------------------------------------------------------

  const ENABLE_LINE := "export " + ("CLAUDE_CODE_ENABLE_TELEMETRY" + "=" + "1")
  const EXPORTER_LINE := "export " + ("OTEL_LOGS_EXPORTER" + "=" + "otlp")
  const PROTOCOL_LINE := "export " + ("OTEL_EXPORTER_OTLP_PROTOCOL" + "=" + "http/json")
  const ENDPOINT_PREFIX := "export " + ("OTEL_EXPORTER_OTLP_ENDPOINT" + "=" + "http://")
  const HEADERS_PREFIX := "export " + ("OTEL_EXPORTER_OTLP_HEADERS" + "=")
  const BEARER_PREFIX := "\"" + "Authorization=Bearer "

  function OtelExports(host: string, port: nat, secret: string): seq<string> {
    [ ENABLE_LINE, EXPORTER_LINE, PROTOCOL_LINE,
      ENDPOINT_PREFIX + host + ":" + Otlp.NatToString(port),
      HEADERS_PREFIX + BEARER_PREFIX + secret + "\"" ]
  }

  /** `_zshrc_otel_block`. */
  function OtelBlock(host: string, port: nat, secret: string): string {
    Block(OTEL_START + "\n", Unlines(OtelExports(host, port, secret)), OTEL_END)
  }

  /** `_claude_wrapper_block`; the shell code between the markers is a parameter. */
  function WrapperBlock(code: seq<string>): string {
    Block(WRAPPER_MARKER, "\n" + Unlines(code), WRAPPER_END)
  }

  // ---------------------------------------------------------------------
  // The editors
  // ---------------------------------------------------------------------

  /** The rest of the text after the current line. */
  function AfterLine(t: string): (r: string)
    ensures |r| <= |t|
  {
    if t == [] then [] else if t[0] == '\n' then t[1..] else AfterLine(t[1..])
  }

  /** A non-empty `export` line starts here. */
  predicate ExportHere(t: string) {
    "export " <= t && |t| > 7 && t[7] != '\n'
  }

  /** The text after a run of `export` lines. */
  function SkipExports(t: string): (r: string)
    ensures |r| <= |t|
    decreases |t|
  {
    if ExportHere(t) then SkipExports(AfterLine(t[8..])) else t
  }

  /** One legacy pattern: the marker line and the run of `export` lines after it. */
  function StripLegacy(marker: string, t: string): string
    decreases |t|
  {
    if t == [] then []
    else if marker + "\n" <= t then StripLegacy(marker, SkipExports(t[|marker| + 1..]))
    else [t[0]] + StripLegacy(marker, t[1..])
  }

  function StripSentinels(t: string): string {
    ReplaceBlocks(OTEL_START + "\n", OTEL_END, NewlineOrEnd, "", t)
  }

  /** `_strip_zshrc_otel_blocks`. */
  function StripOtel(t: string): string {
    StripLegacy(LEGACY_OCW, StripLegacy(LEGACY_TJ, StripSentinels(t)))
  }

  /** The zshrc rewrite: strip everything managed, then one fresh block at the end. */
  function WriteOtel(block: string, t: string): string {
    var stripped := StripOtel(t);
    if Blank(stripped) then block else RStripNewlines(stripped) + "\n\n" + block
  }

  /** `_install_claude_wrapper` on one file. */
  function InstallWrapper(wrapper: string, t: string): string {
    if !Occurs(WRAPPER_MARKER, t)
    then t + (if Complete(t) then "" else "\n") + "\n" + wrapper
    else ReplaceBlocks(WRAPPER_MARKER, WRAPPER_END, Newline, wrapper, t)
  }

  /** `_unwire_claude_wrapper` on one file. */
  function UnwireWrapper(t: string): string {
    if !Occurs(WRAPPER_MARKER, t) then t
    else ReplaceBlocks(WRAPPER_MARKER, WRAPPER_END, NewlineOrEnd, "", t)
  }

  /** What one onboard run does to ~/.zshrc. */
  function Onboard(block: string, wrapper: string, t: string): string {
    InstallWrapper(wrapper, WriteOtel(block, t))
  }

  /** What uninstall does to ~/.zshrc. */
  function Uninstall(t: string): string {
    UnwireWrapper(StripOtel(t))
  }

  // ---------------------------------------------------------------------
  // Lines and markers
  // ---------------------------------------------------------------------

  /** No line of `t` that ends in a newline ends with an OTEL marker. */
  predicate OtelFree(t: string) {
    !Occurs(OTEL_START + "\n", t) && !Occurs(LEGACY_TJ + "\n", t) && !Occurs(LEGACY_OCW + "\n", t)
  }

  ghost predicate EndsWithMarker(line: string) {
    EndsWith(line, OTEL_START) || EndsWith(line, LEGACY_TJ) || EndsWith(line, LEGACY_OCW)
  }

  lemma {:induction false} MarkerEndsLine(m: string, line: string)
    requires m != [] && OneLine(m) && OneLine(line)
    ensures Occurs(m + "\n", line + "\n") <==> EndsWith(line, m)
  {
    var t := line + "\n";
    assert |m| < |line| ==> t[|m|] == line[|m|];
    assert m + "\n" <= t <==> m == line by {
      if m + "\n" <= t {
        assert t[|m|] == '\n';
        assert m == t[..|m|] && line == t[..|line|];
      }
    }
    assert m == line ==> line[|line| - |m|..] == m;
    if line == [] {
      assert t[1..] == [];
    } else {
      assert t[1..] == line[1..] + "\n";
      MarkerEndsLine(m, line[1..]);
      assert |m| < |line| ==> line[1..][|line| - 1 - |m|..] == line[|line| - |m|..];
    }
  }

  /** A marker line occurs in a text exactly when some line ends with the marker. */
  lemma {:induction false} MarkerInLines(m: string, lines: seq<string>)
    requires m != [] && OneLine(m)
    requires forall i :: 0 <= i < |lines| ==> OneLine(lines[i])
    ensures Occurs(m + "\n", Unlines(lines)) <==> exists i :: 0 <= i < |lines| && EndsWith(lines[i], m)
  {
    if lines != [] {
      MarkerInLines(m, lines[1..]);
      assert Anchor(m + "\n") by { assert (m + "\n")[..|m|] == m; }
      OccursSplit(m + "\n", lines[0] + "\n", Unlines(lines[1..]));
      MarkerEndsLine(m, lines[0]);
      assert forall i :: 1 <= i < |lines| ==> lines[i] == lines[1..][i - 1];
      assert forall i :: 0 <= i < |lines| - 1 ==> lines[1..][i] == lines[i + 1];
    } else {
      assert Unlines(lines) == "";
    }
  }

  lemma {:induction false} MarkersAreAnchors()
    ensures Anchor(OTEL_START + "\n") && Anchor(LEGACY_TJ + "\n") && Anchor(LEGACY_OCW + "\n")
    ensures Anchor(WRAPPER_MARKER)
  {
    assert (OTEL_START + "\n")[..|OTEL_START|] == OTEL_START;
    assert (LEGACY_TJ + "\n")[..|LEGACY_TJ|] == LEGACY_TJ;
    assert (LEGACY_OCW + "\n")[..|LEGACY_OCW|] == LEGACY_OCW;
  }

  lemma {:induction false} OtelFreeSplit(a: string, b: string)
    requires Complete(a)
    ensures OtelFree(a + b) <==> OtelFree(a) && OtelFree(b)
  {
    MarkersAreAnchors();
    OccursSplit(OTEL_START + "\n", a, b);
    OccursSplit(LEGACY_TJ + "\n", a, b);
    OccursSplit(LEGACY_OCW + "\n", a, b);
  }

  // ---------------------------------------------------------------------
  // Stripping text that holds nothing managed, and blocks after it
  // ---------------------------------------------------------------------

  lemma {:induction false} LegacyCopies(m: string, t: string)
    requires !Occurs(m + "\n", t)
    ensures StripLegacy(m, t) == t
  {
    if t != [] {
      LegacyCopies(m, t[1..]);
    }
  }

  /** Text with no managed block is returned unchanged. */
  lemma {:induction false} StripNothing(t: string)
    requires OtelFree(t)
    ensures StripOtel(t) == t
  {
    CopyAll(OTEL_START + "\n", OTEL_END, NewlineOrEnd, "", t);
    LegacyCopies(LEGACY_TJ, t);
    LegacyCopies(LEGACY_OCW, t);
  }

  /** A block as the installer writes it, whatever its exports say. */
  ghost predicate IsOtelBlock(block: string) {
    exists body :: IsBody(OTEL_END, body) && block == Block(OTEL_START + "\n", body, OTEL_END)
  }

  lemma {:induction false} SentinelRemoved(a: string, block: string, b: string)
    requires Complete(a) && OtelFree(a) && IsOtelBlock(block) && OtelFree(b)
    ensures StripSentinels(a + block + b) == a + b
  {
    hide ReplaceBlocks, Occurs;
    MarkersAreAnchors();
    var body :| IsBody(OTEL_END, body) && block == Block(OTEL_START + "\n", body, OTEL_END);
    ReplaceBetween(OTEL_START + "\n", OTEL_END, NewlineOrEnd, "", a, block, body, b);
    assert a + "" + b == a + b;
  }

  /** Whole clean lines, then a block, then clean text: only the block goes. */
  lemma {:induction false} StripBlock(a: string, block: string, b: string)
    requires Complete(a) && OtelFree(a) && IsOtelBlock(block) && OtelFree(b)
    ensures StripOtel(a + block + b) == a + b
  {
    SentinelRemoved(a, block, b);
    OtelFreeSplit(a, b);
    LegacyCopies(LEGACY_TJ, a + b);
    LegacyCopies(LEGACY_OCW, a + b);
  }

  // ---------------------------------------------------------------------
  // Rotating the secret
  // ---------------------------------------------------------------------

  /** A text without its trailing newlines; nothing but white space counts as nothing. */
  function Bare(t: string): string {
    if Blank(t) then "" else RStripNewlines(t)
  }

  /** The user's text that a rewrite keeps. */
  function Kept(t: string): string { Bare(StripOtel(t)) }

  /** The kept text as it stands in front of the fresh block. */
  function Front(t: string): string {
    if Kept(t) == "" then "" else Kept(t) + "\n\n"
  }

  lemma {:induction false} KeptShape(block: string, t: string)
    ensures WriteOtel(block, t) == Front(t) + block
    ensures Kept(t) == "" || Kept(t)[|Kept(t)| - 1] != '\n'
    ensures Blank(Kept(t)) <==> Kept(t) == ""
    ensures Complete(Front(t)) && RStripNewlines(Front(t)) == Kept(t)
    ensures Blank(Front(t)) <==> Kept(t) == ""
    ensures OtelFree(Kept(t) + "\n") <==> OtelFree(Front(t))
  {
    RStripShape(StripOtel(t));
    RStripBlank(StripOtel(t));
    RStripKeeps(Kept(t));
    RStripBlank(Front(t));
    assert Kept(t) + "\n\n" == Kept(t) + "\n" + "\n";
    OtelFreeSplit(Kept(t) + "\n", "\n");
    NewlineIsFree();
  }

  lemma {:induction false} NewlineIsFree()
    ensures OtelFree("") && OtelFree("\n")
  {
    OccursNeedsHead(OTEL_START + "\n", "\n");
    OccursNeedsHead(LEGACY_TJ + "\n", "\n");
    OccursNeedsHead(LEGACY_OCW + "\n", "\n");
  }

  // When a marker line is left in front of the block, stripping eats into the kept text.

  lemma {:induction false} LegacyShrinks(m: string, t: string)
    ensures |StripLegacy(m, t)| <= |t|
    ensures Occurs(m + "\n", t) ==> |StripLegacy(m, t)| < |t| - |m|
    decreases |t|
  {
    if t != [] {
      if m + "\n" <= t {
        LegacyShrinks(m, SkipExports(t[|m| + 1..]));
      } else {
        LegacyShrinks(m, t[1..]);
      }
    }
  }

  lemma {:induction false} BlockEnd(body: string)
    requires IsBody(OTEL_END, body)
    ensures var block := Block(OTEL_START + "\n", body, OTEL_END);
            FindEnd(OTEL_END, NewlineOrEnd, block) == Some(|block|)
  {
    MarkerShapes();
    hide FindEnd, Occurs;
    var head := OTEL_START + "\n";
    HashLineAnchors(OTEL_END);
    OccursSplit(OTEL_END + "\n", head, body);
    HashInHash(OTEL_END, OTEL_START);
    FindEndNone(OTEL_END, head + body);
    FindEndSplit(OTEL_END, NewlineOrEnd, head + body, OTEL_END + "\n");
    EndMarkerEnds();
    assert Block(head, body, OTEL_END) == head + body + (OTEL_END + "\n");
  }

  lemma {:induction false} EndMarkerEnds()
    ensures FindEnd(OTEL_END, NewlineOrEnd, OTEL_END + "\n") == Some(|OTEL_END| + 1)
    ensures OTEL_START != OTEL_END
  {
    assert OTEL_START[2] == '>' && OTEL_END[2] == '<';
  }

  lemma {:induction false} LeftoverMarkerEats(front: string, block: string)
    requires Complete(front) && IsOtelBlock(block) && !OtelFree(front)
    ensures |StripOtel(front + block)| < |front| - 2
  {
    var body :| IsBody(OTEL_END, body) && block == Block(OTEL_START + "\n", body, OTEL_END);
    BlockEnd(body);
    MarkersAreAnchors();
    TailSwallowed(OTEL_START + "\n", OTEL_END, front, block, body);
    var s0 := StripSentinels(front + block);
    var s1 := StripLegacy(LEGACY_TJ, s0);
    LegacyShrinks(LEGACY_TJ, s0);
    LegacyShrinks(LEGACY_OCW, s1);
    if !Occurs(OTEL_START + "\n", front) {
      CopyLines(OTEL_START + "\n", OTEL_END, NewlineOrEnd, "", front, block);
      assert block + "" == block;
      ReplaceOne(OTEL_START + "\n", OTEL_END, NewlineOrEnd, "", body, "");
      assert s0 == front;
      if !Occurs(LEGACY_TJ + "\n", front) {
        LegacyCopies(LEGACY_TJ, front);
      }
    }
  }

  /**
   Rotating the secret.  Writing the block with one secret and then with another is the same as
   writing it once with the other, for a file of any content, exactly when the text that the
   first rewrite keeps has no marker line left in it.
   */
  lemma {:induction false} SecretAbsorbed(b1: string, b2: string, t: string)
    requires IsOtelBlock(b1)
    ensures WriteOtel(b2, WriteOtel(b1, t)) == WriteOtel(b2, t) <==> OtelFree(Kept(t) + "\n")
  {
    KeptShape(b1, t);
    KeptShape(b2, t);
    var front := Front(t);
    if OtelFree(front) {
      NewlineIsFree();
      StripBlock(front, b1, "");
      assert front + b1 + "" == front + b1 && front + "" == front;
    } else {
      LeftoverMarkerEats(front, b1);
      KeptShape(b2, front + b1);
      RStripShape(StripOtel(front + b1));
      assert |Front(front + b1)| < |front|;
    }
  }

  // ---------------------------------------------------------------------
  // The two writers together
  // ---------------------------------------------------------------------

  /** Text that may stand inside an export line: no newline, no comment character. */
  predicate Plain(s: string) { forall k :: 0 <= k < |s| ==> s[k] != '\n' && s[k] != '#' }

  /** A line that may stand between the OTEL markers. */
  ghost predicate ExportLine(line: string) {
    && OneLine(line) && !EndsWith(line, OTEL_START) && !EndsWith(line, OTEL_END)
    && !Occurs(WRAPPER_MARKER, line + "\n") && !Occurs(WRAPPER_END, line + "\n")
  }

  /** A block of such lines, as OtelBlock builds it. */
  ghost predicate IsPlainBlock(block: string) {
    exists exports: seq<string> ::
      && (forall i :: 0 <= i < |exports| ==> ExportLine(exports[i]))
      && block == Block(OTEL_START + "\n", Unlines(exports), OTEL_END)
  }

  /** A line of shell code that may stand between the wrapper markers. */
  ghost predicate CodeLine(line: string) {
    && OneLine(line) && !EndsWithMarker(line)
    && !Occurs(WRAPPER_MARKER, line + "\n") && !EndsWith(line, WRAPPER_END)
  }

  ghost predicate IsWrapperCode(code: seq<string>) {
    forall i :: 0 <= i < |code| ==> CodeLine(code[i])
  }

  ghost predicate IsWrapper(w: string) {
    exists code :: IsWrapperCode(code) && w == WrapperBlock(code)
  }

  lemma {:induction false} MarkerShapes()
    ensures HashLine(OTEL_START) && HashLine(OTEL_END) && HashLine(LEGACY_TJ) && HashLine(LEGACY_OCW)
    ensures HashLine(WRAPPER_MARKER) && HashLine(WRAPPER_END)
  {}

  /** No marker is a prefix of another. */
  lemma {:induction false} MarkersDiffer()
    ensures !(WRAPPER_MARKER <= OTEL_START) && !(WRAPPER_MARKER <= OTEL_END) && !(WRAPPER_MARKER <= WRAPPER_END)
    ensures !(WRAPPER_END <= OTEL_START) && !(WRAPPER_END <= OTEL_END)
    ensures !(OTEL_START <= OTEL_END)
    ensures WRAPPER_MARKER !in {OTEL_START, LEGACY_TJ, LEGACY_OCW}
    ensures WRAPPER_END !in {OTEL_START, LEGACY_TJ, LEGACY_OCW}
  {
    assert WRAPPER_MARKER[2] == 't' && WRAPPER_END[2] == 'e' && OTEL_START[2] == '>' && OTEL_END[2] == '<';
    assert LEGACY_OCW[2] == 'o' && LEGACY_TJ[2] == 't' && LEGACY_TJ[5] == 'h' && WRAPPER_MARKER[5] == 'p';
  }

  /** What the rest of the development needs to know about an installed OTEL block. */
  lemma {:induction false} BlockFacts(block: string)
    requires IsPlainBlock(block)
    ensures IsOtelBlock(block) && Complete(block) && OTEL_START + "\n" <= block
    ensures !Occurs(WRAPPER_MARKER, block) && !Occurs(WRAPPER_END, block)
    ensures Count(OTEL_START + "\n", block) == 1
  {
    hide Occurs, Count, EndsWith;
    var exports: seq<string> :|
      && (forall i :: 0 <= i < |exports| ==> ExportLine(exports[i]))
      && block == Block(OTEL_START + "\n", Unlines(exports), OTEL_END);
    MarkerShapes();
    UnlinesComplete(exports);
    NoMarkerLine(OTEL_START, exports);
    NoMarkerLine(OTEL_END, exports);
    NowhereInLines(WRAPPER_MARKER, exports);
    NowhereInLines(WRAPPER_END, exports);
    ExportBlockFacts(block, Unlines(exports));
  }

  lemma {:induction false} ExportBlockFacts(block: string, body: string)
    requires Complete(body) && !Occurs(OTEL_START + "\n", body) && !Occurs(OTEL_END + "\n", body)
    requires !Occurs(WRAPPER_MARKER, body) && !Occurs(WRAPPER_END, body)
    requires block == Block(OTEL_START + "\n", body, OTEL_END)
    ensures IsOtelBlock(block) && Complete(block) && OTEL_START + "\n" <= block
    ensures !Occurs(WRAPPER_MARKER, block) && !Occurs(WRAPPER_END, block)
    ensures Count(OTEL_START + "\n", block) == 1
  {
    hide Occurs, Count;
    MarkerShapes();
    MarkersDiffer();
    assert IsBody(OTEL_END, body);
    HashInBlock(WRAPPER_MARKER, OTEL_START, body, OTEL_END);
    HashInBlock(WRAPPER_END, OTEL_START, body, OTEL_END);
    CountInBlock(OTEL_START + "\n", OTEL_START, body, OTEL_END);
  }

  lemma {:induction false} PlainLine1()
    ensures Plain(ENABLE_LINE)
  {}

  lemma {:induction false} PlainLine2()
    ensures Plain(EXPORTER_LINE)
  {}

  lemma {:induction false} PlainLine3()
    ensures Plain(PROTOCOL_LINE)
  {}

  lemma {:induction false} PlainPrefixes()
    ensures Plain(ENDPOINT_PREFIX) && Plain(HEADERS_PREFIX) && Plain(BEARER_PREFIX)
  {}

  lemma {:induction false} PortIsPlain(port: nat)
    ensures Plain(Otlp.NatToString(port)) && Otlp.NatToString(port) != ""
    ensures forall c :: c in Otlp.NatToString(port) ==> Otlp.IsDigit(c)
  {
    Otlp.NatRoundTrip(port);
  }

  // ---------------------------------------------------------------------
  // Which lines hold no marker
  // ---------------------------------------------------------------------

  /** Text that may stand inside a line: it holds neither a newline nor a marker of the wrapper. */
  predicate Unmarked(s: string) {
    OneLine(s) && !Occurs(WRAPPER_MARKER, s) && !Occurs(WRAPPER_END, s)
  }

  /** A line may be either kind of line if it holds no wrapper marker and ends with no marker. */
  lemma {:induction false} PlainLine(line: string)
    requires Plain(line)
    ensures CodeLine(line) && ExportLine(line)
  {
    hide Occurs, EndsWith;
    MarkerShapes();
    NoHashNoEnd(OTEL_START, line);
    NoHashNoEnd(OTEL_END, line);
    NoHashNoEnd(LEGACY_TJ, line);
    NoHashNoEnd(LEGACY_OCW, line);
    NoHashNoEnd(WRAPPER_END, line);
    OccursNeedsHead(WRAPPER_MARKER, line + "\n");
    OccursNeedsHead(WRAPPER_END, line + "\n");
  }

  /** Text from outside inside a line of our own: a marker cannot reach over the character behind it. */
  lemma {:induction false} FoundInside(m: string, a: string, s: string, z: string)
    requires HashLine(m) && Plain(a) && Plain(z) && z != "" && z[0] !in m
    ensures Occurs(m, a + s + z + "\n") <==> Occurs(m, s)
    decreases |a| + |s|
  {
    var t := a + s + z + "\n";
    if a != "" {
      assert t[0] == a[0] && t[1..] == a[1..] + s + z + "\n";
      FoundInside(m, a[1..], s, z);
    } else if s != "" {
      assert t == s + (z + "\n") && t[1..] == "" + s[1..] + z + "\n";
      assert t[|s|] == z[0];
      assert m <= t ==> |m| <= |s|;
      assert m <= t <==> m <= s;
      FoundInside(m, "", s[1..], z);
    } else {
      assert t == z + "\n";
      OccursNeedsHead(m, t);
    }
  }

  /** The last characters of the markers. */
  predicate ClosesMarker(c: char) { c in {'<', '>', 'g', 'y'} }

  lemma {:induction false} MarkerEnds()
    ensures ClosesMarker(OTEL_START[|OTEL_START| - 1]) && ClosesMarker(OTEL_END[|OTEL_END| - 1])
    ensures ClosesMarker(LEGACY_TJ[|LEGACY_TJ| - 1]) && ClosesMarker(LEGACY_OCW[|LEGACY_OCW| - 1])
    ensures ClosesMarker(WRAPPER_END[|WRAPPER_END| - 1])
    ensures forall c :: c in {':', '"'} ==> c !in WRAPPER_MARKER && c !in WRAPPER_END
  {}

  lemma {:induction false} EndsOtherwise(m: string, line: string)
    requires m != "" && line != "" && ClosesMarker(m[|m| - 1]) && !ClosesMarker(line[|line| - 1])
    ensures !EndsWith(line, m)
  {
    if |m| <= |line| {
      assert line[|line| - |m|..][|m| - 1] == line[|line| - 1];
    }
  }

  lemma {:induction false} QuotedLine(a: string, s: string, z: string)
    requires Plain(a) && Unmarked(s) && Plain(z)
    requires z != "" && z[0] in {':', '"'} && !ClosesMarker(z[|z| - 1])
    ensures CodeLine(a + s + z) && ExportLine(a + s + z)
  {
    hide Occurs, EndsWith, ClosesMarker;
    var line := a + s + z;
    MarkerShapes();
    MarkerEnds();
    assert line[|line| - 1] == z[|z| - 1];
    EndsOtherwise(OTEL_START, line);
    EndsOtherwise(OTEL_END, line);
    EndsOtherwise(LEGACY_TJ, line);
    EndsOtherwise(LEGACY_OCW, line);
    EndsOtherwise(WRAPPER_END, line);
    FoundInside(WRAPPER_MARKER, a, s, z);
    FoundInside(WRAPPER_END, a, s, z);
  }

  /**
   The block onboarding writes is of this kind for every host and secret that hold neither a newline
   nor a marker of the wrapper.
   */
  lemma {:induction false} OtelBlockIsPlain(host: string, port: nat, secret: string)
    requires Unmarked(host) && Unmarked(secret)
    ensures IsPlainBlock(OtelBlock(host, port, secret))
  {
    hide ExportLine, CodeLine, Occurs, Unmarked;
    PlainLine1();
    PlainLine2();
    PlainLine3();
    PlainPrefixes();
    PortIsPlain(port);
    PlainLine(ENABLE_LINE);
    PlainLine(EXPORTER_LINE);
    PlainLine(PROTOCOL_LINE);
    var digits := Otlp.NatToString(port);
    var colon, quote := ":" + digits, "\"";
    assert Otlp.IsDigit(digits[|digits| - 1]) && colon[|colon| - 1] == digits[|digits| - 1];
    QuotedLine(ENDPOINT_PREFIX, host, colon);
    QuotedLine(HEADERS_PREFIX + BEARER_PREFIX, secret, quote);
    var exports := OtelExports(host, port, secret);
    assert exports[3] == ENDPOINT_PREFIX + host + colon;
    assert exports[4] == HEADERS_PREFIX + BEARER_PREFIX + secret + quote;
    forall i | 0 <= i < |exports| ensures ExportLine(exports[i]) {
      assert i in {0, 1, 2, 3, 4};
    }
  }

  lemma {:induction false} NoMarkerLine(m: string, code: seq<string>)
    requires HashLine(m)
    requires forall i :: 0 <= i < |code| ==> OneLine(code[i]) && !EndsWith(code[i], m)
    ensures !Occurs(m + "\n", Unlines(code))
  {
    MarkerInLines(m, code);
  }

  lemma {:induction false} NowhereInLines(p: string, code: seq<string>)
    requires HashLine(p)
    requires forall i :: 0 <= i < |code| ==> !Occurs(p, code[i] + "\n")
    ensures !Occurs(p, Unlines(code))
  {
    if code != [] {
      NowhereInLines(p, code[1..]);
      HashLineAnchors(p);
      OccursSplit(p, code[0] + "\n", Unlines(code[1..]));
    }
  }

  lemma {:induction false} WrapperBodyClean(code: seq<string>)
    requires IsWrapperCode(code)
    ensures Complete(Unlines(code)) && OtelFree(Unlines(code))
    ensures !Occurs(WRAPPER_MARKER, Unlines(code)) && !Occurs(WRAPPER_END + "\n", Unlines(code))
  {
    MarkerShapes();
    UnlinesComplete(code);
    NoMarkerLine(OTEL_START, code);
    NoMarkerLine(LEGACY_TJ, code);
    NoMarkerLine(LEGACY_OCW, code);
    NoMarkerLine(WRAPPER_END, code);
    NowhereInLines(WRAPPER_MARKER, code);
  }

  ghost predicate IsWrapperAround(w: string, body: string) {
    IsBody(WRAPPER_END, body) && w == Block(WRAPPER_MARKER, body, WRAPPER_END)
  }

  lemma {:induction false} NoHashNoEnd(m: string, line: string)
    requires HashLine(m) && '#' !in line
    ensures !EndsWith(line, m)
  {
    if |m| <= |line| {
      assert line[|line| - |m|] in line;
    }
  }

  /** What the rest of the development needs to know about the wrapper block. */
  lemma {:induction false} WrapperFacts(w: string) returns (body: string)
    requires IsWrapper(w)
    ensures IsWrapperAround(w, body)
    ensures WRAPPER_MARKER + "\n" <= w && Complete(w) && OtelFree(w)
    ensures |w| > 1 && w[|w| - 2] != '\n' && !Blank(w)
    ensures Count(WRAPPER_MARKER, w) == 1
  {
    var code :| IsWrapperCode(code) && w == WrapperBlock(code);
    WrapperBodyClean(code);
    body := "\n" + Unlines(code);
    WrapperBlockFacts(w, Unlines(code));
  }

  lemma {:induction false} WrapperBlockFacts(w: string, mid: string)
    requires Complete(mid) && OtelFree(mid)
    requires !Occurs(WRAPPER_MARKER, mid) && !Occurs(WRAPPER_END + "\n", mid)
    requires w == Block(WRAPPER_MARKER, "\n" + mid, WRAPPER_END)
    ensures IsWrapperAround(w, "\n" + mid)
    ensures WRAPPER_MARKER + "\n" <= w && Complete(w) && OtelFree(w)
    ensures |w| > 1 && w[|w| - 2] != '\n' && !Blank(w)
    ensures Count(WRAPPER_MARKER, w) == 1
  {
    hide Occurs, Count, OtelFree;
    MarkerShapes();
    MarkersDiffer();
    AroundBody(w, mid);
    WrapperFreeOfOtel(w, mid);
    CountInBlock(WRAPPER_MARKER, WRAPPER_MARKER, mid, WRAPPER_END);
    BlockEdges(WRAPPER_MARKER + "\n", mid, WRAPPER_END);
  }

  lemma {:induction false} AroundBody(w: string, mid: string)
    requires Complete(mid) && !Occurs(WRAPPER_END + "\n", mid)
    requires w == Block(WRAPPER_MARKER, "\n" + mid, WRAPPER_END)
    ensures IsWrapperAround(w, "\n" + mid) && w == Block(WRAPPER_MARKER + "\n", mid, WRAPPER_END)
  {
    hide Occurs;
    MarkerShapes();
    HashLineAnchors(WRAPPER_END);
    OccursSplit(WRAPPER_END + "\n", "\n", mid);
    OccursNeedsHead(WRAPPER_END + "\n", "\n");
  }

  lemma {:induction false} WrapperFreeOfOtel(w: string, mid: string)
    requires Complete(mid) && OtelFree(mid)
    requires w == Block(WRAPPER_MARKER + "\n", mid, WRAPPER_END)
    ensures OtelFree(w)
  {
    MarkerShapes();
    MarkersDiffer();
    HashLineInBlock(OTEL_START, WRAPPER_MARKER, mid, WRAPPER_END);
    HashLineInBlock(LEGACY_TJ, WRAPPER_MARKER, mid, WRAPPER_END);
    HashLineInBlock(LEGACY_OCW, WRAPPER_MARKER, mid, WRAPPER_END);
  }

  lemma {:induction false} BlockEdges(s: string, mid: string, e: string)
    requires s != [] && s[0] == '#' && HashLine(e)
    ensures var w := Block(s, mid, e);
            s <= w && Complete(w) && !Blank(w) && |w| > 1 && w[|w| - 2] != '\n'
  {
    var w := Block(s, mid, e);
    assert w[0] == '#';
    assert w[|w| - 2] == e[|e| - 1];
  }
}
