/**
 The `claude` shell function that onboarding installs, line by line (tokenjam/cli/cmd_onboard.py), and
 why it may stand between the wrapper markers.
 */
module ClaudeWrapper {
  import opened Prelude
  import opened TextScan
  import opened ShellRc
  import Otlp
  import opened RcPipeline
  import opened RcPath
  import opened ReTemplate

  /** A line in parts: without '#', with one after `before`, or with the path of `tj` after `before`. */
  datatype ShellLine =
    | Code(parts: seq<string>)
    | Remark(before: string, parts: seq<string>)
    | WithBin(before: string, parts: seq<string>)

  function Glue(parts: seq<string>): string {
    if parts == [] then "" else parts[0] + Glue(parts[1..])
  }

  function Show(line: ShellLine, tjBin: string): string {
    match line
    case Code(parts) => Glue(parts)
    case Remark(before, parts) => before + "#" + Glue(parts)
    case WithBin(before, parts) => before + tjBin + Glue(parts)
  }

  function Shown(lines: seq<ShellLine>, tjBin: string): seq<string> {
    seq(|lines|, i requires 0 <= i < |lines| => Show(lines[i], tjBin))
  }

  function Notes(): seq<ShellLine> {
    [ Remark("", [" Tags each terminal", " with a distinct", " service.instance.id", " so concurrent"]) ]
  }

  function NotesMore(): seq<ShellLine> {
    [ Remark("", [" Claude Code sessions", " appear as separate", " TokenJam dashboard", " tiles."]) ]
  }

  function Start(): seq<ShellLine> {
    [ Remark("", [" Override the label", " with: claude --as", " <name>"]),
      Code(["claude() {"]),
      Code(["  local _tj_as=\"\""]),
      Code(["  local -a _tj_args=()"]) ]
  }

  function Flags(): seq<ShellLine> {
    [ Remark("  while [ \"$", ["\" -gt 0 ]; do"]),
      Code(["    case \"$1\" in"]) ]
  }

  function Label(): seq<ShellLine> {
    [ Code(["      --as)", " _tj_as=\"$2\"; shift 2", " ;;"]),
      Remark("      --as=*) _tj_as=\"${1", ["--as=}\"; shift ;;"]) ]
  }

  function Shifts(): seq<ShellLine> {
    [ Code(["      *)", " _tj_args+=(\"$1\");", " shift ;;"]),
      Code(["    esac"]),
      Code(["  done"]) ]
  }

  function Terminal(): seq<ShellLine> {
    [ Code(["  local", " _tj_inst=\"$_tj_as\""]),
      Code(["  if [ -z \"$_tj_inst\"", " ]; then"]),
      Code(["    local _tj_tty"]) ]
  }

  function Tty(): seq<ShellLine> {
    [ Code(["    _tj_tty=\"$(tty", " 2>/dev/null)\""]),
      Code(["    case \"$_tj_tty\" in"]) ]
  }

  function Instance(): seq<ShellLine> {
    [ Remark("      /dev/*) _tj_inst=\"${_tj_tty", ["/dev/}\";", " _tj_inst=\"${_tj_inst//", "\\/", "/-}\" ;;"]) ]
  }

  function Unknown(): seq<ShellLine> {
    [ Code(["    esac"]),
      Code(["  fi"]),
      Code(["  [ -z \"$_tj_inst\" ]", " && _tj_inst=\"unknown\""]) ]
  }

  function Silence(): seq<ShellLine> {
    [ Remark("  ", [" Silence stderr and", " tolerate failure: a", " stale/shadowed tj on", " PATH"]) ]
  }

  function SilenceMore(): seq<ShellLine> {
    [ Remark("  ", [" must never leak a", " traceback into every", " claude launch, and an", " empty"]) ]
  }

  function Tolerance(): seq<ShellLine> {
    [ Remark("  ", [" or failing lookup", " must not produce a", " malformed", " leading-comma value."]),
      Code(["  local _tj_attrs"]) ]
  }

  function Lookup(): seq<ShellLine> {
    [ WithBin("  _tj_attrs=\"$(\"", ["\" otel-resource-attrs", " 2>/dev/null)\" ||", " _tj_attrs=\"\""]),
      Code(["  if [ -n \"$_tj_attrs\"", " ]; then"]) ]
  }

  function Exports(): seq<ShellLine> {
    [ Code(["    export", " OTEL_RESOURCE_ATTRIBUTES=\"", "$_tj_attrs,service.instance.id=", "$_tj_inst\""]),
      Code(["  else"]) ]
  }

  function Otherwise(): seq<ShellLine> {
    [ Code(["    export", " OTEL_RESOURCE_ATTRIBUTES=\"", "service.instance.id=$_tj_inst\""]),
      Code(["  fi"]) ]
  }

  function Report(): seq<ShellLine> {
    [ Remark("  ", [" Report this", " terminal's session", " closed on", " exit/interrupt so the"]) ]
  }

  function ReportMore(): seq<ShellLine> {
    [ Remark("  ", [" dashboard archives", " its tile. Idempotent", " \U{2014} double-fire is", " harmless."]) ]
  }

  function Trap(): seq<ShellLine> {
    [ WithBin("  trap '\"", ["\" session-end --instance", " \"$_tj_inst\" >/dev/null", " 2>&1 || true' INT TERM",
        " HUP"]) ]
  }

  function Launch(): seq<ShellLine> {
    [ Code(["  command claude", " \"${_tj_args[@]}\""]),
      Code(["  local _tj_status=$?"]),
      Code(["  trap - INT TERM HUP"]) ]
  }

  function Close(): seq<ShellLine> {
    [ WithBin("  \"", ["\" session-end --instance", " \"$_tj_inst\" >/dev/null", " 2>&1 || true"]),
      Code(["  return $_tj_status"]),
      Code(["}"]) ]
  }

  function Sections(): seq<seq<ShellLine>> {
    [ Notes(), NotesMore(), Start(), Flags(), Label(), Shifts(), Terminal(), Tty(),
      Instance(), Unknown(), Silence(), SilenceMore(), Tolerance(), Lookup(), Exports(), Otherwise(), Report(),
      ReportMore(), Trap(), Launch(), Close() ]
  }

  /** `_claude_wrapper_block`, for a `tj` at the given path. */
  function ClaudeBlock(tjBin: string): string { WrapperBlock(Shown(Flatten(Sections()), tjBin)) }

  // ---------------------------------------------------------------------
  // No line is, or holds, a marker
  // ---------------------------------------------------------------------

  /** What follows a '#' in a line does not continue a marker. */
  predicate OtherComment(b: string) {
    && |b| >= 3
    && (b[0] == ' ' ==> b[1] != '>' && !(b[1] == 't' && b[2] == 'j') && !(b[1] == 'e' && b[2] == 'n')
                        && !(b[1] == 'o' && b[2] == 'c'))
  }

  /** Text of ours: no newline, no '#', and no backslash but in front of a slash. */
  predicate Ours(s: string) {
    s == "\\/" || forall k :: 0 <= k < |s| ==> s[k] != '\n' && s[k] != '#' && s[k] != '\\'
  }

  predicate AllOurs(parts: seq<string>) {
    && 0 < |parts| <= 4 && Ours(parts[0])
    && (|parts| > 1 ==> Ours(parts[1])) && (|parts| > 2 ==> Ours(parts[2])) && (|parts| > 3 ==> Ours(parts[3]))
  }

  /** The parts are ours, hold no marker, and none can form around the path. */
  predicate Fits(line: ShellLine) {
    match line
    case Code(parts) => AllOurs(parts)
    case Remark(before, parts) => Ours(before) && AllOurs(parts) && OtherComment(parts[0])
    case WithBin(before, parts) =>
      && Ours(before) && AllOurs(parts)
      && parts[0] != "" && parts[0][0] == '"'
      && (var last := parts[|parts| - 1]; last != "" && !ClosesMarker(last[|last| - 1]))
  }

  predicate AllFit(lines: seq<ShellLine>) {
    forall i :: 0 <= i < |lines| ==> Fits(lines[i])
  }

  lemma {:induction false} CommentLine(a: string, b: string)
    requires Plain(a) && Plain(b) && OtherComment(b)
    ensures CodeLine(a + "#" + b)
  {
    hide Occurs, OtherComment;
    MarkerShapes();
    MarkersStart(b);
    EndsAtHash(OTEL_START, a, b);
    EndsAtHash(LEGACY_TJ, a, b);
    EndsAtHash(LEGACY_OCW, a, b);
    EndsAtHash(WRAPPER_END, a, b);
    FoundAtHash(WRAPPER_MARKER, a, b);
  }

  lemma {:induction false} MarkersStart(b: string)
    requires OtherComment(b)
    ensures |b| >= 3
    ensures |OTEL_START| > 3 && OTEL_START[..4] != "#" + b[..3]
    ensures |LEGACY_TJ| > 3 && LEGACY_TJ[..4] != "#" + b[..3]
    ensures |LEGACY_OCW| > 3 && LEGACY_OCW[..4] != "#" + b[..3]
    ensures |WRAPPER_END| > 3 && WRAPPER_END[..4] != "#" + b[..3]
    ensures |WRAPPER_MARKER| > 3 && WRAPPER_MARKER[..4] != "#" + b[..3]
  {
    var h := "#" + b[..3];
    assert h[1] == b[0] && h[2] == b[1] && h[3] == b[2];
    FirstFour(OTEL_START, h);
    FirstFour(LEGACY_TJ, h);
    FirstFour(LEGACY_OCW, h);
    FirstFour(WRAPPER_END, h);
    FirstFour(WRAPPER_MARKER, h);
  }

  lemma {:induction false} FirstFour(m: string, h: string)
    requires |m| > 3 && |h| == 4 && (h[1] != m[1] || h[2] != m[2] || h[3] != m[3])
    ensures m[..4] != h
  {}

  lemma {:induction false} EndsAtHash(m: string, a: string, b: string)
    requires HashLine(m) && |m| > 3 && '#' !in a && '#' !in b && |b| >= 3 && m[..4] != "#" + b[..3]
    ensures !EndsWith(a + "#" + b, m)
  {
    var line := a + "#" + b;
    if |m| <= |line| {
      var k := |line| - |m|;
      if k == |a| {
        assert line[k..] == "#" + b;
        assert ("#" + b)[..4] == "#" + b[..3];
      } else {
        assert line[k] != '#';
        assert line[k..][0] == line[k];
      }
    }
  }

  lemma {:induction false} PrefixParts(m: string, t: string)
    requires |m| > 3 && |t| > 3 && m[..4] != t[..4]
    ensures !(m <= t)
  {
    var k :| 0 <= k < 4 && m[k] != t[k];
  }

  lemma {:induction false} FoundAtHash(m: string, a: string, b: string)
    requires HashLine(m) && |m| > 3 && '#' !in a && '#' !in b && |b| >= 3 && m[..4] != "#" + b[..3]
    ensures !Occurs(m, a + "#" + b + "\n")
    decreases |a|
  {
    var t := a + "#" + b + "\n";
    if a == "" {
      assert t[1..] == b + "\n" && t[..4] == "#" + b[..3];
      PrefixParts(m, t);
      OccursNeedsHead(m, b + "\n");
    } else {
      assert t[1..] == a[1..] + "#" + b + "\n" && t[0] == a[0];
      FoundAtHash(m, a[1..], b);
    }
  }

  lemma {:induction false} PlainGlue(parts: seq<string>)
    requires forall i :: 0 <= i < |parts| ==> Plain(parts[i])
    ensures Plain(Glue(parts))
    ensures parts != [] ==> parts[0] <= Glue(parts)
    ensures parts != [] && parts[|parts| - 1] != "" ==>
              var last, all := parts[|parts| - 1], Glue(parts);
              all != "" && all[|all| - 1] == last[|last| - 1]
  {
    if parts != [] {
      PlainGlue(parts[1..]);
    }
  }

  lemma {:induction false} OursIsPlain(s: string)
    requires Ours(s)
    ensures Plain(s) && NoEscape(s) && !EndsInBackslash(s)
  {
    assert !Special('/');
  }

  lemma {:induction false} OursGlue(parts: seq<string>)
    requires forall i :: 0 <= i < |parts| ==> Ours(parts[i])
    ensures NoEscape(Glue(parts)) && !EndsInBackslash(Glue(parts))
  {
    hide NoEscape;
    if parts != [] {
      OursIsPlain(parts[0]);
      OursGlue(parts[1..]);
      NoEscapeJoin(parts[0], Glue(parts[1..]));
    } else {
      NothingEscapes();
    }
  }

  lemma {:induction false} NothingEscapes()
    ensures NoEscape("")
  {}

  lemma {:induction false} LineFits(line: ShellLine, tjBin: string)
    requires Fits(line) && Unmarked(tjBin)
    ensures CodeLine(Show(line, tjBin))
    ensures Occurs(PATH_START, Show(line, tjBin) + "\n") ==> Occurs(PATH_START, tjBin)
  {
    hide Plain, CodeLine, Glue, Unmarked, ClosesMarker, Ours, Occurs;
    forall i | 0 <= i < |line.parts| ensures Plain(line.parts[i]) {
      OursIsPlain(line.parts[i]);
    }
    PlainGlue(line.parts);
    PathMarkers();
    NoPathMarker(Glue(line.parts));
    if !line.Code? {
      OursIsPlain(line.before);
    }
    match line
    case Code(parts) => PlainLine(Glue(parts));
    case Remark(before, parts) =>
      GluedComment(parts);
      CommentLine(before, Glue(parts));
      PathNotInComment(before, Glue(parts));
    case WithBin(before, parts) =>
      QuotedLine(before, tjBin, Glue(parts));
      NoQuoteInPath();
      FoundInside(PATH_START, before, tjBin, Glue(parts));
  }

  lemma {:induction false} NoQuoteInPath()
    ensures '"' !in PATH_START && ':' !in PATH_START
  {}

  lemma {:induction false} NoPathMarker(line: string)
    requires Plain(line)
    ensures !Occurs(PATH_START, line + "\n")
  {
    PathMarkers();
    OccursNeedsHead(PATH_START, line + "\n");
  }

  lemma {:induction false} GluedComment(parts: seq<string>)
    requires parts != [] && OtherComment(parts[0]) && parts[0] <= Glue(parts)
    ensures OtherComment(Glue(parts))
  {}

  lemma {:induction false} PathNotInComment(a: string, b: string)
    requires Plain(a) && Plain(b) && OtherComment(b)
    ensures !Occurs(PATH_START, a + "#" + b + "\n")
  {
    hide OtherComment;
    MarkersStart(b);
    PathMarkers();
    assert PATH_START[..4] == OTEL_START[..4];
    FoundAtHash(PATH_START, a, b);
  }

  /** A line holds an escape exactly if the path of `tj` in it does. */
  lemma {:induction false} LineEscapes(line: ShellLine, tjBin: string)
    requires Fits(line)
    ensures NoEscape(Show(line, tjBin)) <==> (line.WithBin? ==> NoEscape(tjBin))
    ensures !EndsInBackslash(Show(line, tjBin))
  {
    hide Ours, NoEscape, Special, Glue, OtherComment, ClosesMarker;
    OursGlue(line.parts);
    QuoteIsPlain();
    match line
    case Code(parts) =>
    case Remark(before, parts) =>
      OursIsPlain(before);
      NoEscapeJoin(before, "#");
      NoEscapeJoin(before + "#", Glue(parts));
    case WithBin(before, parts) =>
      OursIsPlain(before);
      NoEscapeJoin(before, tjBin);
      GlueIsThere(parts);
      NoEscapeJoin(before + tjBin, Glue(parts));
  }

  lemma {:induction false} QuoteIsPlain()
    ensures !Special('"') && NoEscape("#") && !Special('\n')
  {}

  lemma {:induction false} GlueIsThere(parts: seq<string>)
    requires parts != [] && parts[0] != ""
    ensures Glue(parts) != "" && Glue(parts)[0] == parts[0][0]
  {}

  lemma {:induction false} NotesFit()
    ensures AllFit(Notes())
  {
    assert Fits(Notes()[0]);
  }

  lemma {:induction false} NotesMoreFit()
    ensures AllFit(NotesMore())
  {
    assert Fits(NotesMore()[0]);
  }

  lemma {:induction false} StartFit()
    ensures AllFit(Start())
  {
    assert Fits(Start()[0]);
    assert Fits(Start()[1]);
    assert Fits(Start()[2]);
    assert Fits(Start()[3]);
  }

  lemma {:induction false} FlagsFit()
    ensures AllFit(Flags())
  {
    assert Fits(Flags()[0]);
    assert Fits(Flags()[1]);
  }

  lemma {:induction false} LabelFirstFits()
    ensures Fits(Label()[0])
  {}

  lemma {:induction false} LabelSecondFits()
    ensures Fits(Label()[1])
  {}

  lemma {:induction false} LabelFit()
    ensures AllFit(Label())
  {
    hide Fits;
    LabelFirstFits();
    LabelSecondFits();
  }

  lemma {:induction false} ShiftsFit()
    ensures AllFit(Shifts())
  {
    assert Fits(Shifts()[0]);
    assert Fits(Shifts()[1]);
    assert Fits(Shifts()[2]);
  }

  lemma {:induction false} TerminalFit()
    ensures AllFit(Terminal())
  {
    assert Fits(Terminal()[0]);
    assert Fits(Terminal()[1]);
    assert Fits(Terminal()[2]);
  }

  lemma {:induction false} TtyFit()
    ensures AllFit(Tty())
  {
    assert Fits(Tty()[0]);
    assert Fits(Tty()[1]);
  }

  lemma {:induction false} InstanceFit()
    ensures AllFit(Instance())
  {
    assert Fits(Instance()[0]);
  }

  lemma {:induction false} UnknownFit()
    ensures AllFit(Unknown())
  {
    assert Fits(Unknown()[0]);
    assert Fits(Unknown()[1]);
    assert Fits(Unknown()[2]);
  }

  lemma {:induction false} SilenceFit()
    ensures AllFit(Silence())
  {
    assert Fits(Silence()[0]);
  }

  lemma {:induction false} SilenceMoreFit()
    ensures AllFit(SilenceMore())
  {
    assert Fits(SilenceMore()[0]);
  }

  lemma {:induction false} ToleranceFit()
    ensures AllFit(Tolerance())
  {
    assert Fits(Tolerance()[0]);
    assert Fits(Tolerance()[1]);
  }

  lemma {:induction false} LookupFirstFits()
    ensures Fits(Lookup()[0])
  {}

  lemma {:induction false} LookupSecondFits()
    ensures Fits(Lookup()[1])
  {}

  lemma {:induction false} LookupFit()
    ensures AllFit(Lookup())
  {
    hide Fits;
    LookupFirstFits();
    LookupSecondFits();
  }

  lemma {:induction false} ExportsFit()
    ensures AllFit(Exports())
  {
    assert Fits(Exports()[0]);
    assert Fits(Exports()[1]);
  }

  lemma {:induction false} OtherwiseFit()
    ensures AllFit(Otherwise())
  {
    assert Fits(Otherwise()[0]);
    assert Fits(Otherwise()[1]);
  }

  lemma {:induction false} ReportFit()
    ensures AllFit(Report())
  {
    assert Fits(Report()[0]);
  }

  lemma {:induction false} ReportMoreFit()
    ensures AllFit(ReportMore())
  {
    assert Fits(ReportMore()[0]);
  }

  lemma {:induction false} TrapFit()
    ensures AllFit(Trap())
  {
    assert Fits(Trap()[0]);
  }

  lemma {:induction false} LaunchFit()
    ensures AllFit(Launch())
  {
    assert Fits(Launch()[0]);
    assert Fits(Launch()[1]);
    assert Fits(Launch()[2]);
  }

  lemma {:induction false} CloseFirstFits()
    ensures Fits(Close()[0])
  {}

  lemma {:induction false} CloseSecondFits()
    ensures Fits(Close()[1])
  {}

  lemma {:induction false} CloseThirdFits()
    ensures Fits(Close()[2])
  {}

  lemma {:induction false} CloseFit()
    ensures AllFit(Close())
  {
    hide Fits;
    CloseFirstFits();
    CloseSecondFits();
    CloseThirdFits();
  }

  lemma {:induction false} AllJoin(parts: seq<seq<ShellLine>>)
    requires forall i :: 0 <= i < |parts| ==> AllFit(parts[i])
    ensures AllFit(Flatten(parts))
  {
    if parts != [] {
      AllJoin(parts[1..]);
    }
  }

  lemma {:induction false} BlockFits()
    ensures AllFit(Flatten(Sections()))
  {
    hide AllFit, Flatten, Notes, NotesMore, Start, Flags, Label, Shifts, Terminal, Tty, Instance,
         Unknown, Silence, SilenceMore, Tolerance, Lookup, Exports, Otherwise, Report, ReportMore, Trap, Launch, Close;
    NotesFit();
    NotesMoreFit();
    StartFit();
    FlagsFit();
    LabelFit();
    ShiftsFit();
    TerminalFit();
    TtyFit();
    InstanceFit();
    UnknownFit();
    SilenceFit();
    SilenceMoreFit();
    ToleranceFit();
    LookupFit();
    ExportsFit();
    OtherwiseFit();
    ReportFit();
    ReportMoreFit();
    TrapFit();
    LaunchFit();
    CloseFit();
    AllJoin(Sections());
  }

  /**
   The block that onboarding installs is a wrapper, for every path of `tj` that holds neither a newline
   nor a marker of the wrapper.
   */
  lemma {:induction false} ClaudeBlockIsWrapper(tjBin: string)
    requires Unmarked(tjBin)
    ensures IsWrapper(ClaudeBlock(tjBin))
  {
    hide Fits, CodeLine, Flatten, Sections, Show, Unmarked;
    var lines := Flatten(Sections());
    BlockFits();
    forall i | 0 <= i < |lines| ensures CodeLine(Show(lines[i], tjBin)) {
      LineFits(lines[i], tjBin);
    }
    assert IsWrapperCode(Shown(lines, tjBin));
  }

  // ---------------------------------------------------------------------
  // The block as the argument of a replacement
  // ---------------------------------------------------------------------

  lemma {:induction false} UnlinesEscape(lines: seq<string>)
    requires forall i :: 0 <= i < |lines| ==> !EndsInBackslash(lines[i])
    ensures NoEscape(Unlines(lines)) <==> forall i :: 0 <= i < |lines| ==> NoEscape(lines[i])
    ensures !EndsInBackslash(Unlines(lines))
  {
    hide NoEscape, Special;
    if lines == [] {
      NothingEscapes();
    } else {
      var rest := lines[1..];
      UnlinesEscape(rest);
      NewlineEscapesNot();
      NoEscapeJoin(lines[0], "\n");
      NoEscapeJoin(lines[0] + "\n", Unlines(rest));
      assert forall i :: 1 <= i < |lines| ==> lines[i] == rest[i - 1];
      assert forall i :: 0 <= i < |rest| ==> rest[i] == lines[i + 1];
    }
  }

  lemma {:induction false} NewlineEscapesNot()
    ensures NoEscape("\n")
  {}

  lemma {:induction false} InFlatten<T>(ss: seq<seq<T>>, i: nat, x: T)
    requires i < |ss| && x in ss[i]
    ensures x in Flatten(ss)
  {
    if i > 0 {
      InFlatten(ss[1..], i - 1, x);
    }
  }

  lemma {:induction false} PathIsThere()
    ensures exists i :: 0 <= i < |Flatten(Sections())| && Flatten(Sections())[i].WithBin?
  {
    hide Flatten;
    var line := Lookup()[0];
    var k := Find(Sections(), Lookup());
    InFlatten(Sections(), k, line);
    var i :| 0 <= i < |Flatten(Sections())| && Flatten(Sections())[i] == line;
  }

  lemma {:induction false} Find(ss: seq<seq<ShellLine>>, s: seq<ShellLine>) returns (k: nat)
    requires s in ss
    ensures k < |ss| && ss[k] == s
  {
    k :| k < |ss| && ss[k] == s;
  }

  lemma {:induction false} MarkersEscapeNot()
    ensures NoEscape(WRAPPER_MARKER) && !EndsInBackslash(WRAPPER_MARKER)
    ensures NoEscape(WRAPPER_END) && !EndsInBackslash(WRAPPER_END)
  {
    hide Special;
    assert '\\' !in WRAPPER_MARKER && '\\' !in WRAPPER_END;
    NoBackslash(WRAPPER_MARKER);
    NoBackslash(WRAPPER_END);
  }

  lemma {:induction false} NoBackslash(t: string)
    requires '\\' !in t
    ensures NoEscape(t) && !EndsInBackslash(t)
  {
    hide Special;
    assert forall k :: 0 <= k < |t| ==> t[k] in t;
  }

  lemma {:induction false} WrapperEscapes(code: seq<string>)
    requires forall i :: 0 <= i < |code| ==> !EndsInBackslash(code[i])
    ensures NoEscape(WrapperBlock(code)) <==> forall i :: 0 <= i < |code| ==> NoEscape(code[i])
    ensures !EndsInBackslash(WrapperBlock(code))
  {
    hide NoEscape, Special;
    var mid := Unlines(code);
    MarkersEscapeNot();
    NewlineEscapesNot();
    UnlinesEscape(code);
    NoEscapeJoin(WRAPPER_MARKER, "\n");
    NoEscapeJoin(WRAPPER_MARKER + "\n", mid);
    NoEscapeJoin(WRAPPER_MARKER + "\n" + mid, WRAPPER_END);
    NoEscapeJoin(WRAPPER_MARKER + "\n" + mid + WRAPPER_END, "\n");
    assert WrapperBlock(code) == WRAPPER_MARKER + "\n" + mid + WRAPPER_END + "\n";
  }

  /**
   Refreshing inserts the block as it is exactly when no backslash in the path of `tj` is an escape;
   otherwise the replacement raises, or writes something else.
   */
  lemma {:induction false} InsertedAsItIs(tjBin: string)
    ensures Parse(ClaudeBlock(tjBin)) == Some(Literally(ClaudeBlock(tjBin))) <==> NoEscape(tjBin)
  {
    hide Fits, Flatten, Sections, Show, NoEscape, Parse, Literally, EndsInBackslash;
    var lines := Flatten(Sections());
    var code := Shown(lines, tjBin);
    BlockFits();
    forall i | 0 <= i < |lines|
      ensures NoEscape(code[i]) <==> (lines[i].WithBin? ==> NoEscape(tjBin))
      ensures !EndsInBackslash(code[i])
    {
      LineEscapes(lines[i], tjBin);
    }
    PathIsThere();
    WrapperEscapes(code);
    StandsForItself(ClaudeBlock(tjBin));
  }

  /** The runs for a sequence of secrets, one for each. */
  function Runs(host: string, port: nat, secrets: seq<string>, tjBin: string): seq<Run> {
    seq(|secrets|, i requires 0 <= i < |secrets| => Run(OtelBlock(host, port, secrets[i]), ClaudeBlock(tjBin)))
  }

  /** What onboarding writes is what the results on repeated runs are about. */
  lemma {:induction false} OnboardingWritesUsableBlocks(host: string, port: nat, secrets: seq<string>, tjBin: string)
    requires Unmarked(host) && Unmarked(tjBin) && forall i :: 0 <= i < |secrets| ==> Unmarked(secrets[i])
    ensures Usable(Runs(host, port, secrets, tjBin))
  {
    hide IsPlainBlock, IsWrapper, OtelBlock, ClaudeBlock, Unmarked;
    ClaudeBlockIsWrapper(tjBin);
    forall i | 0 <= i < |secrets| ensures IsPlainBlock(OtelBlock(host, port, secrets[i])) {
      OtelBlockIsPlain(host, port, secrets[i]);
    }
  }

  // ---------------------------------------------------------------------
  // The start marker of the PATH block
  // ---------------------------------------------------------------------

  lemma {:induction false} NotAMarker()
    ensures !(PATH_START <= OTEL_START) && !(PATH_START <= OTEL_END)
    ensures !(PATH_START <= WRAPPER_MARKER) && !(PATH_START <= WRAPPER_END)
  {
    assert PATH_START[2] == '>' && PATH_START[15] == 'P' && OTEL_START[15] == 'O' && OTEL_END[2] == '<';
    assert WRAPPER_MARKER[2] == 't' && WRAPPER_END[2] == 'e';
  }

  lemma {:induction false} ClaudeBlockIsPathFree(tjBin: string)
    requires Unmarked(tjBin) && !Occurs(PATH_START, tjBin)
    ensures !Occurs(PATH_START, ClaudeBlock(tjBin))
  {
    hide Fits, Flatten, Sections, Show, Unmarked, Occurs;
    var lines := Flatten(Sections());
    var code := Shown(lines, tjBin);
    BlockFits();
    forall i | 0 <= i < |code| ensures !Occurs(PATH_START, code[i] + "\n") {
      LineFits(lines[i], tjBin);
    }
    CodeIsPathFree(code);
  }

  lemma {:induction false} CodeIsPathFree(code: seq<string>)
    requires forall i :: 0 <= i < |code| ==> !Occurs(PATH_START, code[i] + "\n")
    ensures !Occurs(PATH_START, WrapperBlock(code))
  {
    hide Occurs, HashLine, Unlines;
    PathMarkers();
    MarkerShapes();
    NotAMarker();
    NowhereInLines(PATH_START, code);
    UnlinesComplete(code);
    HashInBlock(PATH_START, WRAPPER_MARKER, Unlines(code), WRAPPER_END);
    WrapperShape(code);
  }

  lemma {:induction false} WrapperShape(code: seq<string>)
    ensures WrapperBlock(code) == Block(WRAPPER_MARKER + "\n", Unlines(code), WRAPPER_END)
  {
    hide Unlines;
    var s, mid := WRAPPER_MARKER, Unlines(code);
    assert s + ("\n" + mid) == s + "\n" + mid;
  }

  lemma {:induction false} OtelBlockIsPathFree(host: string, port: nat, secret: string)
    requires !Occurs(PATH_START, host) && !Occurs(PATH_START, secret)
    ensures !Occurs(PATH_START, OtelBlock(host, port, secret))
  {
    hide Occurs;
    var exports := OtelExports(host, port, secret);
    var digits := Otlp.NatToString(port);
    PathMarkers();
    MarkerShapes();
    NotAMarker();
    PlainLine1();
    PlainLine2();
    PlainLine3();
    PlainPrefixes();
    PortIsPlain(port);
    NoQuoteInPath();
    NoPathMarker(ENABLE_LINE);
    NoPathMarker(EXPORTER_LINE);
    NoPathMarker(PROTOCOL_LINE);
    FoundInside(PATH_START, ENDPOINT_PREFIX, host, ":" + digits);
    FoundInside(PATH_START, HEADERS_PREFIX + BEARER_PREFIX, secret, "\"");
    assert exports[3] == ENDPOINT_PREFIX + host + (":" + digits);
    assert exports[4] == HEADERS_PREFIX + BEARER_PREFIX + secret + "\"";
    forall i | 0 <= i < |exports| ensures !Occurs(PATH_START, exports[i] + "\n") {
      assert i in {0, 1, 2, 3, 4};
    }
    NowhereInLines(PATH_START, exports);
    UnlinesComplete(exports);
    HashInBlock(PATH_START, OTEL_START, Unlines(exports), OTEL_END);
  }

  /** Neither does onboarding write the marker of the PATH block by accident. */
  lemma {:induction false} OnboardingIsPathFree(host: string, port: nat, secrets: seq<string>, tjBin: string)
    requires Unmarked(tjBin) && !Occurs(PATH_START, tjBin) && !Occurs(PATH_START, host)
    requires forall i :: 0 <= i < |secrets| ==> !Occurs(PATH_START, secrets[i])
    ensures PathFree(Runs(host, port, secrets, tjBin))
  {
    hide Occurs, OtelBlock, ClaudeBlock, Unmarked;
    ClaudeBlockIsPathFree(tjBin);
    forall i | 0 <= i < |secrets| ensures !Occurs(PATH_START, OtelBlock(host, port, secrets[i])) {
      OtelBlockIsPathFree(host, port, secrets[i]);
    }
  }
}
