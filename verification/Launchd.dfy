/**
 Installing the daemon under launchd (tokenjam/cli/cmd_onboard.py): the calls made, the
 reading of `launchctl print`, and when the install may report success.
 */
module Launchd {
  import opened Prelude
  import opened TextScan

  // ---------------------------------------------------------------------
  // Reading `launchctl print`
  // ---------------------------------------------------------------------

  /** The line boundaries of `str.splitlines`. */
  predicate IsBreak(c: char) {
    || '\n' <= c <= '\r' || '\U{1c}' <= c <= '\U{1e}'
    || c == '\U{85}' || c == '\U{2028}' || c == '\U{2029}'
  }

  predicate NoBreak(s: string) { forall k :: 0 <= k < |s| ==> !IsBreak(s[k]) }

  function FirstLine(t: string): (r: string)
    ensures |r| <= |t|
  {
    if t == [] || IsBreak(t[0]) then [] else [t[0]] + FirstLine(t[1..])
  }

  /** The text after the first line and its boundary; "\r\n" is one boundary. */
  function RestLines(t: string): string {
    var u := t[|FirstLine(t)|..];
    if u == [] then [] else if u[0] == '\r' && |u| > 1 && u[1] == '\n' then u[2..] else u[1..]
  }

  /** `t.splitlines()`. */
  function SplitLines(t: string): seq<string>
    decreases |t|
  {
    if t == [] then [] else [FirstLine(t)] + SplitLines(RestLines(t))
  }

  const HEADER := "arguments = {"

  predicate IsHeader(line: string) { HEADER <= Trim(line) }

  /** The arguments from the line after the header to the closing brace or the end. */
  function Collect(lines: seq<string>): seq<string> {
    if lines == [] || Trim(lines[0]) == "}" then []
    else (if Trim(lines[0]) == "" then [] else [Trim(lines[0])]) + Collect(lines[1..])
  }

  function FindArguments(lines: seq<string>): Option<seq<string>> {
    if lines == [] then None
    else if IsHeader(lines[0]) then Some(Collect(lines[1..]))
    else FindArguments(lines[1..])
  }

  lemma {:induction false} CollectStep(args: seq<string>, lines: seq<string>)
    requires lines != []
    ensures var line := Trim(lines[0]);
            args + Collect(lines) ==
            if line == "}" then args
            else (if line == "" then args else args + [line]) + Collect(lines[1..])
  {
    hide Trim;
  }

  /** `_parse_launchctl_arguments`. */
  method ParseArguments(output: string) returns (r: Option<seq<string>>)
    ensures r == FindArguments(SplitLines(output))
  {
    hide Trim, Collect, SplitLines;
    var lines := SplitLines(output);
    var inBlock, found := false, false;
    var args: seq<string> := [];
    var i := 0;
    while i < |lines|
      invariant 0 <= i <= |lines|
      invariant inBlock == found
      invariant FindArguments(lines) ==
                if inBlock then Some(args + Collect(lines[i..])) else FindArguments(lines[i..])
      invariant !found ==> args == []
    {
      var stripped := Trim(lines[i]);
      var rest := lines[i + 1..];
      assert lines[i..][1..] == rest;
      CollectStep(args, lines[i..]);
      i := i + 1;
      if !inBlock {
        if HEADER <= stripped {
          inBlock := true;
          found := true;
          assert args + Collect(rest) == Collect(rest);
        }
        continue;
      }
      if stripped == "}" {
        return Some(args);
      }
      if stripped != "" {
        args := args + [stripped];
      }
    }
    assert lines[i..] == [];
    CollectNothing();
    assert args + [] == args;
    return if found then Some(args) else None;
  }

  lemma {:induction false} CollectNothing()
    ensures Collect([]) == []
  {}

  /** An argument that one line of the listing can carry. */
  predicate Printable(a: string) {
    a != "" && a != "}" && Trim(a) == a && NoBreak(a)
  }

  predicate AllPrintable(args: seq<string>) {
    forall i :: 0 <= i < |args| ==> Printable(args[i])
  }

  /** The listing of a unit: other lines, the argument block, anything at all. */
  function Listing(before: seq<string>, args: seq<string>, after: string): string {
    Unlines(before) + "\t" + "arguments = {" + "\n" + Unlines(Indented(args)) + "\t}\n" + after
  }

  function Indented(args: seq<string>): seq<string> {
    if args == [] then [] else ["\t\t" + args[0]] + Indented(args[1..])
  }

  /** The lines `launchctl print` writes before the block. */
  predicate Preamble(before: seq<string>) {
    forall i :: 0 <= i < |before| ==> NoBreak(before[i]) && !IsHeader(before[i])
  }

  lemma {:induction false} SplitOne(x: string, rest: string)
    requires NoBreak(x)
    ensures FirstLine(x + "\n" + rest) == x && RestLines(x + "\n" + rest) == rest
  {
    var t := x + "\n" + rest;
    if x == "" {
      assert FirstLine(t) == "";
      assert t[1..] == rest;
    } else {
      assert t[1..] == x[1..] + "\n" + rest;
      SplitOne(x[1..], rest);
      assert t[|x|..][1..] == rest;
    }
  }

  lemma {:induction false} SplitUnlines(lines: seq<string>, rest: string)
    requires forall i :: 0 <= i < |lines| ==> NoBreak(lines[i])
    ensures SplitLines(Unlines(lines) + rest) == lines + SplitLines(rest)
  {
    hide FirstLine, RestLines;
    if lines == [] {
      assert Unlines(lines) + rest == rest;
    } else {
      assert Unlines(lines) + rest == lines[0] + "\n" + (Unlines(lines[1..]) + rest);
      SplitOne(lines[0], Unlines(lines[1..]) + rest);
      SplitUnlines(lines[1..], rest);
      assert lines == [lines[0]] + lines[1..];
    }
  }

  lemma {:induction false} TrimIndent(a: string)
    ensures Trim("\t\t" + a) == Trim(a) && Trim("\t" + a) == Trim(a)
  {
    var b, c := "\t" + a, "\t\t" + a;
    assert b[1..] == a && b[0] == '\t';
    assert c[1..] == b && c[0] == '\t';
    assert TrimLeft(b) == TrimLeft(a);
    assert TrimLeft(c) == TrimLeft(b);
  }

  lemma {:induction false} CollectPrinted(args: seq<string>, after: seq<string>)
    requires AllPrintable(args)
    ensures Collect(Indented(args) + ["\t}"] + after) == args
  {
    hide Trim;
    var lines := Indented(args) + ["\t}"] + after;
    if args == [] {
      assert lines[0] == "\t" + "}";
      TrimIndent("}");
      BraceTrimmed();
    } else {
      assert lines[0] == "\t\t" + args[0];
      assert lines[1..] == Indented(args[1..]) + ["\t}"] + after;
      TrimIndent(args[0]);
      CollectPrinted(args[1..], after);
    }
  }

  lemma {:induction false} BraceTrimmed()
    ensures Trim("}") == "}" && Trim(HEADER) == HEADER
  {
    assert !IsSpace(HEADER[0]) && !IsSpace(HEADER[|HEADER| - 1]);
    NothingToTrim(HEADER);
    NothingToTrim("}");
  }

  lemma {:induction false} NothingToTrim(t: string)
    requires t != "" && !IsSpace(t[0]) && !IsSpace(t[|t| - 1])
    ensures Trim(t) == t
  {}

  lemma {:induction false} FindAfter(before: seq<string>, rest: seq<string>)
    requires Preamble(before)
    ensures FindArguments(before + rest) == FindArguments(rest)
  {
    if before == [] {
      assert before + rest == rest;
    } else {
      assert (before + rest)[1..] == before[1..] + rest;
      FindAfter(before[1..], rest);
    }
  }

  lemma {:induction false} IndentedNoBreak(args: seq<string>)
    requires AllPrintable(args)
    ensures forall i :: 0 <= i < |Indented(args)| ==> NoBreak(Indented(args)[i])
  {
    if args != [] {
      IndentedNoBreak(args[1..]);
    }
  }

  lemma {:induction false} ListingLines(before: seq<string>, args: seq<string>, after: string)
    requires Preamble(before) && AllPrintable(args)
    ensures SplitLines(Listing(before, args, after))
         == before + (["\t" + HEADER] + (Indented(args) + ["\t}"] + SplitLines(after)))
  {
    hide SplitLines, Indented, NoBreak, Unlines;
    IndentedNoBreak(args);
    PlainPieces();
    ListingPieces(before, args, after);
    var brace, head := ["\t}"], ["\t" + HEADER];
    var tail := Unlines(brace) + after;
    SplitUnlines(brace, after);
    SplitUnlines(Indented(args), tail);
    SplitUnlines(head, Unlines(Indented(args)) + tail);
    SplitUnlines(before, Unlines(head) + (Unlines(Indented(args)) + tail));
    assert Indented(args) + (brace + SplitLines(after)) == Indented(args) + brace + SplitLines(after);
  }

  lemma {:induction false} ListingPieces(before: seq<string>, args: seq<string>, after: string)
    ensures Listing(before, args, after)
         == Unlines(before) + (Unlines(["\t" + HEADER]) + (Unlines(Indented(args)) + (Unlines(["\t}"]) + after)))
  {
    hide Indented;
    assert Unlines([]) == "";
    assert Unlines(["\t}"]) == "\t}\n" && Unlines(["\t" + HEADER]) == "\t" + HEADER + "\n";
  }

  lemma {:induction false} PlainPieces()
    ensures NoBreak("\t}") && NoBreak("\t" + HEADER)
  {}

  // What the parser can return at all.

  lemma {:induction false} TrimStable(t: string)
    ensures Trim(Trim(t)) == Trim(t)
    ensures NoBreak(t) ==> NoBreak(Trim(t))
  {
    TrimLeftShape(t);
    TrimRightShape(TrimLeft(t));
    TrimIsTrimmed(t);
    TrimIsTrimmed(Trim(t));
  }

  lemma {:induction false} SplitNoBreak(t: string)
    ensures forall i :: 0 <= i < |SplitLines(t)| ==> NoBreak(SplitLines(t)[i])
    decreases |t|
  {
    if t != [] {
      FirstLineNoBreak(t);
      SplitNoBreak(RestLines(t));
    }
  }

  lemma {:induction false} FirstLineNoBreak(t: string)
    ensures NoBreak(FirstLine(t))
  {
    if t != [] && !IsBreak(t[0]) {
      FirstLineNoBreak(t[1..]);
    }
  }

  lemma {:induction false} CollectedArePrintable(lines: seq<string>)
    requires forall i :: 0 <= i < |lines| ==> NoBreak(lines[i])
    ensures AllPrintable(Collect(lines))
  {
    hide Trim;
    if lines != [] && Trim(lines[0]) != "}" {
      TrimStable(lines[0]);
      CollectedArePrintable(lines[1..]);
    }
  }

  lemma {:induction false} FoundArePrintable(lines: seq<string>)
    requires forall i :: 0 <= i < |lines| ==> NoBreak(lines[i])
    ensures FindArguments(lines).Some? ==> AllPrintable(FindArguments(lines).value)
  {
    if lines != [] {
      if IsHeader(lines[0]) {
        CollectedArePrintable(lines[1..]);
      } else {
        FoundArePrintable(lines[1..]);
      }
    }
  }

  /**
   Parsing undoes printing exactly for printable arguments, whatever stands before the
   block and after it.
   */
  lemma {:induction false} ParseUndoesPrint(before: seq<string>, args: seq<string>, after: string)
    requires Preamble(before)
    ensures FindArguments(SplitLines(Listing(before, args, after))) == Some(args) <==> AllPrintable(args)
  {
    hide SplitLines, Trim, Listing;
    var text := Listing(before, args, after);
    SplitNoBreak(text);
    FoundArePrintable(SplitLines(text));
    if AllPrintable(args) {
      var block := Indented(args) + ["\t}"] + SplitLines(after);
      ListingLines(before, args, after);
      FindAfter(before, ["\t" + HEADER] + block);
      TrimIndent(HEADER);
      BraceTrimmed();
      assert (["\t" + HEADER] + block)[1..] == block;
      CollectPrinted(args, SplitLines(after));
    }
  }

  lemma {:induction false} HeaderIs()
    ensures HEADER == "arguments = {"
  {}

  /** "Could not check" is reported exactly when no line opens an argument block. */
  lemma {:induction false} NoneMeansNoHeader(lines: seq<string>)
    ensures FindArguments(lines) == None <==> forall i :: 0 <= i < |lines| ==> !("arguments = {" <= Trim(lines[i]))
  {
    hide Trim, HEADER;
    HeaderIs();
    if lines != [] {
      NoneMeansNoHeader(lines[1..]);
      assert forall i :: 1 <= i < |lines| ==> lines[i] == lines[1..][i - 1];
      assert forall i :: 0 <= i < |lines| - 1 ==> lines[1..][i] == lines[i + 1];
    }
  }

  // ---------------------------------------------------------------------
  // The install protocol
  // ---------------------------------------------------------------------

  datatype Command = Bootout | Enable | Bootstrap | Print

  datatype Reply = Reply(code: int, out: string, err: string)

  /**
   launchd as seen from outside: its reply to the last of the commands issued so far.
   Nothing at all is assumed about it.
   */
  type Launchctl = seq<Command> -> Reply

  predicate AlreadyBootstrapped(r: Reply) {
    Occurs("already bootstrapped", Lower(r.out + "\n" + r.err))
  }

  /** `_launchd_registration_matches`: confirmed, refuted, or could not be checked. */
  function Matches(r: Reply, args: seq<string>): Option<bool> {
    if r.code != 0 then None
    else match FindArguments(SplitLines(r.out)) case None => None case Some(active) => Some(active == args)
  }

  datatype Outcome = NoEntrypoint | BootstrapFailed | Unconfirmed | StillOld | Installed

  /** One install run against one launchd: the commands issued, in order. */
  class Session {
    const launchctl: Launchctl
    var log: seq<Command>

    constructor (l: Launchctl)
      ensures launchctl == l && log == []
    {
      launchctl := l;
      log := [];
    }

    method Call(c: Command) returns (r: Reply)
      modifies this`log
      ensures log == old(log) + [c]
      ensures r == launchctl(log)
    {
      log := log + [c];
      return launchctl(log);
    }

    /** One round of bootout, enable, bootstrap. */
    method Cycle() returns (boot: Reply)
      modifies this`log
      ensures log == old(log) + [Bootout, Enable, Bootstrap]
      ensures boot == launchctl(log)
    {
      var _ := Call(Bootout);
      var _ := Call(Enable);
      boot := Call(Bootstrap);
    }

    /** `_install_launchd`; `program` is the argv written to the plist, None when no durable one exists. */
    method Install(program: Option<seq<string>>) returns (outcome: Outcome)
      requires log == []
      modifies this`log
      ensures log <= FULL_LOG && |log| in {0, 3, 4, 8}
      ensures outcome == Verdict(launchctl, program)
      ensures |log| == Rounds(launchctl, program)
    {
      match program {
        case None => return NoEntrypoint;
        case Some(args) =>
          var result := Cycle();
          assert log == FULL_LOG[..3];
          if result.code != 0 && !AlreadyBootstrapped(result) {
            return BootstrapFailed;
          }
          var shown := Call(Print);
          assert log == FULL_LOG[..4];
          var matches := Matches(shown, args);
          if matches != Some(true) {
            var _ := Cycle();
            shown := Call(Print);
            assert log == FULL_LOG == FULL_LOG[..8];
            matches := Matches(shown, args);
          }
          return match matches case None => Unconfirmed case Some(false) => StillOld case Some(true) => Installed;
      }
    }
  }

  const FULL_LOG: seq<Command> := [Bootout, Enable, Bootstrap, Print, Bootout, Enable, Bootstrap, Print]

  predicate FirstBootstrapFails(l: Launchctl) {
    var r := l(FULL_LOG[..3]);
    r.code != 0 && !AlreadyBootstrapped(r)
  }

  predicate Confirmed(l: Launchctl, k: nat, args: seq<string>)
    requires k <= |FULL_LOG|
  {
    Matches(l(FULL_LOG[..k]), args) == Some(true)
  }

  /** How many commands a run issues. */
  function Rounds(l: Launchctl, program: Option<seq<string>>): nat {
    match program
    case None => 0
    case Some(args) => if FirstBootstrapFails(l) then 3 else if Confirmed(l, 4, args) then 4 else 8
  }

  function Verdict(l: Launchctl, program: Option<seq<string>>): Outcome {
    match program
    case None => NoEntrypoint
    case Some(args) =>
      if FirstBootstrapFails(l) then BootstrapFailed
      else if Confirmed(l, 4, args) then Installed
      else match Matches(l(FULL_LOG[..8]), args)
           case None => Unconfirmed
           case Some(false) => StillOld
           case Some(true) => Installed
  }

  /**
   For every launchd, however its exit codes lie: success is reported only when the last
   command was a `print` that exited 0 and listed exactly the argv written to the plist.
   */
  lemma {:induction false} SuccessIsObserved(l: Launchctl, program: Option<seq<string>>)
    ensures Verdict(l, program) == Installed ==>
              && program.Some?
              && var n := Rounds(l, program);
                 n > 0 && FULL_LOG[n - 1] == Print
                 && l(FULL_LOG[..n]).code == 0
                 && FindArguments(SplitLines(l(FULL_LOG[..n]).out)) == program
    ensures Verdict(l, program) == Installed ==> AllPrintable(program.value)
  {
    hide SplitLines, FindArguments, AlreadyBootstrapped;
    if Verdict(l, program) == Installed {
      var out := l(FULL_LOG[..Rounds(l, program)]).out;
      SplitNoBreak(out);
      FoundArePrintable(SplitLines(out));
    }
  }

  // ---------------------------------------------------------------------
  // A launchd that does what it is told, late
  // ---------------------------------------------------------------------

  /** `lag` bootouts still race with the job that is shutting down and have no effect. */
  datatype Daemon = Daemon(loaded: Option<seq<string>>, disabled: bool, lag: nat)

  const DONE := Reply(0, "", "")
  const NOT_FOUND := Reply(113, "", "Could not find service")

  function After(d: Daemon, c: Command, plist: seq<string>): Daemon {
    match c
    case Bootout => if d.loaded.Some? && d.lag > 0 then d.(lag := d.lag - 1) else d.(loaded := None)
    case Enable => d.(disabled := false)
    case Bootstrap => if d.loaded.Some? || d.disabled then d else d.(loaded := Some(plist))
    case Print => d
  }

  function AfterAll(d: Daemon, cs: seq<Command>, plist: seq<string>): Daemon {
    if cs == [] then d else After(AfterAll(d, cs[..|cs| - 1], plist), cs[|cs| - 1], plist)
  }

  /** How this launchd words things: its answer to a bootstrap of a loaded service, and the text around a listing. */
  datatype Wording = Wording(busy: Reply, before: seq<string>, after: string)

  predicate Sound(w: Wording) {
    w.busy.code != 0 && AlreadyBootstrapped(w.busy) && Preamble(w.before)
  }

  /** The answer to the last command; a bootstrap of a disabled service claims success. */
  function Answer(d: Daemon, c: Command, w: Wording): Reply {
    match c
    case Bootout => if d.loaded == None then NOT_FOUND else DONE
    case Enable => DONE
    case Bootstrap => if d.loaded.Some? then w.busy else DONE
    case Print => match d.loaded case None => NOT_FOUND case Some(a) => Reply(0, Listing(w.before, a, w.after), "")
  }

  function Behaves(d: Daemon, plist: seq<string>, w: Wording): Launchctl {
    log => if log == [] then DONE
           else Answer(AfterAll(d, log[..|log| - 1], plist), log[|log| - 1], w)
  }

  lemma {:induction false} OneMore(d: Daemon, plist: seq<string>, k: nat)
    requires 0 < k <= 8
    ensures AfterAll(d, FULL_LOG[..k], plist) == After(AfterAll(d, FULL_LOG[..k - 1], plist), FULL_LOG[k - 1], plist)
  {
    assert FULL_LOG[..k][..k - 1] == FULL_LOG[..k - 1];
  }

  /** The state a round of bootout, enable, bootstrap leaves. */
  function AfterCycle(d: Daemon, plist: seq<string>): Daemon {
    After(After(After(d, Bootout, plist), Enable, plist), Bootstrap, plist)
  }

  lemma {:induction false} FirstRound(d: Daemon, plist: seq<string>)
    ensures AfterAll(d, FULL_LOG[..2], plist) == After(After(d, Bootout, plist), Enable, plist)
    ensures AfterAll(d, FULL_LOG[..3], plist) == AfterCycle(d, plist)
  {
    hide AfterAll;
    OneMore(d, plist, 1);
    OneMore(d, plist, 2);
    OneMore(d, plist, 3);
    NoCommands(d, plist);
    assert FULL_LOG[..0] == [];
  }

  lemma {:induction false} NoCommands(d: Daemon, plist: seq<string>)
    ensures AfterAll(d, [], plist) == d
  {}

  lemma {:induction false} SecondRound(d: Daemon, plist: seq<string>)
    ensures AfterAll(d, FULL_LOG[..7], plist) == AfterCycle(AfterCycle(d, plist), plist)
  {
    hide AfterAll;
    FirstRound(d, plist);
    OneMore(d, plist, 4);
    OneMore(d, plist, 5);
    OneMore(d, plist, 6);
    OneMore(d, plist, 7);
  }

  lemma {:induction false} Heard(d: Daemon, plist: seq<string>, w: Wording, k: nat)
    requires 0 < k <= 8
    ensures Behaves(d, plist, w)(FULL_LOG[..k]) == Answer(AfterAll(d, FULL_LOG[..k - 1], plist), FULL_LOG[k - 1], w)
  {
    assert FULL_LOG[..k][..k - 1] == FULL_LOG[..k - 1];
  }

  /** What a print after a round shows: the new argv, or an old one that is still there. */
  lemma {:induction false} PrintConfirms(d: Daemon, args: seq<string>, w: Wording)
    requires Sound(w) && AllPrintable(args)
    requires d.loaded.Some? ==> AllPrintable(d.loaded.value)
    ensures Matches(Answer(d, Print, w), args) == Some(true) <==> d.loaded == Some(args)
  {
    hide Listing, SplitLines, FindArguments;
    match d.loaded
    case None =>
    case Some(active) => ParseUndoesPrint(w.before, active, w.after);
  }

  /**
   Against such a launchd the install succeeds from every prior state, enabled or disabled,
   except that of an old registration that survives both bootouts.
   */
  lemma {:induction false} WellBehavedSucceeds(d: Daemon, args: seq<string>, w: Wording)
    requires Sound(w) && AllPrintable(args)
    requires d.loaded.Some? ==> AllPrintable(d.loaded.value)
    ensures Verdict(Behaves(d, args, w), Some(args)) == Installed
            <==> d.loaded == None || d.loaded == Some(args) || d.lag <= 1
  {
    hide Listing, SplitLines, FindArguments, AlreadyBootstrapped, AfterAll, Behaves, Matches, Printable;
    FirstRound(d, args);
    SecondRound(d, args);
    Heard(d, args, w, 3);
    Heard(d, args, w, 4);
    Heard(d, args, w, 8);
    PrintConfirms(AfterCycle(d, args), args, w);
    PrintConfirms(AfterCycle(AfterCycle(d, args), args), args, w);
  }

  /** Whatever launchd answers, the plist is bootstrapped at most twice. */
  lemma {:induction false} AtMostTwoBootstraps(log: seq<Command>)
    requires log <= FULL_LOG
    ensures multiset(log)[Bootstrap] <= 2
  {
    hide FULL_LOG;
    assert FULL_LOG == log + FULL_LOG[|log|..];
    TwoBootstrapsInAll();
  }

  lemma {:induction false} TwoBootstrapsInAll()
    ensures multiset(FULL_LOG)[Bootstrap] == 2
  {}

  // ---------------------------------------------------------------------
  // The outcome, in the words of launchd
  // ---------------------------------------------------------------------

  /** The phrase launchd uses, in any case. */
  ghost predicate PhraseAt(t: string, a: string, m: string, b: string) {
    t == a + (m + b) && Lower(m) == "already bootstrapped"
  }

  ghost predicate SaysLoaded(t: string) { exists a, m, b :: PhraseAt(t, a, m, b) }

  lemma {:induction false} LowerJoin(a: string, b: string)
    ensures Lower(a + b) == Lower(a) + Lower(b) && |Lower(a)| == |a|
  {
    if a == "" {
      assert a + b == b;
    } else {
      assert (a + b)[1..] == a[1..] + b;
      LowerJoin(a[1..], b);
    }
  }

  lemma {:induction false} PhraseHere(p: string, t: string)
    ensures p <= Lower(t) <==> exists m, b :: t == m + b && Lower(m) == p
  {
    LowerJoin(t, "");
    if p <= Lower(t) {
      var m, b := t[..|p|], t[|p|..];
      assert t == m + b;
      LowerJoin(m, b);
    }
    if m, b :| t == m + b && Lower(m) == p {
      LowerJoin(m, b);
    }
  }

  lemma {:induction false} PhraseMeans(t: string)
    ensures Occurs("already bootstrapped", Lower(t)) <==> SaysLoaded(t)
  {
    PhraseHere("already bootstrapped", t);
    if m, b :| t == m + b && Lower(m) == "already bootstrapped" {
      assert t == "" + (m + b);
      assert PhraseAt(t, "", m, b);
    }
    if t != "" {
      PhraseMeans(t[1..]);
      if SaysLoaded(t[1..]) {
        var a, m, b :| PhraseAt(t[1..], a, m, b);
        assert t == ([t[0]] + a) + (m + b);
        assert PhraseAt(t, [t[0]] + a, m, b);
      }
    }
    if a, m, b :| PhraseAt(t, a, m, b) {
      if a == "" {
        assert t == m + b;
      } else {
        assert t[1..] == a[1..] + (m + b);
        assert PhraseAt(t[1..], a[1..], m, b);
      }
    }
  }

  /** A failed bootstrap is forgiven exactly for the phrase in one of the two outputs. */
  lemma {:induction false} AlreadyMeans(r: Reply)
    ensures AlreadyBootstrapped(r) <==> SaysLoaded(r.out) || SaysLoaded(r.err)
  {
    hide Occurs, SaysLoaded;
    var p := "already bootstrapped";
    PhraseMeans(r.out);
    PhraseMeans(r.err);
    var x, y := Lower(r.out) + "\n", Lower(r.err);
    LowerJoin(r.out + "\n", r.err);
    LowerJoin(r.out, "\n");
    LowerNewline();
    OccursSplit(p, x, y);
    OccursInFront(p, Lower(r.out), "\n");
  }

  lemma {:induction false} LowerNewline()
    ensures Lower("\n") == "\n"
  {
    assert "\n"[1..] == "";
  }

  /** The print exited 0 and listed exactly these arguments. */
  predicate Lists(r: Reply, args: seq<string>) {
    r.code == 0 && FindArguments(SplitLines(r.out)) == Some(args)
  }

  ghost predicate Unforgiven(boot: Reply) {
    boot.code != 0 && !SaysLoaded(boot.out) && !SaysLoaded(boot.err)
  }

  /**
   For every launchd: a failed first bootstrap ends the run unless it says in some case that the service is
   already bootstrapped; otherwise the run succeeds exactly when the first or the second print lists the
   arguments, starts over only when the first does not, and calls the old registration confirmed only when
   the last print lists other arguments.
   */
  lemma {:induction false} InstallsExactly(l: Launchctl, args: seq<string>)
    ensures var round := [Bootout, Enable, Bootstrap];
            var boot, first, second := l(round), l(round + [Print]), l(round + [Print] + round + [Print]);
            var failed := Unforgiven(boot);
            && (Verdict(l, Some(args)) == BootstrapFailed <==> failed)
            && (Verdict(l, Some(args)) == Installed <==> !failed && (Lists(first, args) || Lists(second, args)))
            && (Verdict(l, Some(args)) == Unconfirmed
                <==> !failed && !Lists(first, args)
                     && (second.code != 0 || FindArguments(SplitLines(second.out)) == None))
            && Rounds(l, Some(args)) == if failed then 3 else if Lists(first, args) then 4 else 8
    ensures Verdict(l, None) == NoEntrypoint && Rounds(l, None) == 0
  {
    hide FindArguments, SplitLines, AlreadyBootstrapped, SaysLoaded;
    var round := [Bootout, Enable, Bootstrap];
    assert FULL_LOG[..3] == round && FULL_LOG[..4] == round + [Print];
    assert FULL_LOG[..8] == round + [Print] + round + [Print];
    AlreadyMeans(l(round));
  }
}
