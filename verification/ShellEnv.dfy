/**
 What the shell gets out of an rc file: the variables that its `export NAME=value` lines set.  The reader
 knows nothing of the writers (tokenjam/cli/cmd_onboard.py); it goes line by line.
 */
module ShellEnv {
  import opened Prelude
  import opened TextScan
  import opened ShellRc
  import opened RcPath
  import Otlp

  type Env = map<string, string>

  /** The text up to its first newline, and whatever comes behind that. */
  function FirstLine(t: string): (r: string)
    ensures |r| <= |t|
  {
    if t == "" || t[0] == '\n' then "" else [t[0]] + FirstLine(t[1..])
  }

  function LinesOf(t: string): seq<string>
    decreases |t|
  {
    if t == "" then []
    else
      var line := FirstLine(t);
      [line] + LinesOf(if |t| > |line| then t[|line| + 1..] else "")
  }

  /** The part in front of the first '=' and the part behind it. */
  function SplitAssignment(t: string): Option<(string, string)> {
    if t == "" then None
    else if t[0] == '=' then Some(("", t[1..]))
    else match SplitAssignment(t[1..]) case Some((name, value)) => Some(([t[0]] + name, value)) case None => None
  }

  /** The value without the quotes around it. */
  function Unquoted(v: string): string {
    if |v| >= 2 && v[0] == '"' && v[|v| - 1] == '"' then v[1..|v| - 1] else v
  }

  function Assign(env: Env, line: string): Env {
    if !("export " <= line) then env
    else match SplitAssignment(line[7..])
         case Some((name, value)) => env[name := Unquoted(value)]
         case None => env
  }

  /** Line after line; the last assignment wins. */
  function AssignAll(env: Env, lines: seq<string>): Env
    decreases |lines|
  {
    if lines == [] then env else AssignAll(Assign(env, lines[0]), lines[1..])
  }

  /** The variables set by a file. */
  function ReadEnv(t: string): Env { AssignAll(map[], LinesOf(t)) }

  // ---------------------------------------------------------------------
  // Lines
  // ---------------------------------------------------------------------

  lemma {:induction false} FirstOf(x: string, rest: string)
    requires OneLine(x)
    ensures FirstLine(x + "\n" + rest) == x
  {
    var t := x + "\n" + rest;
    if x != "" {
      assert t[1..] == x[1..] + "\n" + rest && t[0] == x[0];
      FirstOf(x[1..], rest);
    }
  }

  lemma {:induction false} LinesCons(x: string, rest: string)
    requires OneLine(x)
    ensures LinesOf(x + "\n" + rest) == [x] + LinesOf(rest)
  {
    FirstOf(x, rest);
    assert (x + "\n" + rest)[|x| + 1..] == rest;
  }

  lemma {:induction false} LinesOfUnlines(lines: seq<string>)
    requires forall i :: 0 <= i < |lines| ==> OneLine(lines[i])
    ensures LinesOf(Unlines(lines)) == lines
  {
    if lines != [] {
      LinesOfUnlines(lines[1..]);
      LinesCons(lines[0], Unlines(lines[1..]));
    }
  }

  lemma {:induction false} FirstLineShape(t: string)
    ensures var x := FirstLine(t); x <= t && OneLine(x) && (|t| > |x| ==> t[|x|] == '\n')
  {
    if t != "" && t[0] != '\n' {
      FirstLineShape(t[1..]);
    }
  }

  lemma {:induction false} ShorterLine(x: string, a: string)
    requires x <= a && OneLine(x) && a != "" && a[|a| - 1] == '\n'
    ensures |x| < |a|
  {
    assert a[|a| - 1] in a;
  }

  lemma {:induction false} LinesJoin(a: string, b: string)
    requires Complete(a)
    ensures LinesOf(a + b) == LinesOf(a) + LinesOf(b)
    decreases |a|
  {
    hide FirstLine, LinesOf, OneLine;
    if a == "" {
      NoLines();
      assert a + b == b;
    } else {
      var x := FirstLine(a);
      FirstLineShape(a);
      ShorterLine(x, a);
      var rest := a[|x| + 1..];
      assert a == x + "\n" + rest;
      FirstLineAway(x, rest, b);
      LinesJoin(rest, b);
    }
  }

  lemma {:induction false} FirstLineAway(x: string, rest: string, b: string)
    requires OneLine(x)
    ensures LinesOf(x + "\n" + rest) == [x] + LinesOf(rest)
    ensures LinesOf(x + "\n" + rest + b) == [x] + LinesOf(rest + b)
  {
    hide LinesOf;
    LinesCons(x, rest);
    LinesCons(x, rest + b);
    assert x + "\n" + rest + b == x + "\n" + (rest + b);
  }

  lemma {:induction false} AssignJoin(env: Env, a: seq<string>, b: seq<string>)
    ensures AssignAll(env, a + b) == AssignAll(AssignAll(env, a), b)
    decreases |a|
  {
    if a == [] {
      assert a + b == b;
    } else {
      assert (a + b)[1..] == a[1..] + b;
      AssignJoin(Assign(env, a[0]), a[1..], b);
    }
  }

  // ---------------------------------------------------------------------
  // One assignment
  // ---------------------------------------------------------------------

  lemma {:induction false} SplitName(name: string, value: string)
    requires '=' !in name
    ensures SplitAssignment(name + "=" + value) == Some((name, value))
  {
    var t := name + "=" + value;
    if name == "" {
      assert t[1..] == value;
    } else {
      assert t[1..] == name[1..] + "=" + value && t[0] == name[0] && name[0] in name;
      SplitName(name[1..], value);
      assert [t[0]] + name[1..] == name;
    }
  }

  lemma {:induction false} Assigns(env: Env, line: string, name: string, value: string)
    requires '=' !in name && line == "export " + (name + "=" + value)
    ensures Assign(env, line) == env[name := Unquoted(value)]
  {
    assert line[7..] == name + "=" + value;
    SplitName(name, value);
  }

  lemma {:induction false} AssignsNothing(env: Env, line: string)
    requires line != "" && line[0] == '#'
    ensures Assign(env, line) == env
  {
    assert "export "[0] == 'e';
  }

  // ---------------------------------------------------------------------
  // The OTEL block
  // ---------------------------------------------------------------------

  lemma {:induction false} EnableLine(env: Env)
    ensures Assign(env, ENABLE_LINE) == env["CLAUDE_CODE_ENABLE_TELEMETRY" := "1"]
  {
    var name := "CLAUDE_CODE_ENABLE_TELEMETRY";
    Assigns(env, ENABLE_LINE, name, "1");
  }

  lemma {:induction false} ExporterLine(env: Env)
    ensures Assign(env, EXPORTER_LINE) == env["OTEL_LOGS_EXPORTER" := "otlp"]
  {
    var name := "OTEL_LOGS_EXPORTER";
    Assigns(env, EXPORTER_LINE, name, "otlp");
  }

  lemma {:induction false} ProtocolLine(env: Env)
    ensures Assign(env, PROTOCOL_LINE) == env["OTEL_EXPORTER_OTLP_PROTOCOL" := "http/json"]
  {
    var name := "OTEL_EXPORTER_OTLP_PROTOCOL";
    Assigns(env, PROTOCOL_LINE, name, "http/json");
  }

  lemma {:induction false} EndpointLine(env: Env, rest: string)
    requires Unquoted("http://" + rest) == "http://" + rest
    ensures Assign(env, ENDPOINT_PREFIX + rest) == env["OTEL_EXPORTER_OTLP_ENDPOINT" := "http://" + rest]
  {
    var name := "OTEL_EXPORTER_OTLP_ENDPOINT";
    Reassociated("export ", name, "=", "http://", rest);
    Assigns(env, ENDPOINT_PREFIX + rest, name, "http://" + rest) by { EndpointName(); }
  }

  lemma {:induction false} EndpointName()
    ensures '=' !in "OTEL_EXPORTER_OTLP_ENDPOINT"
  {}

  lemma {:induction false} HeadersName()
    ensures '=' !in "OTEL_EXPORTER_OTLP_HEADERS"
  {}

  lemma {:induction false} Reassociated(a: string, b: string, c: string, d: string, e: string)
    ensures a + (b + c + d) + e == a + (b + c + (d + e))
  {}

  lemma {:induction false} Quoted(a: string, b: string, c: string, q: string, d: string, e: string)
    ensures a + (b + c) + (q + d) + e + q == a + (b + c + (q + (d + e) + q))
  {}

  lemma {:induction false} HeadersLine(env: Env, secret: string)
    ensures Assign(env, HEADERS_PREFIX + BEARER_PREFIX + secret + "\"")
         == env["OTEL_EXPORTER_OTLP_HEADERS" := "Authorization=Bearer " + secret]
  {
    var name := "OTEL_EXPORTER_OTLP_HEADERS";
    var value := "\"" + ("Authorization=Bearer " + secret) + "\"";
    Quoted("export ", name, "=", "\"", "Authorization=Bearer ", secret);
    Assigns(env, HEADERS_PREFIX + BEARER_PREFIX + secret + "\"", name, value) by { HeadersName(); }
    assert value[1..|value| - 1] == "Authorization=Bearer " + secret;
  }

  /** What the block sets, whatever was set before. */
  function Telemetry(env: Env, host: string, port: nat, secret: string): Env {
    env["CLAUDE_CODE_ENABLE_TELEMETRY" := "1"]
       ["OTEL_LOGS_EXPORTER" := "otlp"]
       ["OTEL_EXPORTER_OTLP_PROTOCOL" := "http/json"]
       ["OTEL_EXPORTER_OTLP_ENDPOINT" := "http://" + host + ":" + Otlp.NatToString(port)]
       ["OTEL_EXPORTER_OTLP_HEADERS" := "Authorization=Bearer " + secret]
  }

  lemma {:induction false} BlockLines(host: string, port: nat, secret: string)
    requires OneLine(host) && OneLine(secret)
    ensures LinesOf(OtelBlock(host, port, secret)) == [OTEL_START] + OtelExports(host, port, secret) + [OTEL_END]
  {
    hide LinesOf, Unlines, OtelExports, Block;
    var exports := OtelExports(host, port, secret);
    var all := [OTEL_START] + exports + [OTEL_END];
    ExportsAreLines(host, port, secret);
    MarkersAreLines();
    forall i | 0 <= i < |all| ensures OneLine(all[i]) {
      if 0 < i <= |exports| {
        assert all[i] == exports[i - 1];
      }
    }
    LinesOfUnlines(all);
    UnlinesJoin([OTEL_START] + exports, [OTEL_END]);
    UnlinesJoin([OTEL_START], exports);
    OneUnline(OTEL_START);
    OneUnline(OTEL_END);
    BlockText(OTEL_START + "\n", Unlines(exports), OTEL_END);
  }

  lemma {:induction false} BlockText(s: string, body: string, e: string)
    ensures Block(s, body, e) == s + body + (e + "\n")
  {}

  lemma {:induction false} MarkersAreLines()
    ensures OneLine(OTEL_START) && OneLine(OTEL_END)
  {}

  lemma {:induction false} OneUnline(x: string)
    ensures Unlines([x]) == x + "\n"
  {
    assert [x][1..] == [];
  }

  lemma {:induction false} ExportsAreLines(host: string, port: nat, secret: string)
    requires OneLine(host) && OneLine(secret)
    ensures forall i :: 0 <= i < |OtelExports(host, port, secret)| ==> OneLine(OtelExports(host, port, secret)[i])
  {
    PlainLine1();
    PlainLine2();
    PlainLine3();
    PlainPrefixes();
    PortIsPlain(port);
    var exports := OtelExports(host, port, secret);
    var digits := Otlp.NatToString(port);
    OneLineSum(ENDPOINT_PREFIX, host, ":", digits);
    OneLineSum(HEADERS_PREFIX, BEARER_PREFIX, secret, "\"");
    forall i | 0 <= i < |exports| ensures OneLine(exports[i]) {
      assert i == 0 || i == 1 || i == 2 || i == 3 || i == 4;
    }
  }

  lemma {:induction false} OneLineSum(a: string, b: string, c: string, d: string)
    requires OneLine(a) && OneLine(b) && OneLine(c) && OneLine(d)
    ensures OneLine(a + b + c + d)
  {}

  lemma {:induction false} BlockSets(env: Env, host: string, port: nat, secret: string)
    ensures AssignAll(env, [OTEL_START] + OtelExports(host, port, secret) + [OTEL_END])
         == Telemetry(env, host, port, secret)
  {
    hide Assign, OneLine, Otlp.NatToString;
    var ls := [OTEL_START] + OtelExports(host, port, secret) + [OTEL_END];
    var e1, e2, e3 := env["CLAUDE_CODE_ENABLE_TELEMETRY" := "1"],
                      env["CLAUDE_CODE_ENABLE_TELEMETRY" := "1"]["OTEL_LOGS_EXPORTER" := "otlp"],
                      env["CLAUDE_CODE_ENABLE_TELEMETRY" := "1"]["OTEL_LOGS_EXPORTER" := "otlp"]
                         ["OTEL_EXPORTER_OTLP_PROTOCOL" := "http/json"];
    var rest := host + ":" + Otlp.NatToString(port);
    var e4 := e3["OTEL_EXPORTER_OTLP_ENDPOINT" := "http://" + rest];
    var e5 := e4["OTEL_EXPORTER_OTLP_HEADERS" := "Authorization=Bearer " + secret];
    MarkerShapes();
    AssignsNothing(env, OTEL_START);
    EnableLine(env);
    ExporterLine(e1);
    ProtocolLine(e2);
    EndpointLine(e3, rest) by { NoQuotes(rest); }
    HeadersLine(e4, secret);
    AssignsNothing(e5, OTEL_END);
    assert ENDPOINT_PREFIX + host + ":" + Otlp.NatToString(port) == ENDPOINT_PREFIX + rest;
    assert "http://" + host + ":" + Otlp.NatToString(port) == "http://" + rest;
    SevenLines(env, ls);
  }

  lemma {:induction false} NoQuotes(rest: string)
    ensures Unquoted("http://" + rest) == "http://" + rest
  {
    assert ("http://" + rest)[0] == 'h';
  }

  lemma {:induction false} SevenLines(env: Env, ls: seq<string>)
    requires |ls| == 7
    ensures AssignAll(env, ls)
         == Assign(Assign(Assign(Assign(Assign(Assign(Assign(env, ls[0]), ls[1]), ls[2]), ls[3]), ls[4]), ls[5]), ls[6])
  {
    hide Assign;
    OneLineMore(env, ls);
    var e := Assign(env, ls[0]);
    OneLineMore(e, ls[1..]);
    e := Assign(e, ls[1]);
    OneLineMore(e, ls[2..]);
    e := Assign(e, ls[2]);
    OneLineMore(e, ls[3..]);
    e := Assign(e, ls[3]);
    OneLineMore(e, ls[4..]);
    e := Assign(e, ls[4]);
    OneLineMore(e, ls[5..]);
    e := Assign(e, ls[5]);
    OneLineMore(e, ls[6..]);
    e := Assign(e, ls[6]);
    assert ls[1..][1..] == ls[2..] && ls[2..][1..] == ls[3..] && ls[3..][1..] == ls[4..];
    assert ls[4..][1..] == ls[5..] && ls[5..][1..] == ls[6..] && ls[6..][1..] == [];
  }

  lemma {:induction false} OneLineMore(env: Env, ls: seq<string>)
    requires ls != []
    ensures AssignAll(env, ls) == AssignAll(Assign(env, ls[0]), ls[1..])
    ensures AssignAll(env, []) == env
  {}

  /**
   After a rewrite, of any file, the shell has telemetry switched on and sent to the host, the port and
   with the secret of the day; every other variable is what the kept text makes it.
   */
  lemma {:induction false} ShellSeesTelemetry(t: string, host: string, port: nat, secret: string)
    requires OneLine(host) && OneLine(secret)
    ensures ReadEnv(WriteOtel(OtelBlock(host, port, secret), t)) == Telemetry(ReadEnv(Front(t)), host, port, secret)
    ensures var env := ReadEnv(WriteOtel(OtelBlock(host, port, secret), t));
            && "CLAUDE_CODE_ENABLE_TELEMETRY" in env && env["CLAUDE_CODE_ENABLE_TELEMETRY"] == "1"
            && "OTEL_LOGS_EXPORTER" in env && env["OTEL_LOGS_EXPORTER"] == "otlp"
            && "OTEL_EXPORTER_OTLP_PROTOCOL" in env && env["OTEL_EXPORTER_OTLP_PROTOCOL"] == "http/json"
            && "OTEL_EXPORTER_OTLP_ENDPOINT" in env
            && env["OTEL_EXPORTER_OTLP_ENDPOINT"] == "http://" + host + ":" + Otlp.NatToString(port)
            && "OTEL_EXPORTER_OTLP_HEADERS" in env
            && env["OTEL_EXPORTER_OTLP_HEADERS"] == "Authorization=Bearer " + secret
  {
    hide WriteOtel, OtelBlock, OtelExports, LinesOf, AssignAll, Front, Telemetry, OneLine, Otlp.NatToString;
    var block := OtelBlock(host, port, secret);
    KeptShape(block, t);
    LinesJoin(Front(t), block);
    BlockLines(host, port, secret);
    var lines := [OTEL_START] + OtelExports(host, port, secret) + [OTEL_END];
    AssignJoin(map[], LinesOf(Front(t)), lines);
    BlockSets(ReadEnv(Front(t)), host, port, secret);
    TelemetryHas(ReadEnv(Front(t)), host, port, secret);
  }

  lemma {:induction false} Names()
    ensures "CLAUDE_CODE_ENABLE_TELEMETRY"[0] == 'C' && "OTEL_LOGS_EXPORTER"[5] == 'L'
    ensures |"OTEL_EXPORTER_OTLP_PROTOCOL"| == 27 && "OTEL_EXPORTER_OTLP_PROTOCOL"[5] == 'E'
    ensures |"OTEL_EXPORTER_OTLP_ENDPOINT"| == 27 && "OTEL_EXPORTER_OTLP_ENDPOINT"[5] == 'E'
    ensures "OTEL_EXPORTER_OTLP_PROTOCOL"[19] == 'P' && "OTEL_EXPORTER_OTLP_ENDPOINT"[19] == 'E'
    ensures |"OTEL_EXPORTER_OTLP_HEADERS"| == 26 && "OTEL_EXPORTER_OTLP_HEADERS"[5] == 'E'
    ensures "OTEL_EXPORTER_OTLP_HEADERS"[0] == 'O' && "OTEL_LOGS_EXPORTER"[0] == 'O'
    ensures "OTEL_EXPORTER_OTLP_PROTOCOL"[0] == 'O' && "OTEL_EXPORTER_OTLP_ENDPOINT"[0] == 'O'
  {}

  lemma {:induction false} TelemetryHas(before: Env, host: string, port: nat, secret: string)
    ensures var env := Telemetry(before, host, port, secret);
            && "CLAUDE_CODE_ENABLE_TELEMETRY" in env && env["CLAUDE_CODE_ENABLE_TELEMETRY"] == "1"
            && "OTEL_LOGS_EXPORTER" in env && env["OTEL_LOGS_EXPORTER"] == "otlp"
            && "OTEL_EXPORTER_OTLP_PROTOCOL" in env && env["OTEL_EXPORTER_OTLP_PROTOCOL"] == "http/json"
            && "OTEL_EXPORTER_OTLP_ENDPOINT" in env
            && env["OTEL_EXPORTER_OTLP_ENDPOINT"] == "http://" + host + ":" + Otlp.NatToString(port)
            && "OTEL_EXPORTER_OTLP_HEADERS" in env
            && env["OTEL_EXPORTER_OTLP_HEADERS"] == "Authorization=Bearer " + secret
  {
    hide Otlp.NatToString;
    Names();
  }

  // ---------------------------------------------------------------------
  // The PATH block
  // ---------------------------------------------------------------------

  /** Where the block is appended, the directory of `tj` comes first on PATH. */
  lemma {:induction false} ShellFindsTj(t: string, dir: string)
    requires !Occurs(PATH_START, t) && OneLine(dir)
    ensures var env := ReadEnv(EnsurePath(Some(dir), t)); "PATH" in env && env["PATH"] == dir + ":$PATH"
  {
    hide Occurs, LinesOf, AssignAll, Unlines, OneLine;
    var front := t + (if Complete(t) then "" else "\n") + "\n";
    var lines := [PATH_START, PathLine(dir), PATH_END];
    assert front[|front| - 1] == '\n';
    PathLines(dir);
    LinesJoin(front, PathBlock(dir));
    AssignJoin(map[], LinesOf(front), lines);
    var env := ReadEnv(front);
    PathMarkers();
    AssignsNothing(env, PATH_START);
    PathAssigns(env, dir);
    AssignsNothing(env["PATH" := dir + ":$PATH"], PATH_END);
    OneLineMore(env, lines);
    OneLineMore(env, lines[1..]);
    OneLineMore(env["PATH" := dir + ":$PATH"], lines[1..][1..]);
    assert lines[1..] == [PathLine(dir), PATH_END] && lines[1..][1..] == [PATH_END] && [PATH_END][1..] == [];
  }

  lemma {:induction false} PathAssigns(env: Env, dir: string)
    ensures Assign(env, PathLine(dir)) == env["PATH" := dir + ":$PATH"]
  {
    var value := "\"" + (dir + ":$PATH") + "\"";
    assert PathLine(dir) == "export " + ("PATH" + "=" + value);
    Assigns(env, PathLine(dir), "PATH", value);
    assert value[1..|value| - 1] == dir + ":$PATH";
  }

  lemma {:induction false} PathLines(dir: string)
    requires OneLine(dir)
    ensures LinesOf(PathBlock(dir)) == [PATH_START, PathLine(dir), PATH_END]
  {
    hide LinesOf, PathLine;
    PathMarkers();
    HashLineAnchors(PATH_START);
    HashLineAnchors(PATH_END);
    assert OneLine(PathLine(dir)) by { PathIsOneLine(dir); }
    assert PathBlock(dir) == PATH_START + "\n" + (PathLine(dir) + "\n" + (PATH_END + "\n" + ""));
    LinesCons(PATH_START, PathLine(dir) + "\n" + (PATH_END + "\n" + ""));
    LinesCons(PathLine(dir), PATH_END + "\n" + "");
    LinesCons(PATH_END, "");
    NoLines();
  }

  lemma {:induction false} NoLines()
    ensures LinesOf("") == []
  {}

  lemma {:induction false} PathIsOneLine(dir: string)
    requires OneLine(dir)
    ensures OneLine(PathLine(dir))
  {}
}
