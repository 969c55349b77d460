/**
 What Codex gets out of config.toml: the assignments of its tables.  The reader knows nothing of the
 writer (tokenjam/cli/cmd_onboard.py); it goes line by line.
 */
module CodexEnv {
  import opened Prelude
  import opened TextScan
  import opened ShellEnv
  import opened Codex
  import opened CodexScans
  import opened CodexRewrite
  import opened CodexConverges
  import opened CodexPurge
  import Otlp

  /** The value of a key under a table header. */
  type Values = map<(string, string), string>

  datatype Reading = Reading(table: string, values: Values)

  /** A line in brackets opens a table; `key = value` assigns in the open one; comments and the rest say nothing. */
  function ReadLine(r: Reading, line: string): Reading {
    if line != "" && line[0] == '[' then r.(table := line)
    else if line != "" && line[0] == '#' then r
    else match SplitAssignment(line)
         case Some((key, value)) => r.(values := r.values[(r.table, Trim(key)) := Unquoted(Trim(value))])
         case None => r
  }

  function ReadLines(r: Reading, lines: seq<string>): Reading
    decreases |lines|
  {
    if lines == [] then r else ReadLines(ReadLine(r, lines[0]), lines[1..])
  }

  function ReadToml(t: string): Values { ReadLines(Reading("", map[]), LinesOf(t)).values }

  lemma {:induction false} ReadJoin(r: Reading, a: seq<string>, b: seq<string>)
    ensures ReadLines(r, a + b) == ReadLines(ReadLines(r, a), b)
    decreases |a|
  {
    if a == [] {
      assert a + b == b;
    } else {
      assert (a + b)[1..] == a[1..] + b;
      ReadJoin(ReadLine(r, a[0]), a[1..], b);
    }
  }

  lemma {:induction false} ReadMore(r: Reading, lines: seq<string>)
    requires lines != []
    ensures ReadLines(r, lines) == ReadLines(ReadLine(r, lines[0]), lines[1..])
  {}

  lemma {:induction false} Opened(r: Reading, header: string)
    requires header != "" && header[0] == '['
    ensures ReadLine(r, header) == r.(table := header)
  {}

  lemma {:induction false} Said(r: Reading, key: string, value: string)
    requires key != "" && Trimmed(key) && '=' !in key && key[0] != '[' && key[0] != '#'
    requires Trimmed(value)
    ensures ReadLine(r, key + " = " + value) == r.(values := r.values[(r.table, key) := Unquoted(value)])
  {
    hide Unquoted, Trim;
    var line := key + " = " + value;
    NoEquals(key);
    SplitName(key + " ", " " + value);
    assert line == (key + " ") + "=" + (" " + value);
    BlankIsBlank();
    TrimBlankTail(key, " ");
    TrimIsTrimmed(key);
    TrimFront(value);
    TrimIsTrimmed(value);
  }

  lemma {:induction false} BlankIsBlank()
    ensures Blank(" ")
  {}

  lemma {:induction false} NoEquals(key: string)
    requires '=' !in key
    ensures '=' !in key + " "
  {}

  lemma {:induction false} TrimFront(value: string)
    ensures Trim(" " + value) == Trim(value)
  {
    assert (" " + value)[1..] == value;
  }

  // ---------------------------------------------------------------------
  // The block
  // ---------------------------------------------------------------------

  /** What the block says, whatever was said before. */
  function Exporting(v: Values, port: nat, secret: string): Values {
    v[("[otel]", "log_user_prompt") := "false"]
     [("[otel.exporter.\"otlp-http\"]", "endpoint") := "http://127.0.0.1:" + Otlp.NatToString(port) + "/v1/logs"]
     [("[otel.exporter.\"otlp-http\"]", "protocol") := "json"]
     [("[otel.exporter.\"otlp-http\".headers]", "Authorization") := "Bearer " + secret]
  }

  lemma {:induction false} NoteSaysNothing(r: Reading)
    ensures ReadLine(r, MANAGED_NOTE) == r
  {
    assert MANAGED_NOTE[0] == '#';
  }

  lemma {:induction false} EmptySaysNothing(r: Reading)
    ensures ReadLine(r, "") == r
  {}

  lemma {:induction false} PromptLine(r: Reading)
    ensures ReadLine(r, "log_user_prompt = false") == r.(values := r.values[(r.table, "log_user_prompt") := "false"])
  {
    var key, value := "log_user_prompt", "false";
    assert key + " = " + value == "log_user_prompt = false";
    Said(r, key, value);
  }

  lemma {:induction false} ProtocolLine(r: Reading)
    ensures ReadLine(r, "protocol = \"json\"") == r.(values := r.values[(r.table, "protocol") := "json"])
  {
    var key, value := "protocol", "\"json\"";
    assert key + " = " + value == "protocol = \"json\"";
    Said(r, key, value);
    assert value[1..|value| - 1] == "json";
  }

  lemma {:induction false} QuotedValue(inner: string)
    ensures var value := "\"" + inner + "\""; Trimmed(value) && Unquoted(value) == inner
  {
    var value := "\"" + inner + "\"";
    assert !IsSpace('"');
    assert value[1..|value| - 1] == inner;
  }

  lemma {:induction false} EndpointLine(r: Reading, port: nat)
    ensures ReadLine(r, HttpLines(port)[0])
         == r.(values := r.values[(r.table, "endpoint") := "http://127.0.0.1:" + Otlp.NatToString(port) + "/v1/logs"])
  {
    hide ReadLine, Otlp.NatToString, Unquoted, IsSpace;
    var d := Otlp.NatToString(port);
    var key, inner := "endpoint", "http://127.0.0.1:" + d + "/v1/logs";
    var value := "\"" + inner + "\"";
    QuotedValue(inner);
    EndpointKey();
    Said(r, key, value);
    var a, b := "endpoint = \"http://127.0.0.1:", "/v1/logs\"";
    assert a == key + " = " + ("\"" + "http://127.0.0.1:") && b == "/v1/logs" + "\"";
    Spliced(key + " = ", "\"", "http://127.0.0.1:", d, "/v1/logs", "\"");
  }

  lemma {:induction false} Spliced(a: string, q: string, b: string, d: string, c: string, e: string)
    ensures a + (q + b) + d + (c + e) == a + (q + (b + d + c) + e)
  {}

  lemma {:induction false} EndpointKey()
    ensures Trimmed("endpoint") && '=' !in "endpoint"
  {}

  lemma {:induction false} BearerLine(r: Reading, secret: string)
    ensures ReadLine(r, HeaderLines(secret)[0])
         == r.(values := r.values[(r.table, "Authorization") := "Bearer " + secret])
  {
    hide ReadLine, Unquoted, IsSpace;
    var key, inner := "Authorization", "Bearer " + secret;
    var value := "\"" + inner + "\"";
    QuotedValue(inner);
    BearerKey();
    Said(r, key, value);
    assert "Authorization = \"Bearer " == key + " = " + ("\"" + "Bearer ");
    Spliced(key + " = ", "\"", "Bearer ", secret, "", "\"");
    assert "" + "\"" == "\"" && "Bearer " + secret + "" == inner;
  }

  lemma {:induction false} BearerKey()
    ensures Trimmed("Authorization") && '=' !in "Authorization"
  {}

  function BlockLines(port: nat, secret: string): seq<string> {
    [OTEL, MANAGED_NOTE, "log_user_prompt = false", "", OTLP_HTTP] + HttpLines(port)
    + [OTLP_HTTP_HEADERS] + HeaderLines(secret)
  }

  lemma {:induction false} BlockText(port: nat, secret: string)
    requires OneLine(secret) && '[' !in secret
    ensures LinesOf(OtelToml(port, secret)) == BlockLines(port, secret)
  {
    hide LinesOf, Unlines, HttpLines, HeaderLines, MANAGED_NOTE;
    var b1 := [MANAGED_NOTE, "log_user_prompt = false", ""];
    var b2, b3 := HttpLines(port), HeaderLines(secret);
    NoteLinesFit();
    HttpLinesFit(port);
    HeaderLinesFit(secret);
    HeadersAreLines();
    var l1, l2, l3 := [OTEL] + b1, [OTLP_HTTP] + b2, [OTLP_HTTP_HEADERS] + b3;
    TableIsLines(OTEL, b1);
    TableIsLines(OTLP_HTTP, b2);
    TableIsLines(OTLP_HTTP_HEADERS, b3);
    UnlinesJoin(l2, l3);
    UnlinesJoin(l1, l2 + l3);
    AllOneLines(l1, l2 + l3) by { AllOneLines(l2, l3); }
    LinesOfUnlines(l1 + (l2 + l3));
    assert l1 + (l2 + l3) == BlockLines(port, secret);
  }

  lemma {:induction false} AllOneLines(a: seq<string>, b: seq<string>)
    requires forall i :: 0 <= i < |a| ==> OneLine(a[i])
    requires forall i :: 0 <= i < |b| ==> OneLine(b[i])
    ensures forall i :: 0 <= i < |a + b| ==> OneLine((a + b)[i])
  {
    hide OneLine;
  }

  lemma {:induction false} HeadersAreLines()
    ensures OneLine(OTEL) && OneLine(OTLP_HTTP) && OneLine(OTLP_HTTP_HEADERS)
  {}

  lemma {:induction false} BlockSays(r: Reading, port: nat, secret: string)
    ensures ReadLines(r, BlockLines(port, secret)).values == Exporting(r.values, port, secret)
  {
    hide ReadLine, HttpLines, HeaderLines, MANAGED_NOTE, Otlp.NatToString;
    TwoHttpLines(port);
    OneHeaderLine(secret);
    var b2, b3 := HttpLines(port), HeaderLines(secret);
    var ls := BlockLines(port, secret);
    assert ls == [OTEL, MANAGED_NOTE, "log_user_prompt = false", "", OTLP_HTTP, b2[0], b2[1], "", OTLP_HTTP_HEADERS,
                  b3[0]];
    var r1 := r.(table := OTEL);
    var r2 := r1.(values := r1.values[(OTEL, "log_user_prompt") := "false"]);
    var r3 := r2.(table := OTLP_HTTP);
    var url := "http://127.0.0.1:" + Otlp.NatToString(port) + "/v1/logs";
    var r4 := r3.(values := r3.values[(OTLP_HTTP, "endpoint") := url]);
    var r5 := r4.(values := r4.values[(OTLP_HTTP, "protocol") := "json"]);
    var r6 := r5.(table := OTLP_HTTP_HEADERS);
    HeadersOpen();
    Opened(r, OTEL);
    NoteSaysNothing(r1);
    PromptLine(r1);
    EmptySaysNothing(r2);
    Opened(r2, OTLP_HTTP);
    EndpointLine(r3, port);
    ProtocolLine(r4);
    EmptySaysNothing(r5);
    Opened(r5, OTLP_HTTP_HEADERS);
    BearerLine(r6, secret);
    TenLines(r, ls);
  }

  lemma {:induction false} HeadersOpen()
    ensures OTEL[0] == '[' && OTLP_HTTP[0] == '[' && OTLP_HTTP_HEADERS[0] == '['
  {}

  lemma {:induction false} TwoHttpLines(port: nat)
    ensures |HttpLines(port)| == 3 && HttpLines(port)[1] == "protocol = \"json\"" && HttpLines(port)[2] == ""
  {}

  lemma {:induction false} OneHeaderLine(secret: string)
    ensures |HeaderLines(secret)| == 1
  {}

  lemma {:induction false} TwoLines(r: Reading, ls: seq<string>)
    requires |ls| >= 2
    ensures ReadLines(r, ls) == ReadLines(ReadLine(ReadLine(r, ls[0]), ls[1]), ls[2..])
  {
    ReadMore(r, ls);
    ReadMore(ReadLine(r, ls[0]), ls[1..]);
    assert ls[1..][1..] == ls[2..] && ls[1..][0] == ls[1];
  }

  lemma {:induction false} TenLines(r: Reading, ls: seq<string>)
    requires |ls| == 10
    ensures var a := ReadLine(ReadLine(ReadLine(ReadLine(r, ls[0]), ls[1]), ls[2]), ls[3]);
            var b := ReadLine(ReadLine(ReadLine(ReadLine(a, ls[4]), ls[5]), ls[6]), ls[7]);
            ReadLines(r, ls) == ReadLine(ReadLine(b, ls[8]), ls[9])
  {
    hide ReadLine, ReadLines;
    var r2 := ReadLine(ReadLine(r, ls[0]), ls[1]);
    var r4 := ReadLine(ReadLine(r2, ls[2]), ls[3]);
    var r6 := ReadLine(ReadLine(r4, ls[4]), ls[5]);
    var r8 := ReadLine(ReadLine(r6, ls[6]), ls[7]);
    TwoLines(r, ls);
    TwoLines(r2, ls[2..]);
    TwoLines(r4, ls[4..]);
    TwoLines(r6, ls[6..]);
    TwoLines(r8, ls[8..]);
    assert ls[2..][2..] == ls[4..] && ls[4..][2..] == ls[6..] && ls[6..][2..] == ls[8..] && ls[8..][2..] == [];
    NothingRead(ReadLine(ReadLine(r8, ls[8]), ls[9]));
  }

  lemma {:induction false} NothingRead(r: Reading)
    ensures ReadLines(r, []) == r
  {}

  // ---------------------------------------------------------------------
  // The file
  // ---------------------------------------------------------------------

  lemma {:induction false} CollapseComplete(t: string)
    requires Complete(t)
    ensures Complete(Collapse(t)) && (t != "" ==> Collapse(t) != "")
  {
    if t != "" {
      assert t[1..] != "" ==> t[1..][|t| - 2] == t[|t| - 1];
      CollapseComplete(t[1..]);
      CollapseEmpty();
    }
  }

  lemma {:induction false} TrimLeftComplete(t: string)
    requires Complete(t)
    ensures Complete(TrimLeft(t))
  {
    TrimLeftShape(t);
  }

  lemma {:induction false} FrontIsComplete(block: string, content: string)
    requires TomlBlock(block)
    ensures Complete(FirstFront(block, content))
  {
    hide Occurs, Header, Purge, StripOtelTables, OwnsServer, WithoutServer, Collapse, TrimLeft, Find;
    var y := StripOtelTables(Purge(content));
    var z := Spaced(y);
    SpacedFacts(y, block);
    BlockFacts(block);
    if OwnsServer(z + block) && Find(TJ_SERVER, z).Some? {
      FenceSuffix(z, block);
      var i := Find(TJ_SERVER, z).value;
      var j :| i + |TJ_SERVER| <= j < |z| && z[j] == '\n' && WithoutServer(z, block) == z[..i] + z[j..];
      assert Complete(WithoutServer(z, block));
      CollapseComplete(WithoutServer(z, block));
      TrimLeftComplete(Collapse(WithoutServer(z, block)));
    }
  }

  /**
   After a forced rewrite, of any file, Codex exports to the port and with the secret of the day; every
   other value is what the kept text makes it.
   */
  lemma {:induction false} CodexSeesExport(content: string, parsed: bool, port: nat, secret: string)
    requires OneLine(secret) && '[' !in secret
    ensures var block := OtelToml(port, secret);
            ReadToml(Rewrite(block, parsed, content)) == Exporting(ReadToml(FirstFront(block, content)), port, secret)
  {
    hide Rewrite, FirstFront, LinesOf, ReadLines, OtelToml, BlockLines, Exporting, TomlBlock, OneLine;
    var block := OtelToml(port, secret);
    OtelTomlIsBlock(port, secret);
    FirstRewrite(block, parsed, content);
    FrontIsComplete(block, content);
    var front := FirstFront(block, content);
    LinesJoin(front, block);
    BlockText(port, secret);
    ReadJoin(Reading("", map[]), LinesOf(front), BlockLines(port, secret));
    BlockSays(ReadLines(Reading("", map[]), LinesOf(front)), port, secret);
  }
}
