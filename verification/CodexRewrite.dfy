/**
 Repeated rewrites of ~/.codex/config.toml: the purge on its own, and the forced rewrite
 (purge, strip the otel tables, append the block, retire the tj server).
 */
module CodexRewrite {
  import opened TextScan
  import opened Codex
  import opened CodexScans

  // ---------------------------------------------------------------------
  // Splitting at a line or a header
  // ---------------------------------------------------------------------

  /** Text that no header can reach into from the left. */
  predicate Fence(b: string) { b == "" || b[0] == '[' || b[0] == '\n' }

  lemma {:induction false} HeaderBound(h: string, a: string, b: string)
    requires Header(h) && Fence(b) && a != []
    ensures h <= a + b <==> h <= a
  {
    if |a| < |h| && b != [] {
      assert (a + b)[|a|] == b[0];
      assert h[|a|] != '[' && h[|a|] != '\n';
    }
  }

  lemma {:induction false} HeaderSplit(h: string, a: string, b: string)
    requires Header(h) && Fence(b)
    ensures Occurs(h, a + b) <==> Occurs(h, a) || Occurs(h, b)
  {
    if a == [] {
      assert a + b == b;
    } else {
      HeaderBound(h, a, b);
      assert (a + b)[1..] == a[1..] + b;
      HeaderSplit(h, a[1..], b);
    }
  }

  lemma {:induction false} CutCopies(h: string, a: string, b: string)
    requires Header(h) && Fence(b) && !Occurs(h, a)
    ensures Cut(h, a + b) == a + Cut(h, b)
  {
    if a == [] {
      assert a + b == b;
    } else {
      HeaderBound(h, a, b);
      assert (a + b)[1..] == a[1..] + b;
      CutCopies(h, a[1..], b);
    }
  }

  /** The end of a section whose lines hold no bracket. */
  lemma {:induction false} SectionEndAt(c: string, n: string)
    requires Complete(c) && c != [] && '[' !in c && (n == "" || n[0] == '[')
    ensures SectionEnd(c + n) == if n == "" then "" else "\n" + n
  {
    var t := c + n;
    assert t[1..] == c[1..] + n;
    if |c| == 1 {
      assert c == "\n" && t == "\n" + n;
      if n == "" {
        assert SectionEnd("\n") == SectionEnd("\n"[1..]);
      }
    } else {
      assert t[1] == c[1] != '[';
      assert forall x :: x in c[1..] ==> x in c;
      SectionEndAt(c[1..], n);
    }
  }

  // ---------------------------------------------------------------------
  // Tables
  // ---------------------------------------------------------------------

  /** Lines without a bracket. */
  ghost predicate Unbracketed(body: seq<string>) {
    forall i :: 0 <= i < |body| ==> OneLine(body[i]) && '[' !in body[i]
  }

  lemma {:induction false} UnbracketedText(body: seq<string>)
    requires Unbracketed(body)
    ensures '[' !in Unlines(body) && Complete(Unlines(body))
  {
    if body != [] {
      UnbracketedText(body[1..]);
    }
  }

  lemma {:induction false} HeaderInTable(g: string, h: string, body: seq<string>)
    requires Header(g) && Header(h) && Unbracketed(body)
    ensures Occurs(g, Table(h, body)) <==> g == h
  {
    var t := Table(h, body);
    UnbracketedText(body);
    assert '[' !in t[1..] by {
      assert forall k :: 1 <= k < |t| ==> t[k] != '[';
    }
    OccursOnlyAtHead(g, t);
    assert t[..|h|] == h;
    if g <= t {
      assert t[|g| - 1] == ']' && forall k :: 0 <= k < |g| - 1 ==> t[k] != ']';
      assert t[|h| - 1] == ']' && forall k :: 0 <= k < |h| - 1 ==> t[k] != ']';
      assert g == t[..|g|];
    }
  }

  /** Cutting a table out of the middle leaves the newline in front of what follows. */
  lemma {:induction false} CutTable(h: string, a: string, body: seq<string>, n: string)
    requires Header(h) && Unbracketed(body) && !Occurs(h, a) && (n == "" || n[0] == '[')
    ensures Cut(h, a + (Table(h, body) + n)) == a + (if n == "" then "" else "\n" + Cut(h, n))
  {
    var t := Table(h, body) + n;
    CutCopies(h, a, t);
    UnbracketedText(body);
    var c := "\n" + Unlines(body);
    assert t[|h|..] == c + n;
    SectionEndAt(c, n);
    CutNewline(h, n);
    assert t != [] && h <= t;
    assert Cut(h, t) == Cut(h, SectionEnd(t[|h|..]));
  }

  lemma {:induction false} CutNewline(h: string, n: string)
    requires Header(h)
    ensures Cut(h, "\n" + n) == "\n" + Cut(h, n) && Cut(h, "") == ""
  {
    assert ("\n" + n)[1..] == n;
  }

  // ---------------------------------------------------------------------
  // The block
  // ---------------------------------------------------------------------

  /** A block as onboarding writes it, with any lines in its three tables. */
  ghost predicate IsBlock(block: string, b1: seq<string>, b2: seq<string>, b3: seq<string>) {
    && Unbracketed(b1) && Unbracketed(b2) && Unbracketed(b3)
    && block == Tables(b1, b2, b3)
    && Collapsed(block)
    && |block| > 1 && block[|block| - 1] == '\n' && !IsSpace(block[|block| - 2])
  }

  ghost predicate TomlBlock(block: string) {
    exists b1, b2, b3 :: IsBlock(block, b1, b2, b3)
  }

  lemma {:induction false} Distinct()
    ensures OTEL !in {OTEL_RESOURCE, OTLP_HTTP, OTLP_HTTP_HEADERS, OTLP_GRPC, OTLP_GRPC_HEADERS}
    ensures OTLP_HTTP !in {OTEL_RESOURCE, OTLP_HTTP_HEADERS, OTLP_GRPC, OTLP_GRPC_HEADERS}
    ensures OTLP_HTTP_HEADERS !in {OTEL_RESOURCE, OTLP_GRPC, OTLP_GRPC_HEADERS}
    ensures OCW_SERVER !in {OTEL, OTLP_HTTP, OTLP_HTTP_HEADERS}
    ensures TJ_SERVER !in {OTEL, OTLP_HTTP, OTLP_HTTP_HEADERS}
  {
    assert OTLP_HTTP[21] == 'h' && OTLP_GRPC[21] == 'g';
    assert OTLP_HTTP_HEADERS[21] == 'h' && OTLP_GRPC_HEADERS[21] == 'g';
    assert OCW_SERVER[1] == 'm' && TJ_SERVER[1] == 'm' && OTEL[1] == 'o' && OTLP_HTTP[1] == 'o';
    assert OTLP_HTTP_HEADERS[1] == 'o';
  }

  lemma {:induction false} OrdersAreHeaders()
    ensures Headers(STRIP_ORDER) && Headers(PURGE_ORDER)
    ensures forall h :: h in PURGE_ORDER <==> h in STRIP_ORDER
  {
    hide Header;
    OtelHeaders();
    HttpHeader();
    HttpHeadersHeader();
    GrpcHeader();
    GrpcHeadersHeader();
  }

  /** A header occurs in a block only as the header of one of its tables. */
  lemma {:induction false} HeaderInBlock(h: string, block: string, b1: seq<string>, b2: seq<string>, b3: seq<string>)
    requires Header(h) && Unbracketed(b1) && Unbracketed(b2) && Unbracketed(b3) && block == Tables(b1, b2, b3)
    ensures Occurs(h, block) <==> h in {OTEL, OTLP_HTTP, OTLP_HTTP_HEADERS}
    ensures block != [] && block[0] == '['
  {
    hide Occurs, Header, Unlines;
    OtelHeaders();
    HttpHeader();
    HttpHeadersHeader();
    HeaderInTable(h, OTEL, b1);
    HeaderInTable(h, OTLP_HTTP, b2);
    HeaderInTable(h, OTLP_HTTP_HEADERS, b3);
    HeaderSplit(h, Table(OTLP_HTTP, b2), Table(OTLP_HTTP_HEADERS, b3));
    HeaderSplit(h, Table(OTEL, b1), Table(OTLP_HTTP, b2) + Table(OTLP_HTTP_HEADERS, b3));
  }

  lemma {:induction false} CutSix(a: string, b: string, c: string, d: string, e: string, f: string, t: string)
    requires a != [] && b != [] && c != [] && d != [] && e != [] && f != []
    ensures CutAll([a, b, c, d, e, f], t) == Cut(f, Cut(e, Cut(d, Cut(c, Cut(b, Cut(a, t))))))
  {
    hide Cut;
    var t1 := Cut(a, t);
    var t2 := Cut(b, t1);
    var t3 := Cut(c, t2);
    var t4 := Cut(d, t3);
    var t5 := Cut(e, t4);
    assert [a, b, c, d, e, f][1..] == [b, c, d, e, f];
    assert [b, c, d, e, f][1..] == [c, d, e, f];
    assert [c, d, e, f][1..] == [d, e, f];
    assert [d, e, f][1..] == [e, f];
    assert [e, f][1..] == [f];
    assert [f][1..] == [];
    assert CutAll([f], t5) == Cut(f, t5);
    assert CutAll([e, f], t4) == CutAll([f], t5);
    assert CutAll([d, e, f], t3) == CutAll([e, f], t4);
    assert CutAll([c, d, e, f], t2) == CutAll([d, e, f], t3);
    assert CutAll([b, c, d, e, f], t1) == CutAll([c, d, e, f], t2);
  }

  /** None of the otel headers. */
  ghost predicate OtelClear(t: string) { NoneOf(STRIP_ORDER, t) }

  lemma {:induction false} OtelClearMeans(t: string)
    ensures OtelClear(t) <==>
      && !Occurs(OTEL, t) && !Occurs(OTEL_RESOURCE, t) && !Occurs(OTLP_HTTP, t)
      && !Occurs(OTLP_HTTP_HEADERS, t) && !Occurs(OTLP_GRPC, t) && !Occurs(OTLP_GRPC_HEADERS, t)
  {
    hide Occurs;
    assert STRIP_ORDER[0] == OTEL && STRIP_ORDER[1] == OTEL_RESOURCE && STRIP_ORDER[2] == OTLP_HTTP
        && STRIP_ORDER[3] == OTLP_HTTP_HEADERS && STRIP_ORDER[4] == OTLP_GRPC && STRIP_ORDER[5] == OTLP_GRPC_HEADERS;
  }

  /** A header that a text and a table do not hold is not cut from them. */
  lemma {:induction false} NotCut(g: string, a: string, h: string, body: seq<string>)
    requires Header(g) && Header(h) && g != h && Unbracketed(body) && !Occurs(g, a)
    ensures Cut(g, a + Table(h, body)) == a + Table(h, body)
    ensures !Occurs(g, a + Table(h, body))
  {
    HeaderInTable(g, h, body);
    HeaderSplit(g, a, Table(h, body));
    CutNothing(g, a + Table(h, body));
  }

  lemma {:induction false} NewlineKeepsClear(g: string, a: string)
    requires Header(g) && !Occurs(g, a)
    ensures !Occurs(g, a + "\n")
  {
    HeaderSplit(g, a, "\n");
    OccursNeedsHead(g, "\n");
  }

  /** Stripping the tables of the block from behind clear text leaves two newlines. */
  lemma {:induction false} StripChain(z: string, b1: seq<string>, b2: seq<string>, b3: seq<string>)
    requires OtelClear(z) && Unbracketed(b1) && Unbracketed(b2) && Unbracketed(b3)
    ensures CutAll(STRIP_ORDER, z + Tables(b1, b2, b3)) == z + "\n" + "\n"
  {
    hide Cut, Occurs, Header, Unlines, CutAll;
    OtelClearMeans(z);
    OtelHeaders();
    HttpHeader();
    HttpHeadersHeader();
    GrpcHeader();
    GrpcHeadersHeader();
    Distinct();
    var t2, t3 := Table(OTLP_HTTP, b2), Table(OTLP_HTTP_HEADERS, b3);
    var z1 := z + "\n";
    var z2 := z1 + "\n";
    // [otel]
    CutTable(OTEL, z, b1, t2 + t3);
    NotInTables(OTEL, b2, b3);
    CutNothing(OTEL, t2 + t3);
    assert z + ("\n" + (t2 + t3)) == z1 + (t2 + t3);
    // [otel.resource]
    NewlineKeepsClear(OTEL_RESOURCE, z);
    NotInTables(OTEL_RESOURCE, b2, b3);
    HeaderSplit(OTEL_RESOURCE, z1, t2 + t3);
    CutNothing(OTEL_RESOURCE, z1 + (t2 + t3));
    // [otel.exporter."otlp-http"]
    NewlineKeepsClear(OTLP_HTTP, z);
    CutTable(OTLP_HTTP, z1, b2, t3);
    HeaderInTable(OTLP_HTTP, OTLP_HTTP_HEADERS, b3);
    CutNothing(OTLP_HTTP, t3);
    assert z1 + ("\n" + t3) == z2 + t3;
    // [otel.exporter."otlp-http".headers]
    NewlineKeepsClear(OTLP_HTTP_HEADERS, z);
    NewlineKeepsClear(OTLP_HTTP_HEADERS, z1);
    assert t3 + "" == t3;
    CutTable(OTLP_HTTP_HEADERS, z2, b3, "");
    assert z2 + "" == z2;
    // the grpc headers
    NewlineKeepsClear(OTLP_GRPC, z);
    NewlineKeepsClear(OTLP_GRPC, z1);
    CutNothing(OTLP_GRPC, z2);
    NewlineKeepsClear(OTLP_GRPC_HEADERS, z);
    NewlineKeepsClear(OTLP_GRPC_HEADERS, z1);
    CutNothing(OTLP_GRPC_HEADERS, z2);
    CutSix(OTEL, OTEL_RESOURCE, OTLP_HTTP, OTLP_HTTP_HEADERS, OTLP_GRPC, OTLP_GRPC_HEADERS, z + Tables(b1, b2, b3));
  }

  lemma {:induction false} NotInTables(g: string, b2: seq<string>, b3: seq<string>)
    requires Header(g) && Unbracketed(b2) && Unbracketed(b3) && g != OTLP_HTTP && g != OTLP_HTTP_HEADERS
    ensures var n := Table(OTLP_HTTP, b2) + Table(OTLP_HTTP_HEADERS, b3);
            !Occurs(g, n) && n != "" && n[0] == '['
  {
    HttpHeader();
    HttpHeadersHeader();
    HeaderInTable(g, OTLP_HTTP, b2);
    HeaderInTable(g, OTLP_HTTP_HEADERS, b3);
    HeaderSplit(g, Table(OTLP_HTTP, b2), Table(OTLP_HTTP_HEADERS, b3));
  }

  /** The purge, should it mistake the block for a legacy one, leaves just the text before it. */
  lemma {:induction false} PurgeChain(z: string, b1: seq<string>, b2: seq<string>, b3: seq<string>)
    requires OtelClear(z) && Unbracketed(b1) && Unbracketed(b2) && Unbracketed(b3)
    ensures CutAll(PURGE_ORDER, z + Tables(b1, b2, b3)) == z
  {
    hide Cut, Occurs, Header, Unlines, CutAll;
    OtelClearMeans(z);
    OtelHeaders();
    HttpHeader();
    HttpHeadersHeader();
    GrpcHeader();
    GrpcHeadersHeader();
    Distinct();
    var t1, t2, t3 := Table(OTEL, b1), Table(OTLP_HTTP, b2), Table(OTLP_HTTP_HEADERS, b3);
    assert z + Tables(b1, b2, b3) == (z + t1 + t2) + t3;
    // headers table, the last one
    NotCut(OTLP_HTTP_HEADERS, z, OTEL, b1);
    NotCut(OTLP_HTTP_HEADERS, z + t1, OTLP_HTTP, b2);
    CutTable(OTLP_HTTP_HEADERS, z + t1 + t2, b3, "");
    assert t3 + "" == t3 && (z + t1 + t2) + "" == z + t1 + t2;
    // otlp-http, now the last one
    NotCut(OTLP_HTTP, z, OTEL, b1);
    CutTable(OTLP_HTTP, z + t1, b2, "");
    assert t2 + "" == t2 && (z + t1) + "" == z + t1;
    NotCut(OTLP_GRPC_HEADERS, z, OTEL, b1);
    NotCut(OTLP_GRPC, z, OTEL, b1);
    NotCut(OTEL_RESOURCE, z, OTEL, b1);
    CutTable(OTEL, z, b1, "");
    assert t1 + "" == t1 && z + "" == z;
    CutSix(OTLP_HTTP_HEADERS, OTLP_HTTP, OTLP_GRPC_HEADERS, OTLP_GRPC, OTEL_RESOURCE, OTEL, z + Tables(b1, b2, b3));
  }

  // ---------------------------------------------------------------------
  // Tidying text in front of the block
  // ---------------------------------------------------------------------

  lemma {:induction false} BlockCollapsed(v: string, block: string)
    requires block != "" && block[0] == '[' && Collapsed(block)
    ensures Collapse(v + block) == Collapse(v) + block
  {
    CollapseSplit(v, block);
    CollapseNothing(block);
  }

  /** Collapsing and stripping work on the text in front and leave the block as it is. */
  lemma {:induction false} TidyBehind(v: string, block: string)
    requires |block| > 1 && block[0] == '[' && Collapsed(block)
    requires block[|block| - 1] == '\n' && !IsSpace(block[|block| - 2])
    ensures Tidied(Collapse(v + block)) == TrimLeft(Collapse(v)) + block
  {
    hide Collapse;
    BlockCollapsed(v, block);
    var c := Collapse(v);
    TrimLeftSplit(c, block);
    var body := block[..|block| - 1];
    var u := TrimLeft(c) + body;
    assert block == body + "\n" && TrimLeft(c) + block == u + "\n";
    TrimRightBlank(u, "\n");
    assert u[|u| - 1] == block[|block| - 2];
    assert TrimRight(u) == u;
  }

  lemma {:induction false} TidiedClear(h: string, t: string)
    requires Header(h) && !Occurs(h, t)
    ensures !Occurs(h, Trim(Collapse(t))) && !Occurs(h, TrimLeft(Collapse(t))) && !Occurs(h, Tidied(Collapse(t)))
  {
    hide Collapse, Occurs;
    var c := Collapse(t);
    CollapseOccurs(h, t);
    TrimSubstring(h, c);
    TrimLeftShape(c);
    if Occurs(h, TrimLeft(c)) {
      OccursSuffix(h, c, |c| - |TrimLeft(c)|);
    }
    NewlineKeepsClear(h, Trim(c));
  }

  ghost predicate ManagedClear(t: string) { OtelClear(t) && !Occurs(OCW_SERVER, t) }

  lemma {:induction false} TidiedManagedClear(t: string)
    requires ManagedClear(t)
    ensures ManagedClear(Trim(Collapse(t))) && ManagedClear(TrimLeft(Collapse(t))) && ManagedClear(Tidied(Collapse(t)))
  {
    hide Occurs, Collapse, Tidied, Trim, TrimLeft, Header;
    OrdersAreHeaders();
    ServerHeaders();
    TidiedClear(OCW_SERVER, t);
    forall i | 0 <= i < |STRIP_ORDER|
      ensures !Occurs(STRIP_ORDER[i], Trim(Collapse(t))) && !Occurs(STRIP_ORDER[i], TrimLeft(Collapse(t)))
           && !Occurs(STRIP_ORDER[i], Tidied(Collapse(t)))
    {
      TidiedClear(STRIP_ORDER[i], t);
    }
  }

  lemma {:induction false} NewlineBlank()
    ensures Blank("\n") && Blank("\n" + "\n")
  {}

  /** Purging and stripping a file that ends with a block leaves the tidied text in front of it. */
  lemma {:induction false} FrontSurvives(z: string, block: string, b1: seq<string>, b2: seq<string>, b3: seq<string>)
    requires ManagedClear(z) && IsBlock(block, b1, b2, b3)
    ensures StripOtelTables(Purge(z + block)) == Trim(Collapse(z))
  {
    hide Occurs, Cut, CutAll, Collapse, HasLegacyOtel, Header, Unlines, TrimLeft, TrimRight;
    ServerHeaders();
    OrdersAreHeaders();
    Distinct();
    HeaderInBlock(OCW_SERVER, block, b1, b2, b3);
    HeaderSplit(OCW_SERVER, z, block);
    CutNothing(OCW_SERVER, z + block);
    TidiedManagedClear(z);
    NewlineBlank();
    var c := Collapse(z);
    TrimIsTrimmed(c);
    if HasLegacyOtel(z + block) {
      PurgeChain(z, b1, b2, b3);
      CutAllNothing(STRIP_ORDER, Tidied(c));
      TrimBlankTail(Trim(c), "\n");
      TrimIsTrimmed(Trim(c));
    } else {
      TidyBehind(z, block);
      StripChain(TrimLeft(c), b1, b2, b3);
      assert TrimLeft(c) + "\n" + "\n" == TrimLeft(c) + ("\n" + "\n");
      TrimBlankTail(TrimLeft(c), "\n" + "\n");
      TrimLeftShape(c);
      TrimLeftTwice(c);
    }
  }

  lemma {:induction false} TrimLeftTwice(c: string)
    ensures Trim(TrimLeft(c)) == Trim(c)
  {
    TrimLeftShape(c);
  }

  // ---------------------------------------------------------------------
  // One rewrite
  // ---------------------------------------------------------------------

  /** The block behind the text that is kept. */
  function Canon(block: string, w: string): string {
    if w == "" then block else w + "\n\n" + block
  }

  /** Under `force` it makes no difference whether the file parsed to something with an otel table. */
  lemma {:induction false} ParseDoesNotMatter(block: string, parsed: bool, content: string)
    ensures ApplyBlock(StripOtelTables(Purge(content)), parsed, block, true)
         == Canon(block, StripOtelTables(Purge(content)))
    ensures Trimmed(StripOtelTables(Purge(content)))
    ensures ManagedClear(StripOtelTables(Purge(content)))
  {
    hide Occurs, Cut, CutAll, Purge, TrimLeft, TrimRight;
    StrippedIsClear(content);
    var y := StripOtelTables(Purge(content));
    TrimIsTrimmed(CutAll(STRIP_ORDER, Purge(content)));
    TrimIsTrimmed(y);
    OtelClearMeans(y);
    CutNothing(OTEL, y);
  }

  lemma {:induction false} StrippedIsClear(content: string)
    ensures ManagedClear(StripOtelTables(Purge(content)))
  {
    hide Occurs, Cut, CutAll, Header, Trim;
    var p := Purge(content);
    PurgedHasNoServer(content);
    OrdersAreHeaders();
    ServerHeaders();
    AllOneLine();
    NotAfterCutAll(STRIP_ORDER, OCW_SERVER, p);
    TrimSubstring(OCW_SERVER, CutAll(STRIP_ORDER, p));
    forall i | 0 <= i < |STRIP_ORDER| ensures !Occurs(STRIP_ORDER[i], StripOtelTables(p)) {
      NotAfterCutAll(STRIP_ORDER, STRIP_ORDER[i], p);
      TrimSubstring(STRIP_ORDER[i], CutAll(STRIP_ORDER, p));
    }
  }

  lemma {:induction false} AllOneLine()
    ensures forall h :: Header(h) ==> h != [] && OneLine(h)
  {}

  lemma {:induction false} PurgedHasNoServer(content: string)
    ensures !Occurs(OCW_SERVER, Purge(content))
  {
    hide Occurs, Cut, CutAll, Header, Trim, Collapse, HasLegacyOtel, Tidied;
    ServerHeaders();
    OrdersAreHeaders();
    AllOneLine();
    NotAfterCut(OCW_SERVER, OCW_SERVER, content);
    var c := Cut(OCW_SERVER, content);
    NotAfterCutAll(PURGE_ORDER, OCW_SERVER, c);
    TidiedClear(OCW_SERVER, if HasLegacyOtel(c) then CutAll(PURGE_ORDER, c) else c);
  }

  /** A rewrite of a file that ends with a block, whatever its secret was. */
  lemma {:induction false} RewriteBehind(z: string, earlier: string, block: string, parsed: bool)
    requires ManagedClear(z) && TomlBlock(earlier)
    ensures Rewrite(block, parsed, z + earlier) == RetireServer(Canon(block, Trim(Collapse(z))))
  {
    hide Occurs, Purge, StripOtelTables, ApplyBlock, RetireServer, Collapse, Trim, ManagedClear;
    var b1, b2, b3 :| IsBlock(earlier, b1, b2, b3);
    FrontSurvives(z, earlier, b1, b2, b3);
    ParseDoesNotMatter(block, parsed, z + earlier);
  }
}
