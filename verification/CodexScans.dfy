/** What the scans of Codex do to any text: cuts, headers, collapsing of blank lines. */
module CodexScans {
  import opened TextScan
  import opened Codex

  // ---------------------------------------------------------------------
  // Headers
  // ---------------------------------------------------------------------

  /** A bracketed name on one line, with no bracket inside. */
  ghost predicate Header(h: string) {
    |h| > 1 && h[0] == '[' && h[|h| - 1] == ']' && OneLine(h)
    && forall k :: 0 < k < |h| - 1 ==> h[k] != '[' && h[k] != ']'
  }

  lemma {:induction false} ServerHeaders()
    ensures Header(OCW_SERVER) && Header(TJ_SERVER)
  {}

  lemma {:induction false} OtelHeaders()
    ensures Header(OTEL) && Header(OTEL_RESOURCE)
  {}

  lemma {:induction false} HttpHeader()
    ensures Header(OTLP_HTTP)
  {}

  lemma {:induction false} HttpHeadersHeader()
    ensures Header(OTLP_HTTP_HEADERS)
  {}

  lemma {:induction false} GrpcHeader()
    ensures Header(OTLP_GRPC)
  {}

  lemma {:induction false} GrpcHeadersHeader()
    ensures Header(OTLP_GRPC_HEADERS)
  {}

  lemma {:induction false} SectionEndShape(u: string)
    ensures SectionEnd(u) == [] || "\n[" <= SectionEnd(u)
    ensures SectionEnd(u) == u[|u| - |SectionEnd(u)|..]
  {
    if u != [] && !("\n[" <= u) {
      SectionEndShape(u[1..]);
      assert u[1..][|u| - 1 - |SectionEnd(u)|..] == u[|u| - |SectionEnd(u)|..];
    }
  }

  /** One-line text at the start of what a cut leaves was at the start before. */
  lemma {:induction false} CutPrefixBack(h: string, g: string, t: string)
    requires Header(h) && g != [] && OneLine(g) && g <= Cut(h, t)
    ensures g <= t
    decreases |t|
  {
    if t != [] {
      if h <= t {
        var r := SectionEnd(t[|h|..]);
        SectionEndShape(t[|h|..]);
        CutOfNewline(h, r);
      } else if |g| > 1 {
        assert Cut(h, t)[1..] == Cut(h, t[1..]);
        CutPrefixBack(h, g[1..], t[1..]);
      }
    }
  }

  lemma {:induction false} CutHead(h: string, t: string)
    requires h != [] && t != [] && h <= t
    ensures Cut(h, t) == Cut(h, SectionEnd(t[|h|..]))
  {}

  lemma {:induction false} CutChar(h: string, t: string)
    requires h != [] && t != [] && !(h <= t)
    ensures Cut(h, t) == [t[0]] + Cut(h, t[1..])
  {}

  lemma {:induction false} CutOfNewline(h: string, r: string)
    requires Header(h) && (r == [] || r[0] == '\n')
    ensures r == [] ==> Cut(h, r) == []
    ensures r != [] ==> Cut(h, r) != [] && Cut(h, r)[0] == '\n'
  {}

  lemma {:induction false} NotAfterCut(h: string, g: string, t: string)
    requires Header(h) && g != [] && OneLine(g)
    requires !Occurs(g, t) || g == h
    ensures !Occurs(g, Cut(h, t))
    decreases |t|
  {
    if t != [] {
      if h <= t {
        SectionEndShape(t[|h|..]);
        var r := SectionEnd(t[|h|..]);
        assert r == t[|t| - |r|..];
        if Occurs(g, r) {
          OccursSuffix(g, t, |t| - |r|);
        }
        NotAfterCut(h, g, r);
      } else {
        NotAfterCut(h, g, t[1..]);
        assert Cut(h, t)[1..] == Cut(h, t[1..]);
        if g <= Cut(h, t) {
          CutPrefixBack(h, g, t);
        }
      }
    }
  }

  lemma {:induction false} CutNothing(h: string, t: string)
    requires h != [] && !Occurs(h, t)
    ensures Cut(h, t) == t
  {
    if t != [] {
      CutNothing(h, t[1..]);
    }
  }

  ghost predicate Headers(hs: seq<string>) {
    forall i :: 0 <= i < |hs| ==> Header(hs[i])
  }

  ghost predicate NoneOf(hs: seq<string>, t: string) {
    forall i :: 0 <= i < |hs| ==> !Occurs(hs[i], t)
  }

  lemma {:induction false} NotAfterCutAll(hs: seq<string>, g: string, t: string)
    requires Headers(hs) && g != [] && OneLine(g)
    requires !Occurs(g, t) || g in hs
    ensures !Occurs(g, CutAll(hs, t))
  {
    if hs != [] {
      if !Occurs(g, t) || g == hs[0] {
        NotAfterCut(hs[0], g, t);
      }
      NotAfterCutAll(hs[1..], g, Cut(hs[0], t));
    }
  }

  lemma {:induction false} CutAllNothing(hs: seq<string>, t: string)
    requires Headers(hs) && NoneOf(hs, t)
    ensures CutAll(hs, t) == t
  {
    if hs != [] {
      CutNothing(hs[0], t);
      CutAllNothing(hs[1..], t);
    }
  }

  // ---------------------------------------------------------------------
  // Collapsing and trimming
  // ---------------------------------------------------------------------

  /** One-line text starts the collapsed text exactly when it starts the text. */
  lemma {:induction false} CollapsePrefix(g: string, t: string)
    requires OneLine(g)
    ensures g <= Collapse(t) <==> g <= t
    ensures g <= t ==> Collapse(t)[|g|..] == Collapse(t[|g|..])
  {
    if g == [] {
      assert t[0..] == t;
    } else if t != [] {
      assert "\n\n\n"[0] == '\n';
      if t[0] == '\n' {
        CollapseNewline(t);
        assert g[0] != '\n';
      } else {
        CollapsePrefix(g[1..], t[1..]);
        assert Collapse(t)[1..] == Collapse(t[1..]);
        if g <= t {
          assert t[1..][|g| - 1..] == t[|g|..];
          assert Collapse(t[1..])[|g| - 1..] == Collapse(t)[|g|..];
        }
        assert g <= t <==> g[0] == t[0] && g[1..] <= t[1..];
        assert g <= Collapse(t) <==> g[0] == t[0] && g[1..] <= Collapse(t[1..]);
      }
    }
  }

  lemma {:induction false} CollapseNewline(t: string)
    requires t != [] && t[0] == '\n'
    ensures Collapse(t) != [] && Collapse(t)[0] == '\n'
  {
    if "\n\n\n" <= t {
      CollapseNewline(t[1..]);
    }
  }

  lemma {:induction false} CollapseOccurs(g: string, t: string)
    requires g != [] && OneLine(g)
    ensures Occurs(g, Collapse(t)) <==> Occurs(g, t)
  {
    CollapsePrefix(g, t);
    if t != [] {
      CollapseOccurs(g, t[1..]);
      if "\n\n\n" <= t {
        assert t[0] == '\n' && g[0] != '\n';
      } else {
        assert Collapse(t)[1..] == Collapse(t[1..]);
      }
    }
  }

  /** No run of three newlines. */
  predicate Collapsed(t: string) { !Occurs("\n\n\n", t) }

  lemma {:induction false} CollapseDone(t: string)
    ensures Collapsed(Collapse(t))
  {
    if t == [] {
      assert !("\n\n\n" <= t);
    } else {
      CollapseDone(t[1..]);
      if !("\n\n\n" <= t) {
        assert Collapse(t)[1..] == Collapse(t[1..]);
        LeadingCollapsed(t);
        LeadingMeans(Collapse(t));
      }
    }
  }

  /** How many newlines a text starts with. */
  function Leading(t: string): nat {
    if t != [] && t[0] == '\n' then 1 + Leading(t[1..]) else 0
  }

  lemma {:induction false} LeadingMeans(t: string)
    ensures "\n\n\n" <= t <==> Leading(t) >= 3
  {
    if |t| >= 3 {
      var u, v := t[1..], t[2..];
      assert u[1..] == v && u[0] == t[1] && v[0] == t[2];
      assert "\n\n\n" <= t <==> t[0] == '\n' && t[1] == '\n' && t[2] == '\n' by {
        assert t[..3] == [t[0], t[1], t[2]];
      }
      assert Leading(t) >= 3 <==> t[0] == '\n' && Leading(u) >= 2;
      assert Leading(u) >= 2 <==> u[0] == '\n' && Leading(v) >= 1;
    } else {
      LeadingBound(t);
    }
  }

  lemma {:induction false} LeadingBound(t: string)
    ensures Leading(t) <= |t|
  {
    if t != [] {
      LeadingBound(t[1..]);
    }
  }

  lemma {:induction false} LeadingCollapsed(t: string)
    ensures Leading(Collapse(t)) == if Leading(t) >= 3 then 2 else Leading(t)
  {
    LeadingMeans(t);
    if t != [] {
      LeadingCollapsed(t[1..]);
      if !("\n\n\n" <= t) {
        assert Collapse(t)[1..] == Collapse(t[1..]);
      }
    }
  }

  lemma {:induction false} CollapseNothing(t: string)
    requires Collapsed(t)
    ensures Collapse(t) == t
  {
    if t != [] {
      CollapseNothing(t[1..]);
    }
  }

  /** Collapsing works on both sides of a place where the right side starts a new word. */
  lemma {:induction false} LeadingSplit(a: string, b: string)
    requires b == [] || b[0] != '\n'
    ensures Leading(a + b) == Leading(a)
  {
    if a == [] {
      assert a + b == b;
    } else {
      assert (a + b)[1..] == a[1..] + b;
      LeadingSplit(a[1..], b);
    }
  }

  lemma {:induction false} CollapseSplit(a: string, b: string)
    requires b == [] || b[0] != '\n'
    ensures Collapse(a + b) == Collapse(a) + Collapse(b)
  {
    hide Collapse, Leading;
    if a == [] {
      assert a + b == b && [] + Collapse(b) == Collapse(b);
      CollapseEmpty();
    } else {
      assert (a + b)[1..] == a[1..] + b;
      CollapseSplit(a[1..], b);
      LeadingSplit(a, b);
      LeadingMeans(a);
      LeadingMeans(a + b);
      CollapseStep(a);
      CollapseStep(a + b);
      Regroup(Collapse(a + b), if "\n\n\n" <= a then [] else [a[0]], Collapse(a[1..] + b),
              Collapse(a[1..]), Collapse(a), Collapse(b));
    }
  }

  lemma {:induction false} CollapseEmpty()
    ensures Collapse("") == ""
  {}

  lemma {:induction false} CollapseStep(t: string)
    requires t != []
    ensures Collapse(t) == (if "\n\n\n" <= t then [] else [t[0]]) + Collapse(t[1..])
  {}
}
