/**
 Where repeated forced rewrites of ~/.codex/config.toml settle, and that the purge is
 idempotent.
 */
module CodexConverges {
  import opened Prelude
  import opened TextScan
  import opened Codex
  import opened CodexScans
  import opened CodexRewrite

  // ---------------------------------------------------------------------
  // Whose server it is, read off while scanning
  // ---------------------------------------------------------------------

  predicate OursHere(u: string) { "Managed by tj" <= u || CommandHere(u) }

  predicate OursAnywhere(s: string) { OursHere(s) || (s != [] && OursAnywhere(s[1..])) }

  /** The marks of ownership before the end of the section. */
  predicate OursAhead(u: string) {
    u != [] && !("\n[" <= u) && (OursHere(u) || OursAhead(u[1..]))
  }

  /** OwnsServer as one scan. */
  predicate Owns(t: string) {
    if TJ_SERVER <= t then OursAhead(t) else t != [] && Owns(t[1..])
  }

  lemma {:induction false} OursIsAnywhere(s: string)
    ensures IsOurs(s) <==> OursAnywhere(s)
  {
    if s != [] {
      OursIsAnywhere(s[1..]);
    }
  }

  /** What may follow a section: nothing, or white space up to the end or an opening bracket. */
  predicate Stop(r: string) {
    Fence(r) && (TrimLeft(r) == "" || TrimLeft(r)[0] == '[')
  }

  lemma {:induction false} TrimLeftJoin(a: string, r: string)
    ensures TrimLeft(a) == "" ==> TrimLeft(a + r) == TrimLeft(r)
    ensures TrimLeft(a) != "" ==> TrimLeft(a + r) == TrimLeft(a) + r
  {
    if a == [] {
      assert a + r == r;
    } else {
      assert (a + r)[1..] == a[1..] + r;
      if IsSpace(a[0]) {
        TrimLeftJoin(a[1..], r);
      }
    }
  }

  /** A word without newline and bracket cannot reach past the end of its section. */
  lemma {:induction false} WordBound(g: string, a: string, r: string)
    requires Fence(r) && forall k :: 0 <= k < |g| ==> g[k] != '[' && g[k] != '\n'
    ensures g <= a + r <==> g <= a
  {
    if |a| < |g| && r != [] {
      assert (a + r)[|a|] == r[0];
      assert g[|a|] != r[0];
    }
  }

  lemma {:induction false} OursWords()
    ensures forall k :: 0 <= k < |"Managed by tj"| ==> "Managed by tj"[k] != '[' && "Managed by tj"[k] != '\n'
    ensures forall k :: 0 <= k < |"command"| ==> "command"[k] != '[' && "command"[k] != '\n'
    ensures forall k :: 0 <= k < |"\"tj\""| ==> "\"tj\""[k] != '[' && "\"tj\""[k] != '\n'
  {}

  lemma {:induction false} QuotedAfter(a: string, r: string)
    requires Stop(r)
    ensures "\"tj\"" <= TrimLeft(a + r) <==> "\"tj\"" <= TrimLeft(a)
  {
    OursWords();
    TrimLeftJoin(a, r);
    if TrimLeft(a) != "" {
      WordBound("\"tj\"", TrimLeft(a), r);
    }
  }

  lemma {:induction false} CommandBound(s: string, r: string)
    requires Stop(r)
    ensures CommandHere(s + r) <==> CommandHere(s)
  {
    OursWords();
    WordBound("command", s, r);
    if "command" <= s {
      var a := s[7..];
      assert (s + r)[7..] == a + r;
      TrimLeftJoin(a, r);
      if TrimLeft(a) != "" {
        var u := TrimLeft(a);
        assert (u + r)[1..] == u[1..] + r;
        QuotedAfter(u[1..], r);
      }
    }
  }

  lemma {:induction false} OursBound(s: string, r: string)
    requires Stop(r)
    ensures OursHere(s + r) <==> OursHere(s)
  {
    OursWords();
    WordBound("Managed by tj", s, r);
    CommandBound(s, r);
  }

  lemma {:induction false} SectionStops(u: string)
    ensures Stop(SectionEnd(u)) && u == SectionOf(u) + SectionEnd(u)
  {
    SectionEndShape(u);
    var r := SectionEnd(u);
    if r != "" {
      assert r[1] == "\n["[1];
      assert TrimLeft(r) == TrimLeft(r[1..]);
    }
  }

  lemma {:induction false} OursInSection(u: string)
    ensures OursAnywhere(SectionOf(u)) <==> OursAhead(u)
  {
    hide OursHere;
    SectionStops(u);
    OursBound(SectionOf(u), SectionEnd(u));
    NothingIsOurs();
    if u == [] || "\n[" <= u {
      assert SectionOf(u) == "";
    } else {
      OursInSection(u[1..]);
      assert SectionOf(u)[1..] == SectionOf(u[1..]);
    }
  }

  lemma {:induction false} NothingIsOurs()
    ensures !OursHere("") && !OursAnywhere("")
  {}

  lemma {:induction false} SectionWithHeader(t: string)
    requires TJ_SERVER <= t
    ensures SectionOf(t) == TJ_SERVER + SectionOf(t[|TJ_SERVER|..])
  {
    hide SectionEnd;
    ServerHeaders();
    SkipHeader(TJ_SERVER, t);
    SectionEndShape(t);
    SectionEndShape(t[|TJ_SERVER|..]);
  }

  lemma {:induction false} SkipHeader(h: string, t: string)
    requires h <= t && OneLine(h)
    ensures SectionEnd(t) == SectionEnd(t[|h|..])
  {
    if h != [] {
      assert t[0] == h[0] != '\n';
      assert "\n["[0] == '\n';
      SkipHeader(h[1..], t[1..]);
      assert t[1..][|h| - 1..] == t[|h|..];
    }
  }

  /** OwnsServer is the scan. */
  lemma {:induction false} OwnsMeans(t: string)
    ensures OwnsServer(t) <==> Owns(t)
  {
    hide OursHere, IsOurs, OursAnywhere, OursAhead;
    if TJ_SERVER <= t {
      SectionWithHeader(t);
      OursInSection(t);
      OursIsAnywhere(SectionOf(t));
    } else if t != [] {
      OwnsMeans(t[1..]);
      if Find(TJ_SERVER, t[1..]).Some? {
        var i := Find(TJ_SERVER, t[1..]).value;
        assert t[1..][i + |TJ_SERVER|..] == t[i + 1 + |TJ_SERVER|..];
      }
    }
  }

  // ---------------------------------------------------------------------
  // Ownership does not depend on blank lines or on what follows
  // ---------------------------------------------------------------------

  lemma {:induction false} CollapseTrimLeft(v: string)
    ensures TrimLeft(Collapse(v)) == Collapse(TrimLeft(v))
  {
    if v != [] {
      CollapseTrimLeft(v[1..]);
      if "\n\n\n" <= v {
        assert v[0] == "\n\n\n"[0];
      } else {
        assert Collapse(v)[1..] == Collapse(v[1..]);
      }
    }
  }

  lemma {:induction false} CommandCollapsed(t: string)
    ensures CommandHere(Collapse(t)) <==> CommandHere(t)
  {
    hide Collapse, TrimLeft;
    CollapsePrefix("command", t);
    if "command" <= t {
      var u := TrimLeft(t[7..]);
      CollapseTrimLeft(t[7..]);
      CollapsePrefix("=", u);
      FirstIs(Collapse(u), '=');
      FirstIs(u, '=');
      if "=" <= u {
        CollapseTrimLeft(u[1..]);
        CollapsePrefix("\"tj\"", TrimLeft(u[1..]));
      }
    }
  }

  lemma {:induction false} FirstIs(u: string, c: char)
    ensures u != "" && u[0] == c <==> [c] <= u
  {}

  lemma {:induction false} OursCollapsed(t: string)
    ensures OursHere(Collapse(t)) <==> OursHere(t)
  {
    hide Collapse;
    CollapsePrefix("Managed by tj", t);
    CommandCollapsed(t);
  }

  lemma {:induction false} SectionEndCollapsed(t: string)
    requires t != [] && !("\n\n\n" <= t)
    ensures "\n[" <= Collapse(t) <==> "\n[" <= t
  {
    CollapseStep(t);
    CollapsePrefix("[", t[1..]);
    assert "\n[" <= t <==> t[0] == '\n' && "[" <= t[1..] by {
      assert "\n[" == "\n" + "[";
    }
    var c := Collapse(t);
    assert c[1..] == Collapse(t[1..]) && c[0] == t[0];
    assert "\n[" <= c <==> c[0] == '\n' && "[" <= c[1..];
  }

  lemma {:induction false} AheadCollapsed(t: string)
    ensures OursAhead(Collapse(t)) <==> OursAhead(t)
  {
    hide OursHere;
    if t != [] {
      AheadCollapsed(t[1..]);
      OursCollapsed(t);
      CollapseStep(t);
      if "\n\n\n" <= t {
        NewlineNotOurs(t);
      } else {
        SectionEndCollapsed(t);
        assert Collapse(t)[1..] == Collapse(t[1..]);
      }
    }
  }

  lemma {:induction false} NewlineNotOurs(t: string)
    requires "\n\n\n" <= t
    ensures !OursHere(t) && !("\n[" <= t)
  {
    assert t[0] == "\n\n\n"[0] && t[1] == "\n\n\n"[1];
  }

  lemma {:induction false} OwnsCollapsed(t: string)
    ensures Owns(Collapse(t)) <==> Owns(t)
  {
    hide OursAhead, Header;
    ServerHeaders();
    AllOneLine();
    CollapsePrefix(TJ_SERVER, t);
    AheadCollapsed(t);
    if t != [] {
      OwnsCollapsed(t[1..]);
      CollapseStep(t);
      if "\n\n\n" <= t {
        assert t[0] == "\n\n\n"[0] && TJ_SERVER[0] == '[';
      } else {
        assert Collapse(t)[1..] == Collapse(t[1..]);
      }
    }
  }

  /** Whole lines keep their owner whatever bracketed text without a server of ours comes after them. */
  lemma {:induction false} OwnsBehind(z: string, b: string)
    requires Complete(z) && !Occurs(TJ_SERVER, b) && b != "" && b[0] == '['
    ensures Owns(z + b) <==> Owns(z)
  {
    hide OursAhead, Header;
    if z == [] {
      assert z + b == b;
      OwnsNeedsServer(b);
      OwnsNeedsServer("");
    } else {
      ServerHeaders();
      HeaderBound(TJ_SERVER, z, b);
      assert (z + b)[1..] == z[1..] + b;
      AheadBehind(z, b);
      OwnsBehind(z[1..], b);
    }
  }

  lemma {:induction false} OwnsNeedsServer(t: string)
    requires !Occurs(TJ_SERVER, t)
    ensures !Owns(t)
  {
    hide OursAhead;
    if t != [] {
      OwnsNeedsServer(t[1..]);
    }
  }

  lemma {:induction false} AheadBehind(u: string, b: string)
    requires Complete(u) && u != "" && b != "" && b[0] == '['
    ensures OursAhead(u + b) <==> OursAhead(u)
  {
    hide OursHere;
    assert Stop(b);
    var t := u + b;
    assert t[1..] == u[1..] + b;
    OursBound(u, b);
    NothingIsOurs();
    if |u| == 1 {
      assert u == "\n" && t[1] == '[';
      assert "\n[" <= t by { assert t[..2] == "\n["; }
      BlankNotOurs();
    } else {
      AheadBehind(u[1..], b);
      assert "\n[" <= t <==> "\n[" <= u;
    }
  }

  lemma {:induction false} BlankNotOurs()
    ensures !OursAhead("\n")
  {
    assert "\n"[1..] == "";
  }

  // ---------------------------------------------------------------------
  // Counting servers
  // ---------------------------------------------------------------------

  lemma {:induction false} CountFence(h: string, a: string, b: string)
    requires Header(h) && Fence(b)
    ensures Count(h, a + b) == Count(h, a) + Count(h, b)
  {
    if a == [] {
      assert a + b == b;
    } else {
      HeaderBound(h, a, b);
      assert (a + b)[1..] == a[1..] + b;
      CountFence(h, a[1..], b);
    }
  }

  lemma {:induction false} CountSuffixLess(g: string, t: string, k: nat)
    requires k <= |t|
    ensures Count(g, t[k..]) <= Count(g, t)
    ensures k > 0 && g <= t ==> Count(g, t[k..]) < Count(g, t)
  {
    if k > 0 {
      assert t[1..][k - 1..] == t[k..];
      CountSuffixLess(g, t[1..], k - 1);
    }
  }

  lemma {:induction false} CountAfterCut(h: string, g: string, t: string)
    requires Header(h) && Header(g)
    ensures Count(g, Cut(h, t)) <= Count(g, t)
    decreases |t|
  {
    hide Cut, SectionEnd;
    if t == [] {
      CutNothing(h, t) by { OccursNeedsHead(h, t); }
    } else if h <= t {
      SectionEndShape(t[|h|..]);
      var r := SectionEnd(t[|h|..]);
      assert r == t[|t| - |r|..];
      CountSuffixLess(g, t, |t| - |r|);
      CountAfterCut(h, g, r);
      CutHead(h, t);
    } else {
      CountAfterCut(h, g, t[1..]);
      CutChar(h, t);
      assert Cut(h, t)[1..] == Cut(h, t[1..]);
      if g <= Cut(h, t) {
        CutPrefixBack(h, g, t);
      }
    }
  }

  lemma {:induction false} CountAfterCutAll(hs: seq<string>, g: string, t: string)
    requires Headers(hs) && Header(g)
    ensures Count(g, CutAll(hs, t)) <= Count(g, t)
  {
    if hs != [] {
      CountAfterCut(hs[0], g, t);
      CountAfterCutAll(hs[1..], g, Cut(hs[0], t));
    }
  }

  lemma {:induction false} CountCollapsed(g: string, t: string)
    requires Header(g)
    ensures Count(g, Collapse(t)) == Count(g, t)
  {
    CollapsePrefix(g, t);
    if t != [] {
      CountCollapsed(g, t[1..]);
      CollapseStep(t);
      if "\n\n\n" <= t {
        assert t[0] == "\n\n\n"[0] && g[0] == '[';
      } else {
        assert Collapse(t)[1..] == Collapse(t[1..]);
      }
    }
  }

  lemma {:induction false} CountPrefix(g: string, t: string, n: nat)
    requires n <= |t| && g != []
    ensures Count(g, t[..n]) <= Count(g, t)
  {
    if n > 0 {
      assert t[..n][1..] == t[1..][..n - 1];
      CountPrefix(g, t[1..], n - 1);
      assert g <= t[..n] ==> g <= t;
    }
  }

  lemma {:induction false} CountTrimmed(g: string, t: string)
    requires g != []
    ensures Count(g, Trim(t)) <= Count(g, t)
    ensures Count(g, TrimLeft(t)) <= Count(g, t)
  {
    TrimLeftShape(t);
    var u := TrimLeft(t);
    TrimRightShape(u);
    CountSuffixLess(g, t, |t| - |u|);
    CountPrefix(g, u, |Trim(t)|);
    assert u[..|Trim(t)|] == Trim(t);
  }

  lemma {:induction false} CountTidied(g: string, t: string)
    requires Header(g)
    ensures Count(g, Tidied(t)) <= Count(g, t)
  {
    CountTrimmed(g, t);
    CountFence(g, Trim(t), "\n");
    OccursNeedsHead(g, "\n");
    CountZero(g, "\n");
    CountZero(g, "");
    OccursNeedsHead(g, "");
  }

  /** Purging and stripping never add a table. */
  lemma {:induction false} CountKept(g: string, content: string)
    requires Header(g)
    ensures Count(g, StripOtelTables(Purge(content))) <= Count(g, content)
  {
    hide Count, Cut, CutAll, Collapse, Header, Tidied, Trim, HasLegacyOtel;
    ServerHeaders();
    OrdersAreHeaders();
    AllOneLine();
    CountAfterCut(OCW_SERVER, g, content);
    var c := Cut(OCW_SERVER, content);
    CountAfterCutAll(PURGE_ORDER, g, c);
    var x := if HasLegacyOtel(c) then CutAll(PURGE_ORDER, c) else c;
    CountCollapsed(g, x);
    CountTidied(g, Collapse(x));
    var p := Purge(content);
    CountAfterCutAll(STRIP_ORDER, g, p);
    CountTrimmed(g, CutAll(STRIP_ORDER, p));
  }

  // ---------------------------------------------------------------------
  // Retiring the server
  // ---------------------------------------------------------------------

  lemma {:induction false} FindIsFirst(h: string, t: string)
    requires h != []
    ensures Find(h, t) == None <==> !Occurs(h, t)
  {
    if t != [] {
      FindIsFirst(h, t[1..]);
    }
  }

  lemma {:induction false} FindBehind(h: string, z: string, b: string)
    requires Header(h) && Fence(b) && !Occurs(h, b)
    ensures Find(h, z + b) == Find(h, z)
  {
    if z == [] {
      assert z + b == b;
      FindIsFirst(h, b);
      FindIsFirst(h, "");
      OccursNeedsHead(h, "");
    } else {
      HeaderBound(h, z, b);
      assert (z + b)[1..] == z[1..] + b;
      FindBehind(h, z[1..], b);
    }
  }

  lemma {:induction false} SectionEndBehind(u: string, b: string)
    requires u != "" && Complete(u) && b != "" && b[0] == '['
    ensures var r := SectionEnd(u + b);
            && |b| < |r| <= |u| + |b|
            && r[0] == '\n'
            && r == u[|u| + |b| - |r|..] + b
  {
    var t := u + b;
    if |u| == 1 {
      assert t[..2] == "\n[";
      assert u[0..] == u;
    } else if "\n[" <= t {
      assert t[0] == "\n["[0];
      assert u[0..] == u;
    } else {
      assert t[1..] == u[1..] + b;
      SectionEndBehind(u[1..], b);
      var r := SectionEnd(t);
      assert u[1..][|u| - 1 + |b| - |r|..] == u[|u| + |b| - |r|..];
    }
  }

  /** The kept text without the first server section. */
  function WithoutServer(z: string, b: string): string
    requires Find(TJ_SERVER, z).Some?
  {
    var i := Find(TJ_SERVER, z).value;
    var u := z[i + |TJ_SERVER|..];
    var r := SectionEnd(u + b);
    z[..i] + u[if |r| <= |u| + |b| && |b| <= |r| then |u| + |b| - |r| else 0..]
  }

  /** Retiring a server works on the text in front of the block and leaves the block as it is. */
  lemma {:induction false} RetireBehind(z: string, block: string, b1: seq<string>, b2: seq<string>, b3: seq<string>)
    requires IsBlock(block, b1, b2, b3) && Complete(z) && OwnsServer(z + block)
    ensures Find(TJ_SERVER, z).Some?
    ensures RetireServer(z + block) == TrimLeft(Collapse(WithoutServer(z, block))) + block
  {
    hide Occurs, Collapse, Header, Unlines, IsOurs, SectionEnd, Find, Tidied, Trim, TrimLeft, TrimRight, Tables,
         WithoutServer;
    ServerHeaders();
    AllOneLine();
    Distinct();
    HeaderInBlock(TJ_SERVER, block, b1, b2, b3);
    FindBehind(TJ_SERVER, z, block);
    TakesOutSection(z, block);
    TidyBehind(WithoutServer(z, block), block);
  }

  lemma {:induction false} TakesOutSection(z: string, block: string)
    requires Complete(z) && block != "" && block[0] == '[' && Find(TJ_SERVER, z).Some?
    ensures var i := Find(TJ_SERVER, z).value;
            (z + block)[..i] + SectionEnd((z + block)[i + |TJ_SERVER|..]) == WithoutServer(z, block) + block
  {
    hide Header, SectionEnd, Find;
    ServerHeaders();
    var h := |TJ_SERVER|;
    var i := Find(TJ_SERVER, z).value;
    var u := z[i + h..];
    HeaderNotLast(TJ_SERVER, z, i);
    assert (z + block)[i + h..] == u + block && (z + block)[..i] == z[..i];
    SectionEndBehind(u, block);
    var k := |u| + |block| - |SectionEnd(u + block)|;
    assert z[..i] + (u[k..] + block) == WithoutServer(z, block) + block;
  }

  /** A header cannot be the last thing in whole lines. */
  lemma {:induction false} HeaderNotLast(h: string, z: string, i: nat)
    requires Header(h) && Complete(z) && i + |h| <= |z| && h <= z[i..]
    ensures i + |h| < |z|
  {
    assert z[i..][|h| - 1] == z[i + |h| - 1] == ']';
  }

  lemma {:induction false} FenceSuffix(z: string, block: string)
    requires Complete(z) && block != "" && block[0] == '[' && Find(TJ_SERVER, z).Some?
    ensures var i := Find(TJ_SERVER, z).value;
            exists j :: i + |TJ_SERVER| <= j < |z| && z[j] == '\n' && WithoutServer(z, block) == z[..i] + z[j..]
  {
    hide Header, Find, SectionEnd;
    ServerHeaders();
    var i := Find(TJ_SERVER, z).value;
    var u := z[i + |TJ_SERVER|..];
    HeaderNotLast(TJ_SERVER, z, i);
    SectionEndBehind(u, block);
    var k := |u| + |block| - |SectionEnd(u + block)|;
    var j := i + |TJ_SERVER| + k;
    assert u[k..] == z[j..];
    assert SectionEnd(u + block)[0] == z[j];
  }

  /** Taking the first server out adds no header. */
  lemma {:induction false} WithoutServerClear(z: string, block: string, g: string)
    requires Complete(z) && block != "" && block[0] == '[' && Find(TJ_SERVER, z).Some? && Header(g)
    ensures !Occurs(g, z) ==> !Occurs(g, WithoutServer(z, block))
  {
    hide Header, Find, WithoutServer, Occurs, Count;
    FenceSuffix(z, block);
    var i := Find(TJ_SERVER, z).value;
    var j :| i + |TJ_SERVER| <= j < |z| && z[j] == '\n' && WithoutServer(z, block) == z[..i] + z[j..];
    if !Occurs(g, z) {
      AllOneLine();
      FreeOfPrefix(g, z, i);
      if Occurs(g, z[j..]) {
        OccursSuffix(g, z, j);
      }
      HeaderSplit(g, z[..i], z[j..]);
    }
  }

  /** Taking the only server out leaves none. */
  lemma {:induction false} OnlyServerGone(z: string, block: string)
    requires Complete(z) && block != "" && block[0] == '[' && Find(TJ_SERVER, z).Some?
    requires Count(TJ_SERVER, z) <= 1
    ensures !Occurs(TJ_SERVER, WithoutServer(z, block))
  {
    hide Header, Find, WithoutServer, Occurs, Count;
    FenceSuffix(z, block);
    ServerHeaders();
    var i := Find(TJ_SERVER, z).value;
    var j :| i + |TJ_SERVER| <= j < |z| && z[j] == '\n' && WithoutServer(z, block) == z[..i] + z[j..];
    OneOccurrence(TJ_SERVER, z, i, j);
    HeaderSplit(TJ_SERVER, z[..i], z[j..]);
  }

  lemma {:induction false} OneOccurrence(h: string, z: string, i: nat, j: nat)
    requires Header(h) && i + |h| <= j <= |z| && h <= z[i..] && Count(h, z) <= 1
    ensures !Occurs(h, z[..i]) && !Occurs(h, z[j..])
  {
    hide Occurs, Count, Header;
    AllOneLine();
    FenceHere(h, z, i);
    assert z == z[..i] + z[i..];
    CountFence(h, z[..i], z[i..]);
    assert z[i..][j - i..] == z[j..];
    CountSuffixLess(h, z[i..], j - i);
    CountZero(h, z[..i]);
    CountZero(h, z[j..]);
  }

  lemma {:induction false} FenceHere(h: string, z: string, i: nat)
    requires Header(h) && i <= |z| && h <= z[i..]
    ensures Fence(z[i..])
  {}

  // ---------------------------------------------------------------------
  // Where the file settles
  // ---------------------------------------------------------------------

  /** The kept text and the blank line between it and the block. */
  function Spaced(w: string): string {
    if w == "" then "" else w + "\n\n"
  }

  /** The text in front of the block after a first rewrite. */
  function FirstFront(block: string, content: string): string {
    var z := Spaced(StripOtelTables(Purge(content)));
    if OwnsServer(z + block) && Find(TJ_SERVER, z).Some?
    then TrimLeft(Collapse(WithoutServer(z, block)))
    else z
  }

  /** The text that is kept from the second rewrite on. */
  function Settled(block: string, content: string): string {
    Trim(Collapse(FirstFront(block, content)))
  }

  lemma {:induction false} SpacedFacts(w: string, block: string)
    ensures Canon(block, w) == Spaced(w) + block && Complete(Spaced(w))
    ensures ManagedClear(w) ==> ManagedClear(Spaced(w))
    ensures !Occurs(TJ_SERVER, w) ==> !Occurs(TJ_SERVER, Spaced(w))
    ensures Count(TJ_SERVER, Spaced(w)) <= Count(TJ_SERVER, w)
  {
    hide Occurs, Header, Count;
    ServerHeaders();
    OrdersAreHeaders();
    if w != "" {
      assert w + "\n\n" == w + "\n" + "\n";
      BlankLineClear(TJ_SERVER, w);
      BlankLineClear(OCW_SERVER, w);
      forall i | 0 <= i < |STRIP_ORDER| && ManagedClear(w) ensures !Occurs(STRIP_ORDER[i], Spaced(w)) {
        BlankLineClear(STRIP_ORDER[i], w);
      }
    }
  }

  lemma {:induction false} BlankLineClear(h: string, w: string)
    requires Header(h)
    ensures Occurs(h, w + "\n\n") <==> Occurs(h, w)
    ensures Count(h, w + "\n\n") == Count(h, w)
  {
    HeaderSplit(h, w, "\n\n");
    CountFence(h, w, "\n\n");
    OccursNeedsHead(h, "\n\n");
    CountZero(h, "\n\n");
  }

  lemma {:induction false} BlockFacts(block: string)
    requires TomlBlock(block)
    ensures block != "" && block[0] == '[' && !Occurs(TJ_SERVER, block) && !Occurs(OCW_SERVER, block)
  {
    var b1, b2, b3 :| IsBlock(block, b1, b2, b3);
    Distinct();
    ServerHeaders();
    HeaderInBlock(TJ_SERVER, block, b1, b2, b3);
    HeaderInBlock(OCW_SERVER, block, b1, b2, b3);
  }

  /** After a first rewrite the file is some text clear of managed tables, and the block. */
  lemma {:induction false} FirstRewrite(block: string, parsed: bool, content: string)
    requires TomlBlock(block)
    ensures Rewrite(block, parsed, content) == FirstFront(block, content) + block
    ensures ManagedClear(FirstFront(block, content))
  {
    hide Occurs, Header, Purge, StripOtelTables, ApplyBlock, OwnsServer, WithoutServer, Collapse, TrimLeft, Find;
    var b1, b2, b3 :| IsBlock(block, b1, b2, b3);
    var y := StripOtelTables(Purge(content));
    var z := Spaced(y);
    ParseDoesNotMatter(block, parsed, content);
    SpacedFacts(y, block);
    if OwnsServer(z + block) {
      RetireBehind(z, block, b1, b2, b3);
      WithoutServerManagedClear(z, block);
      TidiedManagedClear(WithoutServer(z, block));
    }
  }

  lemma {:induction false} WithoutServerManagedClear(z: string, block: string)
    requires TomlBlock(block) && Complete(z) && Find(TJ_SERVER, z).Some? && ManagedClear(z)
    ensures ManagedClear(WithoutServer(z, block))
  {
    hide Occurs, Header, WithoutServer, Find, Count;
    BlockFacts(block);
    ServerHeaders();
    OrdersAreHeaders();
    WithoutServerClear(z, block, OCW_SERVER);
    forall i | 0 <= i < |STRIP_ORDER| ensures !Occurs(STRIP_ORDER[i], WithoutServer(z, block)) {
      WithoutServerClear(z, block, STRIP_ORDER[i]);
    }
  }

  lemma {:induction false} CollapseEndsWord(y: string)
    requires y != "" && Trimmed(y)
    ensures Trimmed(Collapse(y)) && Collapse(y) != ""
    ensures Collapse(y + "\n\n") == Collapse(y) + "\n\n"
  {
    hide Collapse;
    var a, c := y[..|y| - 1], y[|y| - 1];
    assert y == a + [c];
    CollapseSplit(a, [c]);
    CollapseSplit(a, [c] + "\n\n");
    assert y + "\n\n" == a + ([c] + "\n\n");
    WordCollapses(c);
    assert Collapse(a) + ([c] + "\n\n") == (Collapse(a) + [c]) + "\n\n";
    CollapseStep(y);
    NoTriple(y);
  }

  lemma {:induction false} WordCollapses(c: char)
    requires c != '\n'
    ensures Collapse([c]) == [c] && Collapse([c] + "\n\n") == [c] + "\n\n"
  {
    var t := [c] + "\n\n";
    assert t[1..] == "\n\n" && t[0] == c;
    assert "\n\n"[1..] == "\n" && "\n"[1..] == "";
    assert Collapse("\n") == "\n";
    assert Collapse("\n\n") == "\n\n";
    CollapseStep(t);
    NoTriple(t);
  }

  lemma {:induction false} NoTriple(t: string)
    requires t != "" && t[0] != '\n'
    ensures !("\n\n\n" <= t)
  {
    LeadingMeans(t);
  }

  /** A second rewrite finds no server to retire. */
  lemma {:induction false} NothingToRetire(b1: string, b2: string, content: string)
    requires TomlBlock(b1) && TomlBlock(b2) && Count(TJ_SERVER, content) <= 1
    ensures !OwnsServer(Canon(b2, Settled(b1, content)))
  {
    hide Occurs, Header, Purge, StripOtelTables, ApplyBlock, OwnsServer, Owns, WithoutServer, Collapse, Find, Count,
         TrimLeft;
    var y := StripOtelTables(Purge(content));
    var z := Spaced(y);
    var w := Settled(b1, content);
    ServerHeaders();
    BlockFacts(b1);
    BlockFacts(b2);
    SpacedFacts(y, b1);
    SpacedFacts(w, b2);
    CountKept(TJ_SERVER, content);
    OwnsMeans(z + b1);
    OwnsMeans(Canon(b2, w));
    OwnsBehind(Spaced(w), b2);
    if OwnsServer(z + b1) {
      var c1, c2, c3 :| IsBlock(b1, c1, c2, c3);
      RetireBehind(z, b1, c1, c2, c3);
      OnlyServerGone(z, b1);
      TidiedClear(TJ_SERVER, WithoutServer(z, b1));
      TidiedClear(TJ_SERVER, FirstFront(b1, content));
      OwnsNeedsServer(Spaced(w));
    } else {
      ParseDoesNotMatter(b1, true, content);
      OwnsBehind(z, b1);
      SameOwner(y, w);
    }
  }

  lemma {:induction false} SameOwner(y: string, w: string)
    requires Trimmed(y) && w == Trim(Collapse(Spaced(y)))
    ensures Owns(Spaced(w)) <==> Owns(Spaced(y))
  {
    hide Owns, Collapse;
    if y == "" {
      CollapseEmpty();
      BlankTrimsAway("");
    } else {
      CollapseEndsWord(y);
      NewlineBlank();
      assert Collapse(y) + "\n\n" == Collapse(y) + ("\n" + "\n");
      TrimBlankTail(Collapse(y), "\n" + "\n");
      TrimIsTrimmed(Collapse(y));
      assert Spaced(w) == Collapse(Spaced(y));
      OwnsCollapsed(Spaced(y));
    }
  }

  lemma {:induction false} SettledStays(w: string)
    requires Trimmed(w) && Collapsed(w)
    ensures Trim(Collapse(Spaced(w))) == w
  {
    hide Collapse;
    if w == "" {
      CollapseEmpty();
      BlankTrimsAway("");
    } else {
      CollapseEndsWord(w);
      CollapseNothing(w);
      NewlineBlank();
      assert w + "\n\n" == w + ("\n" + "\n");
      TrimBlankTail(w, "\n" + "\n");
      TrimIsTrimmed(w);
    }
  }

  /**
   Convergence.  For a file of any content in which the tj server is not defined twice, from the
   second forced rewrite on the file is the settled text and the latest block, whatever the earlier
   secrets were and whether or not the file parses.
   */
  lemma {:induction false} Converges(b1: string, b2: string, b3: string, p1: bool, p2: bool, p3: bool, content: string)
    requires TomlBlock(b1) && TomlBlock(b2) && TomlBlock(b3) && Count(TJ_SERVER, content) <= 1
    ensures var second := Rewrite(b2, p2, Rewrite(b1, p1, content));
            && second == Canon(b2, Settled(b1, content))
            && Rewrite(b3, p3, second) == Canon(b3, Settled(b1, content))
  {
    hide Occurs, Rewrite, Settled, RetireServer, OwnsServer, Collapse, Trim, Count, TomlBlock;
    var w := Settled(b1, content);
    FirstRewrite(b1, p1, content);
    SecondRewrite(b1, b2, p2, content);
    SpacedFacts(w, b2);
    SettledClear(b1, content);
    RewriteBehind(Spaced(w), b2, b3, p3);
    SettledStays(w);
    NotRetired(b1, b3, content);
  }

  lemma {:induction false} SettledClear(block: string, content: string)
    requires TomlBlock(block)
    ensures var w := Settled(block, content); Trimmed(w) && Collapsed(w) && ManagedClear(w)
  {
    hide Occurs, Collapse, Trim, FirstFront;
    var z := FirstFront(block, content);
    FirstRewrite(block, true, content);
    TidiedManagedClear(z);
    TrimIsTrimmed(Collapse(z));
    CollapseDone(z);
    TrimSubstring("\n\n\n", Collapse(z));
  }

  lemma {:induction false} NotRetired(b1: string, b2: string, content: string)
    requires TomlBlock(b1) && TomlBlock(b2) && Count(TJ_SERVER, content) <= 1
    ensures RetireServer(Canon(b2, Settled(b1, content))) == Canon(b2, Settled(b1, content))
  {
    hide OwnsServer, Settled, TomlBlock;
    NothingToRetire(b1, b2, content);
  }

  lemma {:induction false} SecondRewrite(b1: string, b2: string, p2: bool, content: string)
    requires TomlBlock(b1) && TomlBlock(b2) && Count(TJ_SERVER, content) <= 1
    ensures Rewrite(b2, p2, FirstFront(b1, content) + b1) == Canon(b2, Settled(b1, content))
  {
    hide Occurs, Rewrite, RetireServer, FirstFront, TomlBlock, Collapse, Trim;
    FirstRewrite(b1, true, content);
    RewriteBehind(FirstFront(b1, content), b1, b2, p2);
    NotRetired(b1, b2, content);
  }

  /** With one and the same block, the second rewrite's file is a fixed point of all later ones. */
  lemma {:induction false} FixedPoint(block: string, p1: bool, p2: bool, p3: bool, content: string)
    requires TomlBlock(block) && Count(TJ_SERVER, content) <= 1
    ensures var second := Rewrite(block, p2, Rewrite(block, p1, content)); Rewrite(block, p3, second) == second
  {
    hide Rewrite, Settled, TomlBlock;
    Converges(block, block, block, p1, p2, p3, content);
  }

  // ---------------------------------------------------------------------
  // One copy of each table
  // ---------------------------------------------------------------------

  lemma {:induction false} CountTable(h: string, body: seq<string>)
    requires Header(h) && Unbracketed(body)
    ensures Count(h, Table(h, body)) == 1
  {
    var t := Table(h, body);
    UnbracketedText(body);
    assert '[' !in t[1..] by {
      assert forall k :: 1 <= k < |t| ==> t[k] != '[';
    }
    OccursNeedsHead(h, t[1..]);
    CountZero(h, t[1..]);
    assert h <= t;
  }

  lemma {:induction false} CountBlock(h: string, block: string)
    requires TomlBlock(block) && Header(h)
    ensures Count(h, block) == if h in {OTEL, OTLP_HTTP, OTLP_HTTP_HEADERS} then 1 else 0
  {
    hide Count, Occurs, Header, Unlines;
    var b1, b2, b3 :| IsBlock(block, b1, b2, b3);
    OtelHeaders();
    HttpHeader();
    HttpHeadersHeader();
    Distinct();
    var t1, t2, t3 := Table(OTEL, b1), Table(OTLP_HTTP, b2), Table(OTLP_HTTP_HEADERS, b3);
    HeaderInTable(h, OTEL, b1);
    HeaderInTable(h, OTLP_HTTP, b2);
    HeaderInTable(h, OTLP_HTTP_HEADERS, b3);
    CountZero(h, t1);
    CountZero(h, t2);
    CountZero(h, t3);
    CountTable(OTEL, b1);
    CountTable(OTLP_HTTP, b2);
    CountTable(OTLP_HTTP_HEADERS, b3);
    CountFence(h, t2, t3);
    CountFence(h, t1, t2 + t3);
  }

  /** After any forced rewrite, the first included, every otel table of ours is there once, and no other managed one. */
  lemma {:induction false} OneCopy(block: string, parsed: bool, content: string, h: string)
    requires TomlBlock(block) && (h in STRIP_ORDER || h == OCW_SERVER)
    ensures Count(h, Rewrite(block, parsed, content))
         == if h in {OTEL, OTLP_HTTP, OTLP_HTTP_HEADERS} then 1 else 0
  {
    hide Count, Occurs, Header, Rewrite, FirstFront;
    OrdersAreHeaders();
    ServerHeaders();
    var z := FirstFront(block, content);
    FirstRewrite(block, parsed, content);
    BlockFacts(block);
    assert !Occurs(h, z) by {
      if h != OCW_SERVER {
        var i :| 0 <= i < |STRIP_ORDER| && STRIP_ORDER[i] == h;
      }
    }
    CountZero(h, z);
    CountFence(h, z, block);
    CountBlock(h, block);
  }
}
