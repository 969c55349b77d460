/**
 Scans over text.  The regular expressions that the onboarding code applies to
 configuration files are simple enough to be written as explicit scans: leftmost match
 first, shortest body first, never looking back over text already consumed.
 */
module TextScan {
  import opened Prelude

  // ---------------------------------------------------------------------
  // Occurrences
  // ---------------------------------------------------------------------

  /** `p` is found somewhere in `t` (Python's `p in t`). */
  predicate Occurs(p: string, t: string) {
    p <= t || (t != [] && Occurs(p, t[1..]))
  }

  /** The number of places where `p` is found. */
  function Count(p: string, t: string): nat {
    (if p <= t then 1 else 0) + if t == [] then 0 else Count(p, t[1..])
  }

  /** No newline anywhere. */
  predicate OneLine(s: string) { '\n' !in s }

  /** A pattern whose only newline, if it has one, is its last character. */
  ghost predicate Anchor(s: string) { s != [] && OneLine(s[..|s| - 1]) }

  /** Empty, or ended by a newline. */
  predicate Complete(a: string) { a == [] || a[|a| - 1] == '\n' }

  ghost predicate EndsWith(s: string, e: string) {
    |e| <= |s| && s[|s| - |e|..] == e
  }

  /** Each line followed by a newline. */
  function Unlines(lines: seq<string>): string {
    if lines == [] then "" else lines[0] + "\n" + Unlines(lines[1..])
  }

  lemma {:induction false} UnlinesComplete(lines: seq<string>)
    ensures Complete(Unlines(lines))
  {
    if lines != [] {
      UnlinesComplete(lines[1..]);
    }
  }

  lemma {:induction false} UnlinesJoin(a: seq<string>, b: seq<string>)
    ensures Unlines(a + b) == Unlines(a) + Unlines(b)
  {
    if a == [] {
      assert a + b == b;
    } else {
      assert (a + b)[1..] == a[1..] + b;
      UnlinesJoin(a[1..], b);
    }
  }

  lemma {:induction false} LineBound(s: string, a: string, b: string)
    requires Anchor(s) && Complete(a) && a != []
    ensures s <= a + b <==> s <= a
  {
    assert |a| < |s| ==> s[..|s| - 1][|a| - 1] == s[|a| - 1];
  }

  lemma {:induction false} OccursSplit(s: string, a: string, b: string)
    requires Anchor(s) && Complete(a)
    ensures Occurs(s, a + b) <==> Occurs(s, a) || Occurs(s, b)
  {
    if a == [] {
      assert a + b == b;
    } else {
      LineBound(s, a, b);
      assert (a + b)[1..] == a[1..] + b;
      OccursSplit(s, a[1..], b);
    }
  }

  lemma {:induction false} CountSplit(s: string, a: string, b: string)
    requires Anchor(s) && Complete(a)
    ensures Count(s, a + b) == Count(s, a) + Count(s, b)
  {
    if a == [] {
      assert a + b == b;
    } else {
      LineBound(s, a, b);
      assert (a + b)[1..] == a[1..] + b;
      CountSplit(s, a[1..], b);
    }
  }

  lemma {:induction false} CountZero(p: string, t: string)
    ensures Count(p, t) == 0 <==> !Occurs(p, t)
  {
    if t != [] {
      CountZero(p, t[1..]);
    }
  }

  lemma {:induction false} OccursSuffix(p: string, t: string, k: nat)
    requires k <= |t| && Occurs(p, t[k..])
    ensures Occurs(p, t)
  {
    if k > 0 {
      assert t[1..][k - 1..] == t[k..];
      OccursSuffix(p, t[1..], k - 1);
    }
  }

  /** A pattern can only be found where its first character is. */
  lemma {:induction false} OccursNeedsHead(p: string, t: string)
    requires p != [] && p[0] !in t
    ensures !Occurs(p, t)
  {
    if t != [] {
      assert forall c :: c in t[1..] ==> c in t;
      OccursNeedsHead(p, t[1..]);
    }
  }

  /** A pattern is not found in a shorter text. */
  lemma {:induction false} TooShort(p: string, t: string)
    requires |t| < |p|
    ensures !Occurs(p, t)
  {
    if t != [] {
      TooShort(p, t[1..]);
    }
  }

  function LowerChar(c: char): char {
    if 'A' <= c <= 'Z' then ('a' as int + (c as int - 'A' as int)) as char else c
  }

  /** Capital letters of the Latin alphabet in lower case. */
  function Lower(t: string): string {
    if t == "" then "" else [LowerChar(t[0])] + Lower(t[1..])
  }

  // ---------------------------------------------------------------------
  // Stripping at the ends
  // ---------------------------------------------------------------------

  /** The characters `str.isspace` accepts. */
  predicate IsSpace(c: char) {
    || '\t' <= c <= '\r' || '\U{1c}' <= c <= ' ' || c == '\U{85}' || c == '\U{a0}'
    || c == '\U{1680}' || '\U{2000}' <= c <= '\U{200a}' || c == '\U{2028}' || c == '\U{2029}'
    || c == '\U{202f}' || c == '\U{205f}' || c == '\U{3000}'
  }

  predicate Blank(t: string) { forall k :: 0 <= k < |t| ==> IsSpace(t[k]) }

  /** `t.rstrip("\n")`. */
  function RStripNewlines(t: string): string {
    if t != [] && t[|t| - 1] == '\n' then RStripNewlines(t[..|t| - 1]) else t
  }

  /** `t.lstrip()`. */
  function TrimLeft(t: string): string {
    if t != [] && IsSpace(t[0]) then TrimLeft(t[1..]) else t
  }

  /** `t.rstrip()`. */
  function TrimRight(t: string): string {
    if t != [] && IsSpace(t[|t| - 1]) then TrimRight(t[..|t| - 1]) else t
  }

  /** `t.strip()`. */
  function Trim(t: string): string { TrimRight(TrimLeft(t)) }

  lemma {:induction false} RStripAppend(t: string)
    ensures RStripNewlines(t + "\n") == RStripNewlines(t)
  {
    assert (t + "\n")[..|t|] == t;
  }

  lemma {:induction false} RStripShape(t: string)
    ensures var x := RStripNewlines(t); x <= t && (x == [] || x[|x| - 1] != '\n')
  {
    if t != [] && t[|t| - 1] == '\n' {
      RStripShape(t[..|t| - 1]);
    }
  }

  lemma {:induction false} RStripKeeps(x: string)
    requires x == [] || x[|x| - 1] != '\n'
    ensures RStripNewlines(x) == x
    ensures RStripNewlines(x + "\n") == x
    ensures RStripNewlines(x + "\n\n") == x
  {
    RStripAppend(x);
    RStripAppend(x + "\n");
    assert x + "\n\n" == x + "\n" + "\n";
  }

  lemma {:induction false} RStripBlank(t: string)
    ensures Blank(RStripNewlines(t)) <==> Blank(t)
  {
    if t != [] && t[|t| - 1] == '\n' {
      RStripBlank(t[..|t| - 1]);
      assert Blank(t) <==> Blank(t[..|t| - 1]);
    }
  }

  // ---------------------------------------------------------------------
  // Delimited blocks
  // ---------------------------------------------------------------------

  /** What must follow an end marker: a newline, or a newline or the end of the text. */
  datatype Terminator = Newline | NewlineOrEnd

  /** The length of an end marker together with its terminator, when the text starts with one. */
  function EndHere(e: string, term: Terminator, t: string): (r: Option<nat>)
    ensures r.Some? ==> |e| <= r.value <= |t|
  {
    if !(e <= t) then None
    else if |t| > |e| && t[|e|] == '\n' then Some(|e| + 1)
    else if term == NewlineOrEnd && |t| == |e| then Some(|e|)
    else None
  }

  /** How far the nearest end marker reaches. */
  function FindEnd(e: string, term: Terminator, t: string): (r: Option<nat>)
    ensures r.Some? ==> r.value <= |t|
  {
    if EndHere(e, term, t).Some? then EndHere(e, term, t)
    else if t == [] then None
    else match FindEnd(e, term, t[1..]) case Some(n) => Some(n + 1) case None => None
  }

  /** The length of the block that starts here: start marker, shortest body, end marker. */
  function BlockHere(s: string, e: string, term: Terminator, t: string): (r: Option<nat>)
    ensures r.Some? ==> |s| <= r.value <= |t|
  {
    if s <= t then
      match FindEnd(e, term, t[|s|..]) case Some(n) => Some(|s| + n) case None => None
    else None
  }

  /** Every block replaced by `repl`, left to right. */
  function ReplaceBlocks(s: string, e: string, term: Terminator, repl: string, t: string): string
    requires s != []
    decreases |t|
  {
    if t == [] then []
    else match BlockHere(s, e, term, t)
         case Some(n) => repl + ReplaceBlocks(s, e, term, repl, t[n..])
         case None => [t[0]] + ReplaceBlocks(s, e, term, repl, t[1..])
  }

  lemma {:induction false} EndHereSplit(e: string, term: Terminator, u: string, v: string)
    requires Complete(u) && u != [] && e != [] && OneLine(e)
    ensures EndHere(e, term, u + v) == EndHere(e, Newline, u)
  {
    LineBound(e, u, v);
    if e <= u {
      assert e != u by { assert e[|e| - 1] != '\n'; }
      assert (u + v)[|e|] == u[|e|];
    }
  }

  lemma {:induction false} FindEndSplit(e: string, term: Terminator, u: string, v: string)
    requires Complete(u) && e != [] && OneLine(e)
    ensures FindEnd(e, term, u + v) ==
            match FindEnd(e, Newline, u)
            case Some(n) => Some(n)
            case None => (match FindEnd(e, term, v) case Some(n) => Some(|u| + n) case None => None)
  {
    hide EndHere;
    if u == [] {
      assert u + v == v;
      assert EndHere(e, Newline, "") == None by { EndNotEmpty(e); }
    } else {
      assert (u + v)[1..] == u[1..] + v;
      EndHereSplit(e, term, u, v);
      FindEndSplit(e, term, u[1..], v);
    }
  }

  lemma {:induction false} EndNotEmpty(e: string)
    requires e != []
    ensures EndHere(e, Newline, "") == None
  {}

  lemma {:induction false} FindEndNone(e: string, u: string)
    requires e != [] && OneLine(e)
    ensures FindEnd(e, Newline, u) == None <==> !Occurs(e + "\n", u)
  {
    assert e + "\n" <= u <==> EndHere(e, Newline, u).Some?;
    if u != [] {
      FindEndNone(e, u[1..]);
    }
  }

  lemma {:induction false} FindEndSuffix(e: string, term: Terminator, t: string, k: nat)
    requires k <= |t| && FindEnd(e, term, t) == None
    ensures FindEnd(e, term, t[k..]) == None
  {
    if k > 0 {
      assert t[1..][k - 1..] == t[k..];
      FindEndSuffix(e, term, t[1..], k - 1);
    }
  }

  /** Without an end marker no block can close, and the text stays as it is. */
  lemma {:induction false} NoEndNoChange(s: string, e: string, term: Terminator, repl: string, t: string)
    requires s != [] && FindEnd(e, term, t) == None
    ensures ReplaceBlocks(s, e, term, repl, t) == t
  {
    if t != [] {
      if s <= t {
        FindEndSuffix(e, term, t, |s|);
      }
      FindEndSuffix(e, term, t, 1);
      NoEndNoChange(s, e, term, repl, t[1..]);
    }
  }

  /** Whole lines without a start marker are copied. */
  lemma {:induction false} CopyLines(s: string, e: string, term: Terminator, repl: string, a: string, b: string)
    requires Anchor(s) && Complete(a) && !Occurs(s, a)
    ensures ReplaceBlocks(s, e, term, repl, a + b) == a + ReplaceBlocks(s, e, term, repl, b)
  {
    hide ReplaceBlocks, FindEnd;
    if a == [] {
      assert a + b == b;
    } else {
      LineBound(s, a, b);
      assert (a + b)[1..] == a[1..] + b && (a + b)[0] == a[0];
      StepChar(s, e, term, repl, a + b);
      CopyLines(s, e, term, repl, a[1..], b);
    }
  }

  lemma {:induction false} CopyAll(s: string, e: string, term: Terminator, repl: string, t: string)
    requires s != [] && !Occurs(s, t)
    ensures ReplaceBlocks(s, e, term, repl, t) == t
  {
    if t != [] {
      CopyAll(s, e, term, repl, t[1..]);
    }
  }

  /** Text of a block: the start marker, whole lines none of which ends with the end marker, the end marker. */
  ghost predicate IsBody(e: string, body: string) {
    Complete(body) && !Occurs(e + "\n", body)
  }

  function Block(s: string, body: string, e: string): string {
    s + body + e + "\n"
  }

  lemma {:induction false} BlockFound(s: string, e: string, term: Terminator, body: string, rest: string)
    requires e != [] && OneLine(e) && IsBody(e, body)
    ensures BlockHere(s, e, term, Block(s, body, e) + rest) == Some(|Block(s, body, e)|)
  {
    var t := Block(s, body, e) + rest;
    assert t[|s|..] == body + (e + "\n" + rest);
    FindEndNone(e, body);
    FindEndSplit(e, term, body, e + "\n" + rest);
    assert (e + "\n" + rest)[|e|] == '\n';
  }

  lemma {:induction false} ReplaceOne(s: string, e: string, term: Terminator, repl: string, body: string, rest: string)
    requires s != [] && e != [] && OneLine(e) && IsBody(e, body)
    ensures ReplaceBlocks(s, e, term, repl, Block(s, body, e) + rest)
         == repl + ReplaceBlocks(s, e, term, repl, rest)
  {
    BlockFound(s, e, term, body, rest);
    assert (Block(s, body, e) + rest)[|Block(s, body, e)|..] == rest;
  }

  lemma {:induction false} BlockHereSplit(s: string, e: string, term: Terminator, a: string, b: string)
    requires Anchor(s) && e != [] && OneLine(e)
    requires Complete(a) && a != [] && FindEnd(e, term, b) == None
    ensures BlockHere(s, e, term, a + b) == BlockHere(s, e, Newline, a)
  {
    LineBound(s, a, b);
    if s <= a {
      assert (a + b)[|s|..] == a[|s|..] + b;
      FindEndSplit(e, term, a[|s|..], b);
    }
  }

  lemma {:induction false} StepBlock(s: string, e: string, term: Terminator, repl: string, t: string, n: nat)
    requires s != [] && t != [] && BlockHere(s, e, term, t) == Some(n)
    ensures ReplaceBlocks(s, e, term, repl, t) == repl + ReplaceBlocks(s, e, term, repl, t[n..])
  {}

  lemma {:induction false} StepChar(s: string, e: string, term: Terminator, repl: string, t: string)
    requires s != [] && t != [] && BlockHere(s, e, term, t) == None
    ensures ReplaceBlocks(s, e, term, repl, t) == [t[0]] + ReplaceBlocks(s, e, term, repl, t[1..])
  {}

  lemma {:induction false} Regroup(x: string, head: string, y: string, z: string, w: string, b: string)
    requires x == head + y && y == z + b && w == head + z
    ensures x == w + b
  {}

  /** Text after whole lines, with neither marker in it, takes no part in the replacement. */
  lemma {:induction false} ReplaceSplit(s: string, e: string, term: Terminator, repl: string, a: string, b: string)
    requires Anchor(s) && e != [] && OneLine(e)
    requires Complete(a) && !Occurs(s, b) && FindEnd(e, term, b) == None
    ensures ReplaceBlocks(s, e, term, repl, a + b) == ReplaceBlocks(s, e, Newline, repl, a) + b
    decreases |a|
  {
    if a == [] {
      assert a + b == b;
      CopyAll(s, e, term, repl, b);
    } else {
      BlockHereSplit(s, e, term, a, b);
      match BlockHere(s, e, Newline, a) {
        case Some(n) =>
          assert (a + b)[n..] == a[n..] + b;
          StepBlock(s, e, term, repl, a + b, n);
          StepBlock(s, e, Newline, repl, a, n);
          ReplaceSplit(s, e, term, repl, a[n..], b);
          Regroup(ReplaceBlocks(s, e, term, repl, a + b), repl, ReplaceBlocks(s, e, term, repl, a[n..] + b),
                  ReplaceBlocks(s, e, Newline, repl, a[n..]), ReplaceBlocks(s, e, Newline, repl, a), b);
        case None =>
          assert (a + b)[1..] == a[1..] + b && (a + b)[0] == a[0];
          StepChar(s, e, term, repl, a + b);
          StepChar(s, e, Newline, repl, a);
          ReplaceSplit(s, e, term, repl, a[1..], b);
          Regroup(ReplaceBlocks(s, e, term, repl, a + b), [a[0]], ReplaceBlocks(s, e, term, repl, a[1..] + b),
                  ReplaceBlocks(s, e, Newline, repl, a[1..]), ReplaceBlocks(s, e, Newline, repl, a), b);
      }
    }
  }

  lemma {:induction false} FindEndNeedsMarker(e: string, term: Terminator, t: string)
    requires !Occurs(e, t)
    ensures FindEnd(e, term, t) == None
  {
    if t != [] {
      FindEndNeedsMarker(e, term, t[1..]);
    }
  }

  lemma {:induction false} FindEndClosesLine(e: string, t: string)
    ensures var r := FindEnd(e, Newline, t); r.Some? ==> r.value > 0 && t[r.value - 1] == '\n'
  {
    if t != [] {
      FindEndClosesLine(e, t[1..]);
    }
  }

  lemma {:induction false} BlockClosesLine(s: string, e: string, t: string)
    ensures var r := BlockHere(s, e, Newline, t); r.Some? ==> r.value > 0 && t[r.value - 1] == '\n'
  {
    if s <= t {
      FindEndClosesLine(e, t[|s|..]);
    }
  }

  /** In whole lines it makes no difference whether the end of the text may close a block. */
  lemma {:induction false} FindEndComplete(e: string, t: string)
    requires Complete(t) && e != [] && OneLine(e)
    ensures FindEnd(e, NewlineOrEnd, t) == FindEnd(e, Newline, t)
  {
    FindEndSplit(e, NewlineOrEnd, t, "");
    assert t + "" == t;
  }

  /** A pattern found only where its first character can be. */
  lemma {:induction false} OccursOnlyAtHead(p: string, t: string)
    requires p != [] && t != [] && p[0] !in t[1..]
    ensures Occurs(p, t) <==> p <= t
  {
    OccursNeedsHead(p, t[1..]);
  }

  /** One block between whole lines and a text, neither holding a start marker. */
  lemma {:induction false} ReplaceBetween(s: string, e: string, term: Terminator, repl: string,
                                          a: string, block: string, body: string, b: string)
    requires Anchor(s) && e != [] && OneLine(e) && IsBody(e, body) && block == Block(s, body, e)
    requires Complete(a) && !Occurs(s, a) && !Occurs(s, b)
    ensures ReplaceBlocks(s, e, term, repl, a + block + b) == a + repl + b
  {
    hide ReplaceBlocks, Occurs;
    assert a + block + b == a + (block + b);
    CopyLines(s, e, term, repl, a, block + b);
    ReplaceOne(s, e, term, repl, body, b);
    CopyAll(s, e, term, repl, b);
    assert a + (repl + b) == a + repl + b;
  }

  /** A start marker in whole lines before a block at the very end opens a block that closes, at the latest, with it. */
  lemma {:induction false} StartCloses(s: string, e: string, a: string, block: string)
    requires Anchor(s) && e != [] && OneLine(e) && Complete(a) && a != []
    requires FindEnd(e, NewlineOrEnd, block) == Some(|block|)
    ensures var r := BlockHere(s, e, NewlineOrEnd, a + block);
            && (r.Some? <==> s <= a)
            && (r.Some? ==> |s| <= r.value && (r.value <= |a| || r.value == |a + block|))
  {
    hide FindEnd;
    LineBound(s, a, block);
    if s <= a {
      assert (a + block)[|s|..] == a[|s|..] + block;
      FindEndSplit(e, NewlineOrEnd, a[|s|..], block);
    }
  }

  /** A block at the very end is swallowed whole, together with everything from any start marker before it. */
  lemma {:induction false} TailSwallowed(s: string, e: string, a: string, block: string, body: string)
    requires Anchor(s) && e != [] && OneLine(e) && Complete(a)
    requires IsBody(e, body) && block == Block(s, body, e)
    requires FindEnd(e, NewlineOrEnd, block) == Some(|block|)
    ensures var r := ReplaceBlocks(s, e, NewlineOrEnd, "", a + block);
            |r| <= |a| && (Occurs(s, a) ==> |r| <= |a| - |s|)
    decreases |a|
  {
    hide ReplaceBlocks, FindEnd, BlockHere;
    var t := a + block;
    CopyAll(s, e, NewlineOrEnd, "", "");
    if a == [] {
      assert t == block + "";
      ReplaceOne(s, e, NewlineOrEnd, "", body, "");
    } else {
      StartCloses(s, e, a, block);
      match BlockHere(s, e, NewlineOrEnd, t) {
        case Some(n) =>
          StepBlock(s, e, NewlineOrEnd, "", t, n);
          if n <= |a| {
            assert t[n..] == a[n..] + block;
            TailSwallowed(s, e, a[n..], block, body);
          } else {
            assert t[n..] == "";
          }
        case None =>
          StepChar(s, e, NewlineOrEnd, "", t);
          assert t[1..] == a[1..] + block;
          TailSwallowed(s, e, a[1..], block, body);
      }
    }
  }

  // ---------------------------------------------------------------------
  // Comment lines as markers
  // ---------------------------------------------------------------------

  /** A comment line: '#' first, and no other '#' nor a newline after it. */
  ghost predicate HashLine(m: string) {
    m != [] && m[0] == '#' && forall k :: 1 <= k < |m| ==> m[k] != '#' && m[k] != '\n'
  }

  lemma {:induction false} HashLineAnchors(m: string)
    requires HashLine(m)
    ensures OneLine(m) && Anchor(m) && Anchor(m + "\n")
  {
    assert (m + "\n")[..|m|] == m;
  }

  /** One comment line is found in another only as a prefix of it. */
  lemma {:induction false} HashInHash(p: string, m: string)
    requires HashLine(p) && HashLine(m)
    ensures Occurs(p, m + "\n") <==> p <= m
    ensures Occurs(p + "\n", m + "\n") <==> p == m
  {
    var t := m + "\n";
    assert forall k :: 1 <= k < |t| ==> t[k] != '#';
    OccursOnlyAtHead(p, t);
    OccursOnlyAtHead(p + "\n", t);
    assert p <= t ==> |p| <= |m| by {
      assert |m| < |p| ==> p[|m|] != '\n';
    }
    assert |p| < |m| ==> t[|p|] == m[|p|];
    if p + "\n" <= t {
      assert t[|p|] == '\n';
      assert p == t[..|p|] && m == t[..|m|];
    }
  }

  /** A comment line is found in a block of comment-free lines only inside its markers. */
  lemma {:induction false} HashInBlock(p: string, s: string, body: string, e: string)
    requires HashLine(p) && HashLine(s) && HashLine(e)
    requires Complete(body) && !Occurs(p, body)
    ensures Occurs(p, Block(s + "\n", body, e)) <==> p <= s || p <= e
  {
    HashLineAnchors(p);
    HashInHash(p, s);
    HashInHash(p, e);
    OccursSplit(p, s + "\n", body + (e + "\n"));
    OccursSplit(p, body, e + "\n");
    assert Block(s + "\n", body, e) == s + "\n" + (body + (e + "\n"));
  }

  lemma {:induction false} HashLineInBlock(p: string, s: string, body: string, e: string)
    requires HashLine(p) && HashLine(s) && HashLine(e)
    requires Complete(body) && !Occurs(p + "\n", body)
    ensures Occurs(p + "\n", Block(s + "\n", body, e)) <==> p == s || p == e
  {
    HashLineAnchors(p);
    HashInHash(p, s);
    HashInHash(p, e);
    OccursSplit(p + "\n", s + "\n", body + (e + "\n"));
    OccursSplit(p + "\n", body, e + "\n");
    assert Block(s + "\n", body, e) == s + "\n" + (body + (e + "\n"));
  }

  /** A block holds its own start marker once. */
  lemma {:induction false} CountInBlock(p: string, s: string, body: string, e: string)
    requires HashLine(s) && HashLine(e)
    requires p == s || p == s + "\n"
    requires Complete(body) && !Occurs(p, body) && !(s <= e)
    ensures Count(p, Block(s + "\n", body, e)) == 1
  {
    var first := s + "\n";
    HashLineAnchors(s);
    HashInHash(s, e);
    CountSplit(p, first, body + (e + "\n"));
    CountSplit(p, body, e + "\n");
    assert Block(first, body, e) == first + (body + (e + "\n"));
    CountZero(p, body);
    OccursNeedsHead(p, first[1..]);
    CountZero(p, first[1..]);
    CountZero(p, e + "\n");
    if p == s + "\n" {
      assert p <= e + "\n" ==> s <= e + "\n";
    }
  }

  lemma {:induction false} FreeOfPrefix(m: string, t: string, n: nat)
    requires n <= |t| && !Occurs(m, t)
    ensures !Occurs(m, t[..n])
  {
    if n > 0 {
      assert t[..n][1..] == t[1..][..n - 1];
      FreeOfPrefix(m, t[1..], n - 1);
      assert m <= t[..n] ==> m <= t;
    } else {
      assert m <= t[..n] ==> m <= t;
    }
  }

  /** A one-line pattern cannot reach into text that starts with a newline. */
  lemma {:induction false} OccursInFront(p: string, x: string, y: string)
    requires p != [] && OneLine(p) && y != [] && y[0] == '\n' && p[0] !in y
    ensures Occurs(p, x + y) <==> Occurs(p, x)
  {
    if x == [] {
      assert x + y == y;
      OccursNeedsHead(p, y);
    } else {
      assert (x + y)[1..] == x[1..] + y;
      assert (x + y)[|x|] == '\n';
      OccursInFront(p, x[1..], y);
    }
  }

  /** A character that is not in the pattern does not complete it. */
  lemma {:induction false} OtherCharacter(p: string, x: string, c: char)
    requires p != "" && c !in p && !Occurs(p, x)
    ensures !Occurs(p, x + [c])
  {
    assert |p| == |x + [c]| ==> p != x + [c] by { assert (x + [c])[|x|] == c; }
    if x == "" {
      assert x + [c] == [c] && [c][1..] == "";
    } else {
      assert (x + [c])[1..] == x[1..] + [c];
      assert p <= x + [c] ==> |p| <= |x|;
      OtherCharacter(p, x[1..], c);
    }
  }

  // ---------------------------------------------------------------------
  // What stripping white space keeps
  // ---------------------------------------------------------------------

  lemma {:induction false} TrimLeftShape(t: string)
    ensures var u := TrimLeft(t);
            |u| <= |t| && u == t[|t| - |u|..] && (u == "" || !IsSpace(u[0]))
  {
    if t != [] && IsSpace(t[0]) {
      TrimLeftShape(t[1..]);
    }
  }

  lemma {:induction false} TrimRightShape(t: string)
    ensures var u := TrimRight(t);
            u <= t && (u == "" || (!IsSpace(u[|u| - 1]) && u[0] == t[0]))
  {
    if t != [] && IsSpace(t[|t| - 1]) {
      TrimRightShape(t[..|t| - 1]);
    }
  }

  /** Neither end is white space. */
  predicate Trimmed(t: string) {
    t == "" || (!IsSpace(t[0]) && !IsSpace(t[|t| - 1]))
  }

  lemma {:induction false} TrimIsTrimmed(t: string)
    ensures Trimmed(Trim(t))
    ensures Trimmed(t) ==> Trim(t) == t && TrimRight(t) == t && TrimLeft(t) == t
  {
    TrimLeftShape(t);
    TrimRightShape(TrimLeft(t));
  }

  lemma {:induction false} TrimSubstring(p: string, t: string)
    requires !Occurs(p, t)
    ensures !Occurs(p, Trim(t))
  {
    TrimLeftShape(t);
    TrimRightShape(TrimLeft(t));
    var u := TrimLeft(t);
    if Occurs(p, u) {
      OccursSuffix(p, t, |t| - |u|);
    }
    FreeOfPrefix(p, u, |Trim(t)|);
    assert u[..|Trim(t)|] == Trim(t);
  }

  lemma {:induction false} TrimRightBlank(t: string, w: string)
    requires Blank(w)
    ensures TrimRight(t + w) == TrimRight(t)
  {
    if w == [] {
      assert t + w == t;
    } else {
      assert (t + w)[..|t + w| - 1] == t + w[..|w| - 1];
      TrimRightBlank(t, w[..|w| - 1]);
    }
  }

  /** White space after the text does not survive. */
  lemma {:induction false} TrimBlankTail(t: string, w: string)
    requires Blank(w)
    ensures Trim(t + w) == Trim(t)
  {
    if t == [] {
      assert t + w == w;
      BlankTrimsAway(w);
    } else if IsSpace(t[0]) {
      assert (t + w)[1..] == t[1..] + w;
      TrimBlankTail(t[1..], w);
    } else {
      TrimRightBlank(t, w);
    }
  }

  lemma {:induction false} BlankTrimsAway(w: string)
    requires Blank(w)
    ensures Trim(w) == "" && TrimLeft(w) == ""
  {
    if w != [] {
      BlankTrimsAway(w[1..]);
    }
  }

  /** White space, and what comes behind it. */
  lemma {:induction false} TrimLeftSplits(t: string)
    ensures exists w :: Blank(w) && t == w + TrimLeft(t)
  {
    if t != "" && IsSpace(t[0]) {
      TrimLeftSplits(t[1..]);
      var w :| Blank(w) && t[1..] == w + TrimLeft(t[1..]);
      assert t == ([t[0]] + w) + TrimLeft(t);
      assert Blank([t[0]] + w);
    } else {
      assert t == "" + TrimLeft(t) && Blank("");
    }
  }

  /** Stripping in front of text that starts with no white space. */
  lemma {:induction false} TrimLeftSplit(a: string, b: string)
    requires b != [] && !IsSpace(b[0])
    ensures TrimLeft(a + b) == TrimLeft(a) + b
  {
    if a == [] {
      assert a + b == b;
    } else {
      assert (a + b)[1..] == a[1..] + b;
      if IsSpace(a[0]) {
        TrimLeftSplit(a[1..], b);
      }
    }
  }
}
