/** Version strings and their order (npm-wrapper/bin/tj.js). */
module Versions {
  import Otlp

  // ---------------------------------------------------------------------
  // Reading a version
  // ---------------------------------------------------------------------

  /** White space as JavaScript's trim and parseInt know it. */
  predicate IsJsSpace(c: char) {
    || '\t' <= c <= '\r' || c == ' ' || c == '\U{a0}' || c == '\U{1680}' || '\U{2000}' <= c <= '\U{200a}'
    || c == '\U{2028}' || c == '\U{2029}' || c == '\U{202f}' || c == '\U{205f}' || c == '\U{3000}' || c == '\U{feff}'
  }

  function TrimStart(t: string): string {
    if t != "" && IsJsSpace(t[0]) then TrimStart(t[1..]) else t
  }

  function TrimEnd(t: string): string {
    if t != "" && IsJsSpace(t[|t| - 1]) then TrimEnd(t[..|t| - 1]) else t
  }

  function SplitDots(t: string): (r: seq<string>)
    ensures |r| > 0
  {
    if t == "" then [""]
    else if t[0] == '.' then [""] + SplitDots(t[1..])
    else var r := SplitDots(t[1..]); [[t[0]] + r[0]] + r[1..]
  }

  function DigitRun(t: string): (r: string)
    ensures Otlp.AllDigits(r)
  {
    if t != "" && Otlp.IsDigit(t[0]) then [t[0]] + DigitRun(t[1..]) else ""
  }

  /** `parseInt(n, 10) || 0`. */
  function ParseIntOrZero(n: string): int {
    var t := TrimStart(n);
    if t != "" && t[0] == '-' then 0 - Otlp.DigitsValue(DigitRun(t[1..]))
    else if t != "" && t[0] == '+' then Otlp.DigitsValue(DigitRun(t[1..]))
    else Otlp.DigitsValue(DigitRun(t))
  }

  function Numbers(pieces: seq<string>): (r: seq<int>)
    ensures |r| == |pieces|
  {
    seq(|pieces|, i requires 0 <= i < |pieces| => ParseIntOrZero(pieces[i]))
  }

  function VersionParts(v: string): seq<int> {
    Numbers(SplitDots(TrimEnd(TrimStart(v))))
  }

  // ---------------------------------------------------------------------
  // The order
  // ---------------------------------------------------------------------

  /** Component `i`, zero past the end. */
  function At(p: seq<int>, i: nat): int { if i < |p| then p[i] else 0 }

  ghost predicate SameBefore(p: seq<int>, q: seq<int>, i: nat) { forall j: nat :: j < i ==> At(p, j) == At(q, j) }

  /** Lexicographic order on sequences with zeros to the right. */
  ghost predicate Older(p: seq<int>, q: seq<int>) {
    exists i: nat :: SameBefore(p, q, i) && At(p, i) < At(q, i)
  }

  ghost predicate SameVersion(p: seq<int>, q: seq<int>) { forall i: nat :: At(p, i) == At(q, i) }

  /** `isOlder`. */
  method IsOlder(a: string, b: string) returns (older: bool)
    ensures older <==> Older(VersionParts(a), VersionParts(b))
  {
    hide VersionParts, Older;
    var pa, pb := VersionParts(a), VersionParts(b);
    var len := if |pa| > |pb| then |pa| else |pb|;
    for i := 0 to len
      invariant SameBefore(pa, pb, i)
    {
      var x, y := At(pa, i), At(pb, i);
      if x != y {
        FirstDecides(pa, pb, i);
        return x < y;
      }
    }
    assert SameVersion(pa, pb);
    Trichotomy(pa, pb);
    return false;
  }

  /** The first component that differs decides. */
  lemma {:induction false} FirstDecides(p: seq<int>, q: seq<int>, i: nat)
    requires SameBefore(p, q, i) && At(p, i) != At(q, i)
    ensures Older(p, q) <==> At(p, i) < At(q, i)
    ensures Older(q, p) <==> At(q, i) < At(p, i)
  {
    assert SameBefore(q, p, i);
    if Older(p, q) {
      var j: nat :| SameBefore(p, q, j) && At(p, j) < At(q, j);
      assert i == j;
    }
    if Older(q, p) {
      var j: nat :| SameBefore(q, p, j) && At(q, j) < At(p, j);
      assert i == j;
    }
  }

  lemma {:induction false} FirstDifference(p: seq<int>, q: seq<int>, n: nat) returns (i: nat)
    ensures i <= n && SameBefore(p, q, i) && (i < n ==> At(p, i) != At(q, i))
  {
    if n == 0 {
      i := 0;
    } else {
      i := FirstDifference(p, q, n - 1);
      if i == n - 1 && At(p, i) == At(q, i) {
        i := n;
      }
    }
  }

  /** Of two versions one is older, or they are the same up to zeros on the right, and never two of these. */
  lemma {:induction false} Trichotomy(p: seq<int>, q: seq<int>)
    ensures Older(p, q) ==> !Older(q, p) && !SameVersion(p, q)
    ensures Older(p, q) || Older(q, p) || SameVersion(p, q)
  {
    var n := |p| + |q|;
    var i := FirstDifference(p, q, n);
    if i < n {
      FirstDecides(p, q, i);
    } else {
      assert SameVersion(p, q);
    }
  }

  /** A strict weak order: irreflexive, transitive, and so is not being comparable. */
  lemma {:induction false} StrictWeakOrder(p: seq<int>, q: seq<int>, r: seq<int>)
    ensures !Older(p, p)
    ensures Older(p, q) && Older(q, r) ==> Older(p, r)
    ensures !Older(p, q) && !Older(q, p) && !Older(q, r) && !Older(r, q) ==> !Older(p, r) && !Older(r, p)
  {
    Trichotomy(p, q);
    Trichotomy(q, r);
    Trichotomy(p, r);
    if Older(p, q) && Older(q, r) {
      var i: nat :| SameBefore(p, q, i) && At(p, i) < At(q, i);
      var j: nat :| SameBefore(q, r, j) && At(q, j) < At(r, j);
      var k := if i < j then i else j;
      assert SameBefore(p, r, k) && At(p, k) < At(r, k);
    }
  }

  // ---------------------------------------------------------------------
  // Strings and numbers
  // ---------------------------------------------------------------------

  lemma {:induction false} SplitJoin(a: string, b: string)
    ensures SplitDots(a + "." + b) == SplitDots(a) + SplitDots(b)
  {
    var t := a + "." + b;
    if a == "" {
      assert t[1..] == b;
    } else {
      assert t[1..] == a[1..] + "." + b;
      SplitJoin(a[1..], b);
    }
  }

  lemma {:induction false} SplitLast(s: string, c: char)
    requires c != '.'
    ensures var r := SplitDots(s); SplitDots(s + [c]) == EndedBy(r, c)
  {
    if s == "" {
      assert s + [c] == [c] && [c][1..] == "" && "" + [c] == [c] == [c] + "";
      var r := SplitDots("");
      assert SplitDots([c]) == [[c] + r[0]] + r[1..];
    } else {
      assert (s + [c])[1..] == s[1..] + [c];
      SplitLast(s[1..], c);
      LastPiece(s[0], SplitDots(s[1..]), c);
    }
  }

  function EndedBy(r: seq<string>, c: char): seq<string>
    requires r != []
  {
    r[..|r| - 1] + [r[|r| - 1] + [c]]
  }

  lemma {:induction false} LastPiece(d: char, r: seq<string>, c: char)
    requires r != []
    ensures EndedBy([""] + r, c) == [""] + EndedBy(r, c)
    ensures var q := EndedBy(r, c); EndedBy([[d] + r[0]] + r[1..], c) == [[d] + q[0]] + q[1..]
  {
    if |r| == 1 {
      assert [d] + (r[0] + [c]) == [d] + r[0] + [c];
    }
  }

  lemma {:induction false} SpaceIsNoDigit(t: string, c: char)
    requires IsJsSpace(c)
    ensures DigitRun(t + [c]) == DigitRun(t)
  {
    if t == "" {
      assert t + [c] == [c];
    } else {
      assert (t + [c])[1..] == t[1..] + [c];
      SpaceIsNoDigit(t[1..], c);
    }
  }

  /** White space after a number does not count. */
  lemma {:induction false} SpaceAfterNumber(n: string, c: char)
    requires IsJsSpace(c)
    ensures ParseIntOrZero(n + [c]) == ParseIntOrZero(n)
  {
    if n == "" {
      assert n + [c] == [c] && TrimStart([c]) == TrimStart([c][1..]) == "";
    } else if IsJsSpace(n[0]) {
      assert (n + [c])[1..] == n[1..] + [c];
      SpaceAfterNumber(n[1..], c);
    } else {
      assert (n + [c])[1..] == n[1..] + [c];
      SpaceIsNoDigit(n, c);
      SpaceIsNoDigit(n[1..], c);
    }
  }

  lemma {:induction false} TrimEndKeepsNumbers(t: string)
    ensures Numbers(SplitDots(TrimEnd(t))) == Numbers(SplitDots(t))
  {
    hide SplitDots, ParseIntOrZero;
    if t != "" && IsJsSpace(t[|t| - 1]) {
      var s, c := t[..|t| - 1], t[|t| - 1];
      assert t == s + [c];
      SplitLast(s, c);
      var r := SplitDots(s);
      SpaceAfterNumber(r[|r| - 1], c);
      TrimEndKeepsNumbers(s);
    }
  }

  lemma {:induction false} TrimStartJoin(v: string, b: string)
    requires b != "" && !IsJsSpace(b[0])
    ensures TrimStart(v + b) == TrimStart(v) + b
  {
    if v == "" {
      assert v + b == b;
    } else {
      assert (v + b)[1..] == v[1..] + b;
      if IsJsSpace(v[0]) {
        TrimStartJoin(v[1..], b);
      }
    }
  }

  /** A trailing ".0" adds a zero component, and so changes no comparison. */
  lemma {:induction false} TrailingZero(v: string, q: seq<int>)
    ensures VersionParts(v + ".0") == VersionParts(v) + [0]
    ensures Older(VersionParts(v + ".0"), q) <==> Older(VersionParts(v), q)
    ensures Older(q, VersionParts(v + ".0")) <==> Older(q, VersionParts(v))
  {
    var x := TrimStart(v);
    TrimStartJoin(v, ".0");
    assert x + ".0" == x + "." + "0";
    SplitJoin(x, "0");
    TrimEndKeepsNumbers(x);
    ZeroPiece();
    var p := VersionParts(v);
    assert VersionParts(v + ".0") == p + [0];
    SameVersionSameOrder(p + [0], p, q);
  }

  lemma {:induction false} ZeroPiece()
    ensures Numbers(SplitDots("0")) == [0]
  {
    DigitsOnly("0");
    assert Otlp.DigitsValue("0") == 10 * Otlp.DigitsValue("0"[..0]) + 0;
  }

  lemma {:induction false} SameVersionSameOrder(p: seq<int>, s: seq<int>, q: seq<int>)
    requires SameVersion(p, s)
    ensures Older(p, q) <==> Older(s, q)
    ensures Older(q, p) <==> Older(q, s)
  {
    if Older(p, q) {
      var i: nat :| SameBefore(p, q, i) && At(p, i) < At(q, i);
      assert SameBefore(s, q, i) && At(s, i) < At(q, i);
    }
    if Older(q, p) {
      var i: nat :| SameBefore(q, p, i) && At(q, i) < At(p, i);
      assert SameBefore(q, s, i) && At(q, i) < At(s, i);
    }
    if Older(s, q) {
      var i: nat :| SameBefore(s, q, i) && At(s, i) < At(q, i);
      assert SameBefore(p, q, i) && At(p, i) < At(q, i);
    }
    if Older(q, s) {
      var i: nat :| SameBefore(q, s, i) && At(q, i) < At(s, i);
      assert SameBefore(q, p, i) && At(q, i) < At(p, i);
    }
  }

  /** Components with dots between them. */
  function Dotted(ns: seq<nat>): string
    requires ns != []
  {
    if |ns| == 1 then Otlp.NatToString(ns[0]) else Otlp.NatToString(ns[0]) + "." + Dotted(ns[1..])
  }

  lemma {:induction false} DigitsOnly(d: string)
    requires Otlp.AllDigits(d) && d != ""
    ensures DigitRun(d) == d && SplitDots(d) == [d] && ParseIntOrZero(d) == Otlp.DigitsValue(d)
  {
    if |d| > 1 {
      DigitsOnly(d[1..]);
    } else {
      assert d[1..] == "";
      assert SplitDots(d) == [[d[0]] + ""] + [""][1..];
    }
  }

  lemma {:induction false} DottedPieces(ns: seq<nat>)
    requires ns != []
    ensures Numbers(SplitDots(Dotted(ns))) == ns
    ensures Dotted(ns) != "" && Otlp.IsDigit(Dotted(ns)[0]) && Otlp.IsDigit(Dotted(ns)[|Dotted(ns)| - 1])
  {
    hide Otlp.NatToString, SplitDots, ParseIntOrZero, Otlp.DigitsValue;
    var d := Otlp.NatToString(ns[0]);
    Otlp.NatRoundTrip(ns[0]);
    DigitsOnly(d);
    if |ns| > 1 {
      DottedPieces(ns[1..]);
      SplitJoin(d, Dotted(ns[1..]));
    }
  }

  /** Reading a release number gives its components, so that on release numbers the order is theirs. */
  lemma {:induction false} ReadsDotted(ns: seq<nat>)
    requires ns != []
    ensures VersionParts(Dotted(ns)) == ns
  {
    hide Dotted;
    DottedPieces(ns);
    var t := Dotted(ns);
    assert !IsJsSpace(t[0]) && !IsJsSpace(t[|t| - 1]);
  }

  /**
   Of two releases that agree up to some component, the one with the smaller number there is the older one,
   whatever follows.
   */
  lemma {:induction false} SmallerIsOlder(front: seq<nat>, x: nat, p: seq<nat>, y: nat, q: seq<nat>)
    requires x < y
    ensures Older(VersionParts(Dotted(front + [x] + p)), VersionParts(Dotted(front + [y] + q)))
    ensures !Older(VersionParts(Dotted(front + [y] + q)), VersionParts(Dotted(front + [x] + p)))
  {
    hide VersionParts, Dotted;
    var a, b: seq<int> := front + [x] + p, front + [y] + q;
    ReadsDotted(front + [x] + p);
    ReadsDotted(front + [y] + q);
    assert SameBefore(a, b, |front|) && At(a, |front|) == x && At(b, |front|) == y;
    Trichotomy(a, b);
  }

  /** What follows the digits of a component does not count, and a component without digits is zero. */
  lemma {:induction false} DigitsInFront(n: nat, u: string)
    requires u == "" || !Otlp.IsDigit(u[0])
    ensures ParseIntOrZero(Otlp.NatToString(n) + u) == n
    ensures u == "" || (u[0] !in {'-', '+'} && !IsJsSpace(u[0])) ==> ParseIntOrZero(u) == 0
  {
    hide Otlp.NatToString;
    var d := Otlp.NatToString(n);
    Otlp.NatRoundTrip(n);
    RunEnds(d, u);
    assert (d + u)[0] == d[0];
    RunEnds("", u);
    assert "" + u == u && Otlp.DigitsValue("") == 0;
  }

  lemma {:induction false} RunEnds(d: string, u: string)
    requires Otlp.AllDigits(d) && (u == "" || !Otlp.IsDigit(u[0]))
    ensures DigitRun(d + u) == d
  {
    if d == "" {
      assert d + u == u;
    } else {
      assert (d + u)[1..] == d[1..] + u;
      RunEnds(d[1..], u);
    }
  }
}
