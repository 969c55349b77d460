/**
 The replacement argument of Python's `re.sub`, for a pattern without groups: a template in which a
 backslash may be an escape.  Onboarding passes the wrapper block there as it is.
 */
module ReTemplate {
  import opened Prelude
  import opened TextScan

  /** A character to insert, or the text that matched. */
  datatype Token = Chr(c: char) | WholeMatch

  predicate IsLetter(c: char) { 'a' <= c <= 'z' || 'A' <= c <= 'Z' }

  predicate IsDecimal(c: char) { '0' <= c <= '9' }

  predicate IsOctal(c: char) { '0' <= c <= '7' }

  function OctalValue(c: char): nat
    requires IsOctal(c)
  {
    c as int - '0' as int
  }

  /** A backslash in front of it is an escape, or an error. */
  predicate Special(c: char) { IsLetter(c) || IsDecimal(c) || c == '\\' }

  function ControlOf(c: char): Option<char> {
    match c
    case 'a' => Some('\U{7}')
    case 'b' => Some('\U{8}')
    case 'f' => Some('\U{c}')
    case 'n' => Some('\n')
    case 'r' => Some('\r')
    case 't' => Some('\t')
    case 'v' => Some('\U{b}')
    case _ => None
  }

  /** The length of a run of zeros. */
  function Zeros(t: string): (n: nat)
    ensures n <= |t|
  {
    if t != "" && t[0] == '0' then 1 + Zeros(t[1..]) else 0
  }

  /** What the escape at the start of `t` stands for and how long it is; None where Python raises. */
  function Escape(t: string): (r: Option<(Token, nat)>)
    requires |t| >= 2 && t[0] == '\\' && Special(t[1])
    ensures r.Some? ==> 2 <= r.value.1 <= |t|
  {
    var c := t[1];
    if c == '\\' then Some((Chr('\\'), 2))
    else if c == 'g' then
      var n := if |t| > 2 && t[2] == '<' then Zeros(t[3..]) else 0;
      if n > 0 && |t| > 3 + n && t[3 + n] == '>' then Some((WholeMatch, 4 + n)) else None
    else if IsLetter(c) then
      match ControlOf(c) case Some(d) => Some((Chr(d), 2)) case None => None
    else if c == '0' then
      if |t| > 2 && IsOctal(t[2]) then
        if |t| > 3 && IsOctal(t[3]) then Some((Chr((8 * OctalValue(t[2]) + OctalValue(t[3])) as char), 4))
        else Some((Chr(OctalValue(t[2]) as char), 3))
      else Some((Chr('\0'), 2))
    else if |t| > 3 && IsOctal(c) && IsOctal(t[2]) && IsOctal(t[3]) then
      var v := 64 * OctalValue(c) + 8 * OctalValue(t[2]) + OctalValue(t[3]);
      if v <= 0xff then Some((Chr(v as char), 4)) else None
    else None
  }

  /** The template as tokens; None where Python raises. */
  function Parse(t: string): Option<seq<Token>>
    decreases |t|
  {
    if t == "" then Some([])
    else if t[0] != '\\' then Before([Chr(t[0])], Parse(t[1..]))
    else if |t| == 1 then None
    else if !Special(t[1]) then Before([Chr('\\'), Chr(t[1])], Parse(t[2..]))
    else
      match Escape(t)
      case None => None
      case Some((token, n)) => Before([token], Parse(t[n..]))
  }

  function Before(front: seq<Token>, rest: Option<seq<Token>>): Option<seq<Token>> {
    match rest case Some(ts) => Some(front + ts) case None => None
  }

  function Literally(t: string): seq<Token> {
    seq(|t|, i requires 0 <= i < |t| => Chr(t[i]))
  }

  /** No backslash inside the text is an escape. */
  predicate NoEscape(t: string) {
    forall k :: 0 <= k < |t| - 1 && t[k] == '\\' ==> !Special(t[k + 1])
  }

  predicate EndsInBackslash(t: string) { t != "" && t[|t| - 1] == '\\' }

  lemma {:induction false} ParseShrinks(t: string)
    ensures Parse(t).Some? ==> |Parse(t).value| <= |t|
    decreases |t|
  {
    hide Escape, Special;
    if t != "" {
      if t[0] != '\\' {
        ParseShrinks(t[1..]);
      } else if |t| > 1 {
        if !Special(t[1]) {
          ParseShrinks(t[2..]);
        } else if Escape(t).Some? {
          ParseShrinks(t[Escape(t).value.1..]);
        }
      }
    }
  }

  /** A template stands for its own text exactly when no backslash in it is an escape and none is at its end. */
  lemma {:induction false} StandsForItself(t: string)
    ensures Parse(t) == Some(Literally(t)) <==> NoEscape(t) && !EndsInBackslash(t)
    decreases |t|
  {
    hide Escape, Special;
    if t == "" {
      assert Literally(t) == [];
    } else if t[0] != '\\' {
      StandsForItself(t[1..]);
      assert Literally(t) == [Chr(t[0])] + Literally(t[1..]);
      assert NoEscape(t) <==> NoEscape(t[1..]) by { EscapeLater(t, 1); }
      SameTail(Parse(t[1..]), Literally(t[1..]), [Chr(t[0])]);
    } else if |t| > 1 {
      if !Special(t[1]) {
        StandsForItself(t[2..]);
        assert Literally(t) == [Chr('\\'), Chr(t[1])] + Literally(t[2..]);
        assert Special('\\') by { BackslashIsSpecial(); }
        assert NoEscape(t) <==> NoEscape(t[2..]) by { EscapeLater(t, 2); }
        SameTail(Parse(t[2..]), Literally(t[2..]), [Chr('\\'), Chr(t[1])]);
      } else if Escape(t).Some? {
        ParseShrinks(t[Escape(t).value.1..]);
      }
    }
  }

  lemma {:induction false} BackslashIsSpecial()
    ensures Special('\\')
  {}

  lemma {:induction false} SameTail(r: Option<seq<Token>>, ts: seq<Token>, front: seq<Token>)
    ensures Before(front, r) == Some(front + ts) <==> r == Some(ts)
  {
    if r.Some? && front + r.value == front + ts {
      assert (front + r.value)[|front|..] == r.value && (front + ts)[|front|..] == ts;
    }
  }

  lemma {:induction false} EscapeLater(t: string, n: nat)
    requires 0 < n <= |t|
    requires forall k :: 0 <= k < n && k < |t| - 1 && t[k] == '\\' ==> !Special(t[k + 1])
    ensures NoEscape(t) <==> NoEscape(t[n..])
  {
    hide Special;
    assert forall k :: n <= k < |t| ==> t[k] == t[n..][k - n];
    assert forall k :: 0 <= k < |t| - n ==> t[n..][k] == t[k + n];
    if NoEscape(t[n..]) {
      forall k | 0 <= k < |t| - 1 && t[k] == '\\' ensures !Special(t[k + 1]) {
        if k >= n {
          assert t[n..][k - n] == '\\' && t[n..][k - n + 1] == t[k + 1];
        }
      }
    }
  }

  /** Two texts of which no escape is made where they meet. */
  lemma {:induction false} NoEscapeJoin(a: string, b: string)
    requires !EndsInBackslash(a) || (b != "" && !Special(b[0]))
    ensures NoEscape(a + b) <==> NoEscape(a) && NoEscape(b)
  {
    hide Special;
    var t := a + b;
    assert forall k :: 0 <= k < |a| ==> t[k] == a[k];
    assert forall k :: 0 <= k < |b| ==> t[|a| + k] == b[k];
    if NoEscape(a) && NoEscape(b) {
      forall k | 0 <= k < |t| - 1 && t[k] == '\\' ensures !Special(t[k + 1]) {
        if k >= |a| {
          assert b[k - |a|] == t[k] && b[k - |a| + 1] == t[k + 1];
        }
      }
    }
  }
}
