/**
 How far back tj analyzes, and the retention that has to back it
 (tokenjam/core/analysis_span.py, and its settling in tokenjam/cli/cmd_onboard.py).
 */
module AnalysisSpan {
  import opened Prelude
  import opened TextScan
  import Otlp

  /** The storage section of the config. */
  datatype Storage = Storage(span: Option<string>, retention: Option<int>)

  /** What a span text says; Unreadable where parsing it raises. */
  datatype Reach = Days(n: int) | Everything | Unreadable

  /** Python's `int` on a text, None where it raises. */
  type IntReader = string -> Option<int>

  /** Plain decimal numerals are read as what they say. */
  ghost predicate ReadsDecimals(int_: IntReader) {
    forall n: int :: int_(Otlp.IntToString(n)) == Some(n)
  }

  const DEFAULT := "90d"
  const CHOICES := ["30d", "90d", "all"]

  /** `parse_analysis_span`. */
  function Parse(int_: IntReader, raw: string): Reach {
    var text := Lower(Trim(raw));
    if text in {"all", "all-available", "unbounded"} then Everything
    else
      var digits := if text != "" && text[|text| - 1] == 'd' then text[..|text| - 1] else text;
      match int_(digits)
      case Some(n) => if n > 0 then Days(n) else Unreadable
      case None => Unreadable
  }

  /** `analysis_span_days`. */
  function SpanDays(int_: IntReader, st: Storage): Reach {
    match (st.span, st.retention)
    case (Some(raw), _) => Parse(int_, raw)
    case (None, Some(kept)) => Days(kept)
    case (None, None) => Parse(int_, DEFAULT)
  }

  // ---------------------------------------------------------------------
  // Settling the span
  // ---------------------------------------------------------------------

  predicate Given(o: Option<string>) { o.Some? && o.value != "" }

  /** The question is asked. */
  predicate Asks(st: Storage, flag: Option<string>, reconfigure: bool, interactive: bool) {
    !Given(flag) && interactive && (if st.span.None? then st.retention.None? || reconfigure else reconfigure)
  }

  /** The span that is stored. */
  function Choice(st: Storage, flag: Option<string>, reconfigure: bool, interactive: bool, answer: string): string {
    if Given(flag) then flag.value
    else if Asks(st, flag, reconfigure, interactive) then answer
    else if st.span.Some? then st.span.value
    else if st.retention.Some? && !reconfigure then Otlp.IntToString(st.retention.value) + "d"
    else DEFAULT
  }

  /** Retention is raised to the span, and given up for an unbounded one. */
  function Backed(int_: IntReader, st: Storage): Storage {
    match SpanDays(int_, st)
    case Days(n) => if st.retention.Some? && st.retention.value < n then st.(retention := Some(n)) else st
    case Everything => st.(retention := None)
    case Unreadable => st
  }

  function Settled(int_: IntReader, st: Storage, flag: Option<string>, reconfigure: bool, interactive: bool,
                   answer: string): Storage
  {
    Backed(int_, st.(span := Some(Choice(st, flag, reconfigure, interactive, answer))))
  }

  class StorageConfig {
    var span: Option<string>
    var retention: Option<int>

    function View(): Storage
      reads this
    {
      Storage(span, retention)
    }

    /** `_apply_analysis_span`; not `ok` where it raises. */
    method ApplyAnalysisSpan(int_: IntReader, flag: Option<string>, reconfigure: bool, interactive: bool,
                             answer: string)
      returns (asked: bool, ok: bool)
      modifies this
      ensures ok ==> View() == Settled(int_, old(View()), flag, reconfigure, interactive, answer)
      ensures ok <==> !Parse(int_, Choice(old(View()), flag, reconfigure, interactive, answer)).Unreadable?
      ensures !ok ==> View() == if Given(flag) then old(View())
                               else
                                 old(View()).(span := Some(Choice(old(View()), flag, reconfigure, interactive, answer)))
      ensures asked == Asks(old(View()), flag, reconfigure, interactive)
    {
      asked := false;
      if flag.Some? && flag.value != "" {
        if Parse(int_, flag.value).Unreadable? {
          return asked, false;
        }
        span := flag;
      } else if span.None? {
        if retention.Some? && !reconfigure {
          span := Some(Otlp.IntToString(retention.value) + "d");
        } else if interactive {
          asked := true;
          span := Some(answer);
        } else {
          span := Some(DEFAULT);
        }
      } else if reconfigure && interactive {
        asked := true;
        span := Some(answer);
      }
      var days := Parse(int_, span.value);
      if days.Unreadable? {
        return asked, false;
      }
      if retention.Some? && (days.Everything? || retention.value < days.n) {
        retention := if days.Everything? then None else Some(days.n);
      }
      return asked, true;
    }
  }

  // ---------------------------------------------------------------------
  // What a settled span promises
  // ---------------------------------------------------------------------

  /** Nothing inside the span may be deleted. */
  predicate NeverShorter(int_: IntReader, st: Storage) {
    match SpanDays(int_, st)
    case Days(n) => st.retention.None? || st.retention.value >= n
    case Everything => st.retention.None?
    case Unreadable => false
  }

  /**
   Once settled: retention covers the span, it was only ever moved up, and settling again, by a later
   leg without a flag, asks nothing and changes nothing.
   */
  lemma {:induction false} SpanIsBacked(int_: IntReader, st: Storage, flag: Option<string>, reconfigure: bool,
                                        interactive: bool, answer: string, later: bool, laterAnswer: string)
    requires !Parse(int_, Choice(st, flag, reconfigure, interactive, answer)).Unreadable?
    ensures var r := Settled(int_, st, flag, reconfigure, interactive, answer);
            && r.span.Some? && NeverShorter(int_, r)
            && (r.retention.Some? ==> st.retention.Some? && r.retention.value >= st.retention.value)
            && (r.retention.None? && st.retention.Some? ==> SpanDays(int_, r) == Everything)
            && !Asks(r, None, false, later)
            && Settled(int_, r, None, false, later, laterAnswer) == r
  {
    hide Parse;
  }

  lemma {:induction false} NoWord(t: string)
    requires t != "" && (t[0] == '-' || Otlp.IsDigit(t[0]))
    ensures t !in {"all", "all-available", "unbounded"} && !IsSpace(t[0])
  {}

  /** A decimal number of days is read as that number. */
  lemma {:induction false} DaysText(int_: IntReader, n: int)
    requires ReadsDecimals(int_)
    ensures Parse(int_, Otlp.IntToString(n) + "d") == if n > 0 then Days(n) else Unreadable
  {
    hide Otlp.IntToString, Trim, IsSpace, Lower;
    var s := Otlp.IntToString(n);
    var t := s + "d";
    IntTextPlain(n);
    NoWord(t);
    LetterIsNoSpace();
    TrimIsTrimmed(t);
    LowerPlain(t);
    assert t[..|t| - 1] == s;
  }

  lemma {:induction false} LetterIsNoSpace()
    ensures !IsSpace('d')
  {}

  lemma {:induction false} IntTextPlain(n: int)
    ensures var s := Otlp.IntToString(n);
            && s != "" && (s[0] == '-' || Otlp.IsDigit(s[0]))
            && forall k :: 0 <= k < |s| ==> s[k] == '-' || Otlp.IsDigit(s[k])
  {
    Otlp.NatRoundTrip(if n < 0 then -n else n);
  }

  lemma {:induction false} LowerPlain(t: string)
    requires forall k :: 0 <= k < |t| ==> !('A' <= t[k] <= 'Z')
    ensures Lower(t) == t
  {
    if t != "" {
      LowerPlain(t[1..]);
    }
  }

  /** A config that only says how long to keep keeps as long, and analyzes exactly that. */
  lemma {:induction false} OldRetentionIsTheSpan(int_: IntReader, st: Storage, interactive: bool, answer: string)
    requires ReadsDecimals(int_) && st.span.None? && st.retention.Some? && st.retention.value > 0
    ensures var r := Settled(int_, st, None, false, interactive, answer);
            SpanDays(int_, r) == SpanDays(int_, st) == Days(st.retention.value) && r.retention == st.retention
  {
    hide Parse;
    DaysText(int_, st.retention.value);
  }

  /**
   Onboarding raises exactly when the flag, or without one the stored span, cannot be read, or when
   there is no span yet and the retention to adopt is no positive number of days.
   */
  lemma {:induction false} RaisesExactly(int_: IntReader, st: Storage, flag: Option<string>, interactive: bool,
                                         answer: string)
    requires ReadsDecimals(int_) && answer in CHOICES
    ensures Parse(int_, Choice(st, flag, false, interactive, answer)).Unreadable?
       <==> if Given(flag) then Parse(int_, flag.value).Unreadable?
            else if st.span.Some? then Parse(int_, st.span.value).Unreadable?
            else st.retention.Some? && st.retention.value <= 0
  {
    hide Parse;
    ChoicesAreReadable(int_);
    if st.retention.Some? {
      DaysText(int_, st.retention.value);
    }
  }

  lemma {:induction false} ChoicesAreReadable(int_: IntReader)
    requires ReadsDecimals(int_)
    ensures Parse(int_, "30d") == Days(30) && Parse(int_, "90d") == Days(90) && Parse(int_, "all") == Everything
  {
    hide Parse;
    DecimalTexts();
    DaysText(int_, 30);
    DaysText(int_, 90);
    AllIsEverything(int_);
  }

  lemma {:induction false} DecimalTexts()
    ensures Otlp.IntToString(30) + "d" == "30d" && Otlp.IntToString(90) + "d" == "90d"
  {
    assert Otlp.IntToString(30) == "30" by { assert Otlp.NatToString(3) == "3" && "3" + "0" == "30"; }
    assert Otlp.IntToString(90) == "90" by { assert Otlp.NatToString(9) == "9" && "9" + "0" == "90"; }
  }

  lemma {:induction false} AllIsEverything(int_: IntReader)
    ensures Parse(int_, "all") == Everything
  {
    TrimIsTrimmed("all");
    LowerPlain("all");
  }

  // ---------------------------------------------------------------------
  // Which span it is
  // ---------------------------------------------------------------------

  /**
   The span that is stored: a flag that is not empty, else the answer where the run is interactive and
   either nothing is stored yet or the question is asked anew, else the stored span, else, unless it is
   asked anew, the retention in days, else ninety days.  The question is asked exactly where the answer is
   used.
   */
  lemma {:induction false} SpanChosen(int_: IntReader, st: Storage, flag: Option<string>, reconfigure: bool,
                                      interactive: bool, answer: string)
    ensures var span := Settled(int_, st, flag, reconfigure, interactive, answer).span;
            var asked := Asks(st, flag, reconfigure, interactive);
            && (flag.Some? && flag.value != "" ==> span == flag && !asked)
            && (flag == None || flag == Some("") ==>
                  && (reconfigure && interactive ==> span == Some(answer) && asked)
                  && (!(reconfigure && interactive) && st.span.Some? ==> span == st.span && !asked)
                  && (st.span.None? && st.retention.Some? && !reconfigure ==>
                        span == Some(Otlp.IntToString(st.retention.value) + "d") && !asked)
                  && (st.span.None? && st.retention.None? && !reconfigure ==>
                        span == Some(if interactive then answer else "90d") && asked == interactive)
                  && (st.span.None? && reconfigure && !interactive ==> span == Some("90d") && !asked))
  {
    hide Parse, Otlp.IntToString;
  }

  /** What is kept: as long as before and never less than the span; for an unbounded span everything. */
  lemma {:induction false} RetentionChosen(int_: IntReader, st: Storage, flag: Option<string>, reconfigure: bool,
                                           interactive: bool, answer: string)
    ensures var r := Settled(int_, st, flag, reconfigure, interactive, answer);
            match Parse(int_, r.span.value)
            case Days(n) =>
              (st.retention.None? <==> r.retention.None?)
              && (st.retention.Some? ==>
                    r.retention.value == if st.retention.value < n then n else st.retention.value)
            case Everything => r.retention.None?
            case Unreadable => r.retention == st.retention
  {
    hide Parse;
  }

  /** The words for everything, in any case and with any white space around them. */
  lemma {:induction false} WordsForEverything(int_: IntReader, raw: string)
    requires Lower(Trim(raw)) in {"all", "all-available", "unbounded"}
    ensures Parse(int_, raw) == Everything
  {}
}
