/**
 Which questions the combined onboarding asks (tokenjam/cli/cmd_onboard.py), from the command line and
 the config alone.
 */
module CombinationAsks {
  import opened Prelude
  import opened AnalysisSpan
  import opened Combination

  predicate Used(s: Surface, usesClaude: bool, usesCodex: bool) {
    (s == Claude && usesClaude) || (s == Codex && usesCodex)
  }

  /** The plan on the command line, "" counting as none. */
  predicate PlanGiven(call: Call) { call.plan != None && call.plan != Some("") }

  /** The plan that the config has for an agent, unless --force made the Claude leg drop it. */
  function Remembered(call: Call, c: Option<Config>, usesClaude: bool, s: Surface): Option<string> {
    if c == None || (call.force && usesClaude) then None
    else match s case Claude => c.value.anthropic case Codex => c.value.openai case Sdk => None
  }

  function PlanInTheEnd(call: Call, c: Option<Config>, usesClaude: bool, s: Surface): string {
    if PlanGiven(call) then call.plan.value
    else match Remembered(call, c, usesClaude, s) case Some(p) => p case None => call.answers(s)
  }

  /** The storage section that the first leg finds. */
  function FirstStorage(call: Call, c: Option<Config>, usesClaude: bool): Storage {
    if c == None || (call.force && usesClaude) then Storage(None, None) else c.value.storage
  }

  /** The plan is asked for where neither the command line nor the config has one. */
  predicate PlanAsked(call: Call, c: Option<Config>, usesClaude: bool, usesCodex: bool, s: Surface) {
    Used(s, usesClaude, usesCodex) && !PlanGiven(call) && Remembered(call, c, usesClaude, s) == None
  }

  /** The daily budget is asked for where usage is paid for and no budget is given. */
  predicate BudgetAsked(call: Call, c: Option<Config>, usesClaude: bool, usesCodex: bool, s: Surface) {
    && Used(s, usesClaude, usesCodex) && call.budget == None
    && PlanInTheEnd(call, c, usesClaude, s) !in {"pro", "max_5x", "max_20x", "plus", "team", "enterprise", "local"}
  }

  /** The span is asked for where nothing settles it. */
  predicate SpanAsked(call: Call, c: Option<Config>, usesClaude: bool, usesCodex: bool) {
    && (usesClaude || usesCodex) && call.interactive
    && (call.span == None || call.span == Some(""))
    && FirstStorage(call, c, usesClaude) == Storage(None, None)
  }

  /** Every question, and when it is asked. */
  predicate ToBeAsked(call: Call, c: Option<Config>, usesClaude: bool, usesCodex: bool, q: Question) {
    match q
    case Uses(_) => true
    case PlanOf(s) => PlanAsked(call, c, usesClaude, usesCodex, s)
    case CeilingOf(s) => PlanAsked(call, c, usesClaude, usesCodex, s) && call.answers(s) == "api"
    case DailyBudgetOf(s) => BudgetAsked(call, c, usesClaude, usesCodex, s)
    case AnalysisSpan => SpanAsked(call, c, usesClaude, usesCodex)
  }

  predicate In(q: Question, t: seq<Event>) { Ask(q) in t }

  lemma {:induction false} InParts(call: Call, c: Option<Config>, usesClaude: bool, usesCodex: bool, q: Question)
    ensures In(q, Trace(call, c, usesClaude, usesCodex))
       <==> q.Uses? || In(q, UpFront(Claude, usesClaude, call, c)) || In(q, UpFront(Codex, usesCodex, call, c))
            || In(q, ClaudeQuestions(call, c, usesClaude)) || In(q, CodexQuestions(call, c, usesClaude, usesCodex))
  {
    hide UpFront, ClaudeQuestions, CodexQuestions;
    var three := [Ask(Uses(Claude)), Ask(Uses(Codex)), Ask(Uses(Sdk))];
    assert three[0] in three && three[1] in three && three[2] in three;
    if q.Uses? {
      assert q == Uses(Claude) || q == Uses(Codex) || q == Uses(Sdk) by {
        assert q.surface == Claude || q.surface == Codex || q.surface == Sdk;
      }
    }
  }

  lemma {:induction false} InBilling(s: Surface, call: Call, c: Option<Config>, uses: bool, q: Question)
    ensures In(q, UpFront(s, uses, call, c))
       <==> uses && Hoisted(s, call, c)
            && (|| (q == PlanOf(s) && !Given(call.plan))
                || (q == CeilingOf(s) && !Given(call.plan) && call.answers(s) == "api")
                || (q == DailyBudgetOf(s) && call.budget == None && !FlatRate(Chosen(call.plan, call.answers(s)))))
  {}

  lemma {:induction false} InLeg(s: Surface, call: Call, c: Option<Config>, plan: Option<string>, budget: Option<real>,
                                 q: Question)
    ensures In(q, LegQuestions(s, call, c, plan, budget))
       <==> || (q == PlanOf(s) && Stored(Some(Base(s, call, c)), s) == None && !Given(plan))
            || (q == CeilingOf(s) && Stored(Some(Base(s, call, c)), s) == None && !Given(plan)
                && call.answers(s) == "api")
            || (q == DailyBudgetOf(s) && budget == None && !FlatRate(LegPlan(s, call, c, plan)))
            || (q == AnalysisSpan && Asks(Base(s, call, c).storage, call.span, false, call.interactive))
  {
    hide LegPlan, Base, FlatRate;
  }

  lemma {:induction false} FlatRates(plan: string)
    ensures FlatRate(plan) <==> plan in {"pro", "max_5x", "max_20x", "plus", "team", "enterprise", "local"}
  {}

  /** Every question is asked exactly when it is to be. */
  lemma {:induction false} AskedExactly(call: Call, c: Option<Config>, usesClaude: bool, usesCodex: bool, q: Question)
    ensures In(q, Trace(call, c, usesClaude, usesCodex)) <==> ToBeAsked(call, c, usesClaude, usesCodex, q)
  {
    hide In, LegQuestions, UpFront, StorageAfter, FlatRate;
    InParts(call, c, usesClaude, usesCodex, q);
    InBilling(Claude, call, c, usesClaude, q);
    InBilling(Codex, call, c, usesCodex, q);
    InLeg(Claude, call, c, PassedPlan(Claude, call, c), PassedBudget(Claude, call, c), q);
    var after := AfterClaude(call, c, usesClaude);
    InLeg(Codex, call, after, PassedPlan(Codex, call, c), PassedBudget(Codex, call, c), q);
    NothingIn(q);
    FlatRates(PlanInTheEnd(call, c, usesClaude, Claude));
    FlatRates(PlanInTheEnd(call, c, usesClaude, Codex));
    SpanIsThere(call, c);
  }

  lemma {:induction false} NothingIn(q: Question)
    ensures !In(q, [])
  {}

  /** A backfill is started for each agent used, for Claude where there are transcripts, and at most once. */
  lemma {:induction false} BackfilledExactly(call: Call, c: Option<Config>, usesClaude: bool, usesCodex: bool,
                                             s: Surface)
    ensures multiset(Trace(call, c, usesClaude, usesCodex))[Backfill(s)]
         == if (s == Claude && usesClaude && call.transcripts) || (s == Codex && usesCodex) then 1 else 0
  {
    hide LegQuestions, UpFront;
    NoBackfillUpFront(Claude, usesClaude, call, c, s);
    NoBackfillUpFront(Codex, usesCodex, call, c, s);
    NoBackfillInLeg(Claude, call, c, PassedPlan(Claude, call, c), PassedBudget(Claude, call, c), s);
    NoBackfillInLeg(Codex, call, AfterClaude(call, c, usesClaude), PassedPlan(Codex, call, c),
                    PassedBudget(Codex, call, c), s);
  }

  lemma {:induction false} NoBackfillUpFront(x: Surface, uses: bool, call: Call, c: Option<Config>, s: Surface)
    ensures Backfill(s) !in UpFront(x, uses, call, c)
  {}

  lemma {:induction false} NoBackfillInLeg(x: Surface, call: Call, c: Option<Config>, plan: Option<string>,
                                           budget: Option<real>, s: Surface)
    ensures Backfill(s) !in LegQuestions(x, call, c, plan, budget)
  {}

  /** Behind the Claude leg the span is settled, and the plan of the other agent is as it was, or forgotten. */
  lemma {:induction false} SpanIsThere(call: Call, c: Option<Config>)
    ensures var after := AfterClaude(call, c, true);
            after.Some? && after.value.storage.span.Some?
            && after.value.openai == (if c.Some? && !call.force then c.value.openai else None)
  {}

  // ---------------------------------------------------------------------
  // In which order
  // ---------------------------------------------------------------------

  /** What is asked about the billing of one agent. */
  function About(t: seq<Event>, s: Surface): seq<Question> {
    if t == [] then []
    else
      (match t[0]
       case Ask(PlanOf(x)) => if x == s then [PlanOf(s)] else []
       case Ask(CeilingOf(x)) => if x == s then [CeilingOf(s)] else []
       case Ask(DailyBudgetOf(x)) => if x == s then [DailyBudgetOf(s)] else []
       case _ => [])
      + About(t[1..], s)
  }

  lemma {:induction false} AboutJoin(a: seq<Event>, b: seq<Event>, s: Surface)
    ensures About(a + b, s) == About(a, s) + About(b, s)
  {
    if a == [] {
      assert a + b == b;
    } else {
      assert (a + b)[1..] == a[1..] + b;
      AboutJoin(a[1..], b, s);
    }
  }

  lemma {:induction false} AboutOne(e: Event, s: Surface)
    ensures About([e], s) == if e == Ask(PlanOf(s)) then [PlanOf(s)]
                             else if e == Ask(CeilingOf(s)) then [CeilingOf(s)]
                             else if e == Ask(DailyBudgetOf(s)) then [DailyBudgetOf(s)] else []
    ensures About([], s) == []
  {
    assert [e][1..] == [];
  }

  function PlanAndCeiling(s: Surface, asked: bool, answer: string): seq<Question> {
    (if asked then [PlanOf(s)] else []) + (if asked && answer == "api" then [CeilingOf(s)] else [])
  }

  lemma {:induction false} AboutPlan(s: Surface, x: Surface, plan: Option<string>, answer: string)
    ensures About(PlanQuestions(x, plan, answer), s) == if x == s then PlanAndCeiling(s, !Given(plan), answer) else []
  {
    hide About;
    AboutOne(Ask(PlanOf(x)), s);
    AboutOne(Ask(CeilingOf(x)), s);
    AboutJoin([Ask(PlanOf(x))], if answer == "api" then [Ask(CeilingOf(x))] else [], s);
  }

  lemma {:induction false} AboutBudget(s: Surface, x: Surface, budget: Option<real>, plan: string)
    ensures About(BudgetQuestion(x, budget, plan), s)
         == if x == s && budget == None && !FlatRate(plan) then [DailyBudgetOf(s)] else []
  {
    hide About, FlatRate;
    AboutOne(Ask(DailyBudgetOf(x)), s);
  }

  lemma {:induction false} AboutUpFront(s: Surface, x: Surface, uses: bool, call: Call, c: Option<Config>)
    ensures About(UpFront(x, uses, call, c), s)
         == if x == s && uses && Hoisted(s, call, c)
            then PlanAndCeiling(s, !Given(call.plan), call.answers(s))
                 + (if call.budget == None && !FlatRate(Chosen(call.plan, call.answers(s)))
                    then [DailyBudgetOf(s)] else [])
            else []
  {
    hide About, PlanQuestions, BudgetQuestion, PlanAndCeiling, FlatRate;
    var plan := Chosen(call.plan, call.answers(x));
    AboutPlan(s, x, call.plan, call.answers(x));
    AboutBudget(s, x, call.budget, plan);
    AboutJoin(PlanQuestions(x, call.plan, call.answers(x)), BudgetQuestion(x, call.budget, plan), s);
    AboutOne(Ask(AnalysisSpan), s);
  }

  lemma {:induction false} AboutLeg(s: Surface, x: Surface, call: Call, c: Option<Config>, plan: Option<string>,
                                    budget: Option<real>)
    ensures About(LegQuestions(x, call, c, plan, budget), s)
         == if x == s
            then PlanAndCeiling(s, Stored(Some(Base(s, call, c)), s) == None && !Given(plan), call.answers(s))
                 + (if budget == None && !FlatRate(LegPlan(s, call, c, plan)) then [DailyBudgetOf(s)] else [])
            else []
  {
    hide About, PlanQuestions, BudgetQuestion, FlatRate, LegPlan, Base;
    var base := Base(x, call, c);
    var a := if Stored(Some(base), x).None? || Given(plan) then PlanQuestions(x, plan, call.answers(x)) else [];
    var b := BudgetQuestion(x, budget, LegPlan(x, call, c, plan));
    var d := SpanQuestion(call, WithPlan(base, x, LegPlan(x, call, c, plan)));
    AboutPlan(s, x, plan, call.answers(x));
    AboutBudget(s, x, budget, LegPlan(x, call, c, plan));
    AboutJoin(a + b, d, s);
    AboutJoin(a, b, s);
    AboutOne(Ask(AnalysisSpan), s);
  }

  lemma {:induction false} AboutTrace(call: Call, c: Option<Config>, usesClaude: bool, usesCodex: bool, s: Surface)
    ensures About(Trace(call, c, usesClaude, usesCodex), s)
         == About(UpFront(Claude, usesClaude, call, c), s) + About(UpFront(Codex, usesCodex, call, c), s)
            + About(ClaudeQuestions(call, c, usesClaude), s) + About(CodexQuestions(call, c, usesClaude, usesCodex), s)
  {
    hide About, UpFront, ClaudeQuestions, CodexQuestions;
    var a := [Ask(Uses(Claude)), Ask(Uses(Codex)), Ask(Uses(Sdk))];
    var u, v := UpFront(Claude, usesClaude, call, c), UpFront(Codex, usesCodex, call, c);
    var x, y := ClaudeQuestions(call, c, usesClaude), CodexQuestions(call, c, usesClaude, usesCodex);
    var b := if usesClaude && call.transcripts then [Backfill(Claude)] else [];
    var end := if usesCodex then [Backfill(Codex)] else [];
    AboutJoin(a, u, s);
    AboutJoin(a + u, v, s);
    AboutJoin(a + u + v, x, s);
    AboutJoin(a + u + v + x, b, s);
    AboutJoin(a + u + v + x + b, y, s);
    AboutJoin(a + u + v + x + b + y, end, s);
    AboutOne(Backfill(Claude), s);
    AboutOne(Backfill(Codex), s);
    AboutSurfaces(s);
  }

  lemma {:induction false} AboutSurfaces(s: Surface)
    ensures About([Ask(Uses(Claude)), Ask(Uses(Codex)), Ask(Uses(Sdk))], s) == []
  {
    hide About;
    AboutOne(Ask(Uses(Claude)), s);
    AboutOne(Ask(Uses(Codex)), s);
    AboutOne(Ask(Uses(Sdk)), s);
    AboutJoin([Ask(Uses(Claude))], [Ask(Uses(Codex))], s);
    AboutJoin([Ask(Uses(Claude)), Ask(Uses(Codex))], [Ask(Uses(Sdk))], s);
    assert [Ask(Uses(Claude))] + [Ask(Uses(Codex))] == [Ask(Uses(Claude)), Ask(Uses(Codex))];
    assert [Ask(Uses(Claude)), Ask(Uses(Codex))] + [Ask(Uses(Sdk))]
        == [Ask(Uses(Claude)), Ask(Uses(Codex)), Ask(Uses(Sdk))];
  }

  function ToAskAbout(call: Call, c: Option<Config>, usesClaude: bool, usesCodex: bool, s: Surface): seq<Question> {
    PlanAndCeiling(s, PlanAsked(call, c, usesClaude, usesCodex, s), call.answers(s))
    + (if BudgetAsked(call, c, usesClaude, usesCodex, s) then [DailyBudgetOf(s)] else [])
  }

  /** What the leg of an agent asks behind what was asked up front; `now` is the config it finds. */
  lemma {:induction false} UpFrontAndLeg(s: Surface, call: Call, c: Option<Config>, now: Option<Config>,
                                         usesClaude: bool, usesCodex: bool)
    requires Used(s, usesClaude, usesCodex)
    requires Stored(Some(Base(s, call, now)), s) == Remembered(call, c, usesClaude, s)
    ensures About(UpFront(s, true, call, c), s)
            + About(LegQuestions(s, call, now, PassedPlan(s, call, c), PassedBudget(s, call, c)), s)
         == ToAskAbout(call, c, usesClaude, usesCodex, s)
  {
    hide About, LegQuestions, UpFront, FlatRate, Base;
    AboutUpFront(s, s, true, call, c);
    AboutLeg(s, s, call, now, PassedPlan(s, call, c), PassedBudget(s, call, c));
    FlatRates(PlanInTheEnd(call, c, usesClaude, s));
  }

  /**
   About each agent are asked its plan, the ceiling of an "api" plan and the daily budget, each where it
   is to be asked, once, and in this order.
   */
  lemma {:induction false} AskedInOrder(call: Call, c: Option<Config>, usesClaude: bool, usesCodex: bool, s: Surface)
    ensures About(Trace(call, c, usesClaude, usesCodex), s) == ToAskAbout(call, c, usesClaude, usesCodex, s)
  {
    hide About, LegQuestions, UpFront, ToAskAbout, Trace, AfterClaude, PassedPlan, PassedBudget, Base, Stored,
         Remembered;
    AboutTrace(call, c, usesClaude, usesCodex, s);
    var after := AfterClaude(call, c, usesClaude);
    NotUpFront(s, Claude, usesClaude, call, c);
    NotUpFront(s, Codex, usesCodex, call, c);
    NotInLeg(s, Claude, call, c, PassedPlan(Claude, call, c), PassedBudget(Claude, call, c));
    NotInLeg(s, Codex, call, after, PassedPlan(Codex, call, c), PassedBudget(Codex, call, c));
    AboutOne(Ask(AnalysisSpan), s);
    if Used(s, usesClaude, usesCodex) {
      FoundByLegs(call, c, usesClaude);
      UpFrontAndLeg(s, call, c, if s == Claude then c else after, usesClaude, usesCodex);
    } else {
      NothingToAsk(call, c, usesClaude, usesCodex, s);
    }
  }

  lemma {:induction false} NotUpFront(s: Surface, x: Surface, uses: bool, call: Call, c: Option<Config>)
    ensures x != s || !uses ==> About(UpFront(x, uses, call, c), s) == []
  {
    hide About, UpFront, FlatRate;
    AboutUpFront(s, x, uses, call, c);
  }

  lemma {:induction false} NotInLeg(s: Surface, x: Surface, call: Call, c: Option<Config>, plan: Option<string>,
                                    budget: Option<real>)
    ensures x != s ==> About(LegQuestions(x, call, c, plan, budget), s) == []
  {
    hide About, LegQuestions, FlatRate, LegPlan, Base;
    AboutLeg(s, x, call, c, plan, budget);
  }

  lemma {:induction false} NothingToAsk(call: Call, c: Option<Config>, usesClaude: bool, usesCodex: bool, s: Surface)
    requires !Used(s, usesClaude, usesCodex)
    ensures ToAskAbout(call, c, usesClaude, usesCodex, s) == []
    ensures About(UpFront(s, false, call, c), s) == []
  {}

  lemma {:induction false} FoundByLegs(call: Call, c: Option<Config>, usesClaude: bool)
    ensures usesClaude ==> Stored(Some(Base(Claude, call, c)), Claude) == Remembered(call, c, usesClaude, Claude)
    ensures Stored(Some(Base(Codex, call, AfterClaude(call, c, usesClaude))), Codex)
         == Remembered(call, c, usesClaude, Codex)
  {
    if usesClaude {
      SpanIsThere(call, c);
    }
  }

  // ---------------------------------------------------------------------
  // On a machine without a config
  // ---------------------------------------------------------------------

  function Asked(e: Event): seq<Question> { if e.Ask? then [e.question] else [] }

  /** The questions of a run. */
  function Questions(t: seq<Event>): seq<Question> {
    if t == [] then [] else Asked(t[0]) + Questions(t[1..])
  }

  lemma {:induction false} QuestionsJoin(a: seq<Event>, b: seq<Event>)
    ensures Questions(a + b) == Questions(a) + Questions(b)
  {
    hide Asked;
    if a == [] {
      assert a + b == b;
    } else {
      assert (a + b)[1..] == a[1..] + b;
      QuestionsJoin(a[1..], b);
    }
  }

  lemma {:induction false} OneQuestion(e: Event)
    ensures Questions([e]) == Asked(e) && Questions([]) == []
  {
    assert [e][1..] == [];
  }

  lemma {:induction false} FreshUpFront(s: Surface, uses: bool, call: Call, usesClaude: bool, usesCodex: bool)
    requires s != Sdk && uses == Used(s, usesClaude, usesCodex)
    ensures Questions(UpFront(s, uses, call, None)) == ToAskAbout(call, None, usesClaude, usesCodex, s)
  {
    hide Questions, FlatRate;
    var plan := Chosen(call.plan, call.answers(s));
    FlatRates(plan);
    OneQuestion(Ask(PlanOf(s)));
    OneQuestion(Ask(CeilingOf(s)));
    OneQuestion(Ask(DailyBudgetOf(s)));
    QuestionsJoin([Ask(PlanOf(s))], if call.answers(s) == "api" then [Ask(CeilingOf(s))] else []);
    QuestionsJoin(PlanQuestions(s, call.plan, call.answers(s)), BudgetQuestion(s, call.budget, plan));
  }

  /** A leg finds everything answered but the span. */
  lemma {:induction false} FreshLeg(s: Surface, call: Call, now: Option<Config>)
    requires Stored(Some(Base(s, call, now)), s) == None
    ensures LegQuestions(s, call, now, PassedPlan(s, call, None), PassedBudget(s, call, None))
         == if Asks(Base(s, call, now).storage, call.span, false, call.interactive) then [Ask(AnalysisSpan)] else []
  {}

  /**
   Without a config the run asks which surfaces are used, then all there is to ask about Claude, then all
   about Codex, and last, if at all, how far back to analyze.
   */
  lemma {:induction false} FreshQuestions(call: Call, usesClaude: bool, usesCodex: bool)
    ensures Questions(Trace(call, None, usesClaude, usesCodex))
         == [Uses(Claude), Uses(Codex), Uses(Sdk)]
            + ToAskAbout(call, None, usesClaude, usesCodex, Claude)
            + ToAskAbout(call, None, usesClaude, usesCodex, Codex)
            + (if SpanAsked(call, None, usesClaude, usesCodex) then [AnalysisSpan] else [])
  {
    hide Questions, UpFront, ToAskAbout, ClaudeQuestions, CodexQuestions, SpanAsked, Trace;
    FreshUpFront(Claude, usesClaude, call, usesClaude, usesCodex);
    FreshUpFront(Codex, usesCodex, call, usesClaude, usesCodex);
    QuestionsOfTrace(call, None, usesClaude, usesCodex);
    OneQuestion(Ask(AnalysisSpan));
    FreshLegs(call, usesClaude, usesCodex);
    var x, y := ClaudeQuestions(call, None, usesClaude), CodexQuestions(call, None, usesClaude, usesCodex);
    QuestionsJoin(x, y);
  }

  lemma {:induction false} QuestionsOfTrace(call: Call, c: Option<Config>, usesClaude: bool, usesCodex: bool)
    ensures Questions(Trace(call, c, usesClaude, usesCodex))
         == [Uses(Claude), Uses(Codex), Uses(Sdk)]
            + Questions(UpFront(Claude, usesClaude, call, c)) + Questions(UpFront(Codex, usesCodex, call, c))
            + (Questions(ClaudeQuestions(call, c, usesClaude))
               + Questions(CodexQuestions(call, c, usesClaude, usesCodex)))
  {
    hide Questions, UpFront, ClaudeQuestions, CodexQuestions;
    OneQuestion(Backfill(Claude));
    OneQuestion(Backfill(Codex));
    SixParts(UpFront(Claude, usesClaude, call, c), UpFront(Codex, usesCodex, call, c),
             ClaudeQuestions(call, c, usesClaude), if usesClaude && call.transcripts then [Backfill(Claude)] else [],
             CodexQuestions(call, c, usesClaude, usesCodex), if usesCodex then [Backfill(Codex)] else []);
  }

  lemma {:induction false} SixParts(u: seq<Event>, v: seq<Event>, x: seq<Event>, b: seq<Event>, y: seq<Event>,
                                    end: seq<Event>)
    ensures Questions([Ask(Uses(Claude)), Ask(Uses(Codex)), Ask(Uses(Sdk))] + u + v + x + b + y + end)
         == [Uses(Claude), Uses(Codex), Uses(Sdk)] + Questions(u) + Questions(v) + Questions(x) + Questions(b)
            + Questions(y) + Questions(end)
  {
    hide Questions;
    var a := [Ask(Uses(Claude)), Ask(Uses(Codex)), Ask(Uses(Sdk))];
    ThreeSurfaces();
    QuestionsJoin(a, u);
    QuestionsJoin(a + u, v);
    QuestionsJoin(a + u + v, x);
    QuestionsJoin(a + u + v + x, b);
    QuestionsJoin(a + u + v + x + b, y);
    QuestionsJoin(a + u + v + x + b + y, end);
  }

  lemma {:induction false} ThreeSurfaces()
    ensures Questions([Ask(Uses(Claude)), Ask(Uses(Codex)), Ask(Uses(Sdk))]) == [Uses(Claude), Uses(Codex), Uses(Sdk)]
  {
    hide Questions;
    var two := [Ask(Uses(Claude)), Ask(Uses(Codex))];
    OneQuestion(Ask(Uses(Claude)));
    OneQuestion(Ask(Uses(Codex)));
    OneQuestion(Ask(Uses(Sdk)));
    QuestionsJoin([Ask(Uses(Claude))], [Ask(Uses(Codex))]);
    QuestionsJoin(two, [Ask(Uses(Sdk))]);
    assert [Ask(Uses(Claude))] + [Ask(Uses(Codex))] == two;
    assert two + [Ask(Uses(Sdk))] == [Ask(Uses(Claude)), Ask(Uses(Codex)), Ask(Uses(Sdk))];
  }

  lemma {:induction false} FreshLegs(call: Call, usesClaude: bool, usesCodex: bool)
    ensures ClaudeQuestions(call, None, usesClaude) + CodexQuestions(call, None, usesClaude, usesCodex)
         == if SpanAsked(call, None, usesClaude, usesCodex) then [Ask(AnalysisSpan)] else []
    ensures CodexQuestions(call, None, usesClaude, usesCodex) == [] || ClaudeQuestions(call, None, usesClaude) == []
  {
    hide LegQuestions;
    var after := AfterClaude(call, None, usesClaude);
    FoundByLegs(call, None, usesClaude);
    FreshLeg(Claude, call, None);
    FreshLeg(Codex, call, after);
    SpanIsThere(call, None);
  }
}
