/**
 The combination onboarding (tokenjam/cli/cmd_onboard.py): which questions are asked, and whether
 any of them comes after a backfill, which may take minutes, has started.
 */
module Combination {
  import opened Prelude
  import opened AnalysisSpan

  datatype Surface = Claude | Codex | Sdk

  datatype Question = Uses(surface: Surface) | PlanOf(surface: Surface) | CeilingOf(surface: Surface)
                    | DailyBudgetOf(surface: Surface) | AnalysisSpan

  datatype Event = Ask(question: Question) | Backfill(surface: Surface)

  const SUBSCRIPTIONS := {"pro", "max_5x", "max_20x", "plus", "team", "enterprise"}

  /** The tj config file, as far as it decides what is asked. */
  datatype Config = Config(anthropic: Option<string>, openai: Option<string>, storage: Storage)

  const NEW_CONFIG := Config(None, None, Storage(None, None))

  /** A key of a plan menu. */
  type PlanKey = s: string | s != "" witness "api"

  /** The command line, the terminal, the answers the user would give and whether Claude Code has transcripts. */
  datatype Call = Call(plan: Option<string>, budget: Option<real>, force: bool, span: Option<string>,
                       interactive: bool, answers: Surface -> PlanKey, spanAnswer: string, transcripts: bool,
                       readInt: IntReader)

  function Stored(c: Option<Config>, s: Surface): Option<string> {
    if c.None? then None else if s == Claude then c.value.anthropic else c.value.openai
  }

  function WithPlan(c: Config, s: Surface, plan: string): Config {
    if s == Claude then c.(anthropic := Some(plan)) else c.(openai := Some(plan))
  }

  /** No marginal cost, so no daily budget to ask for. */
  predicate FlatRate(plan: string) { plan in SUBSCRIPTIONS || plan == "local" }

  // ---------------------------------------------------------------------
  // What is asked
  // ---------------------------------------------------------------------

  /** Plan, spending ceiling and daily budget, as far as they are not settled. */
  function PlanQuestions(s: Surface, plan: Option<string>, answer: string): seq<Event> {
    if Given(plan) then []
    else [Ask(PlanOf(s))] + (if answer == "api" then [Ask(CeilingOf(s))] else [])
  }

  function BudgetQuestion(s: Surface, budget: Option<real>, plan: string): seq<Event> {
    if budget.Some? || FlatRate(plan) then [] else [Ask(DailyBudgetOf(s))]
  }

  function Chosen(plan: Option<string>, answer: string): string { if Given(plan) then plan.value else answer }

  function Billing(s: Surface, plan: Option<string>, budget: Option<real>, answer: string): seq<Event> {
    PlanQuestions(s, plan, answer) + BudgetQuestion(s, budget, Chosen(plan, answer))
  }

  function SpanQuestion(call: Call, c: Config): seq<Event> {
    if Asks(c.storage, call.span, false, call.interactive) then [Ask(AnalysisSpan)] else []
  }

  function StorageAfter(call: Call, c: Config): Storage {
    Settled(call.readInt, c.storage, call.span, false, call.interactive, call.spanAnswer)
  }

  /** The config a leg starts from; only the Claude leg starts over under --force. */
  function Base(s: Surface, call: Call, c: Option<Config>): Config {
    if c.Some? && (s == Codex || !call.force) then c.value else NEW_CONFIG
  }

  /** The plan a leg ends with. */
  function LegPlan(s: Surface, call: Call, c: Option<Config>, plan: Option<string>): string {
    var stored := Stored(Some(Base(s, call, c)), s);
    if stored.None? || Given(plan) then Chosen(plan, call.answers(s)) else stored.value
  }

  function LegQuestions(s: Surface, call: Call, c: Option<Config>, plan: Option<string>, budget: Option<real>)
    : seq<Event>
  {
    var base := Base(s, call, c);
    (if Stored(Some(base), s).None? || Given(plan) then PlanQuestions(s, plan, call.answers(s)) else [])
    + BudgetQuestion(s, budget, LegPlan(s, call, c, plan))
    + SpanQuestion(call, WithPlan(base, s, LegPlan(s, call, c, plan)))
  }

  function LegConfig(s: Surface, call: Call, c: Option<Config>, plan: Option<string>): Config {
    var next := WithPlan(Base(s, call, c), s, LegPlan(s, call, c, plan));
    next.(storage := StorageAfter(call, next))
  }

  // ---------------------------------------------------------------------
  // The flow
  // ---------------------------------------------------------------------

  class Wizard {
    var config: Option<Config>
    var trace: seq<Event>

    method AskPlan(s: Surface, call: Call, plan: Option<string>) returns (chosen: string)
      modifies `trace
      ensures trace == old(trace) + PlanQuestions(s, plan, call.answers(s))
      ensures chosen == Chosen(plan, call.answers(s))
    {
      if Given(plan) {
        return plan.value;
      }
      trace := trace + [Ask(PlanOf(s))];
      chosen := call.answers(s);
      if chosen == "api" {
        trace := trace + [Ask(CeilingOf(s))];
      }
    }

    /** `_prompt_daily_budget`. */
    method AskDailyBudget(s: Surface, budget: Option<real>, plan: string)
      modifies `trace
      ensures trace == old(trace) + BudgetQuestion(s, budget, plan)
    {
      if budget.None? && !FlatRate(plan) {
        trace := trace + [Ask(DailyBudgetOf(s))];
      }
    }

    /** `_collect_combination_billing`. */
    method CollectBilling(s: Surface, call: Call) returns (plan: string)
      modifies `trace
      ensures trace == old(trace) + Billing(s, call.plan, call.budget, call.answers(s))
      ensures plan == Chosen(call.plan, call.answers(s))
    {
      plan := AskPlan(s, call, call.plan);
      AskDailyBudget(s, call.budget, plan);
    }

    /** `_apply_analysis_span` on the config about to be written. */
    method ApplySpan(call: Call, c: Config) returns (storage: Storage)
      modifies `trace
      ensures trace == old(trace) + SpanQuestion(call, c) && storage == StorageAfter(call, c)
    {
      if Asks(c.storage, call.span, false, call.interactive) {
        trace := trace + [Ask(AnalysisSpan)];
      }
      storage := Settled(call.readInt, c.storage, call.span, false, call.interactive, call.spanAnswer);
    }

    /** The part of `_onboard_claude_code` and `_onboard_codex` that asks and writes the config. */
    method Leg(s: Surface, call: Call, plan: Option<string>, budget: Option<real>)
      modifies this
      ensures trace == old(trace) + LegQuestions(s, call, old(config), plan, budget)
      ensures config == Some(LegConfig(s, call, old(config), plan))
    {
      hide PlanQuestions, BudgetQuestion, SpanQuestion, StorageAfter, Chosen;
      var c := NEW_CONFIG;
      if config.Some? && (s == Codex || !call.force) {
        c := config.value;
      }
      assert c == Base(s, call, old(config));
      hide Base;
      var existing := if s == Claude then c.anthropic else c.openai;
      var chosen: string;
      if existing.None? || Given(plan) {
        chosen := AskPlan(s, call, plan);
        c := WithPlan(c, s, chosen);
      } else {
        chosen := existing.value;
        assert WithPlan(c, s, chosen) == c;
      }
      assert chosen == LegPlan(s, call, old(config), plan) && c == WithPlan(Base(s, call, old(config)), s, chosen);
      hide LegPlan, WithPlan;
      AskDailyBudget(s, budget, chosen);
      var storage := ApplySpan(call, c);
      config := Some(c.(storage := storage));
    }

    /** A selected leg's billing is asked up front where the leg would ask it, and passed on to the leg. */
    method Hoist(s: Surface, uses: bool, call: Call) returns (plan: Option<string>, budget: Option<real>)
      modifies `trace
      ensures trace == old(trace) + UpFront(s, uses, call, config)
      ensures uses ==> plan == PassedPlan(s, call, config) && budget == PassedBudget(s, call, config)
    {
      plan, budget := call.plan, call.budget;
      if uses && (Stored(config, s).None? || Given(call.plan)) {
        var p := CollectBilling(s, call);
        plan, budget := Some(p), Some(if call.budget.Some? then call.budget.value else 0.0);
      }
    }

    /** `_onboard_combination`, for a user who picks at least one surface. */
    method Combination(call: Call, usesClaude: bool, usesCodex: bool)
      requires trace == []
      modifies this
      ensures trace == Trace(call, old(config), usesClaude, usesCodex)
      ensures config == Final(call, old(config), usesClaude, usesCodex)
    {
      hide LegQuestions, LegConfig, UpFront, PassedPlan, PassedBudget;
      trace := [Ask(Uses(Claude)), Ask(Uses(Codex)), Ask(Uses(Sdk))];
      var claudePlan, claudeBudget := Hoist(Claude, usesClaude, call);
      var codexPlan, codexBudget := Hoist(Codex, usesCodex, call);
      if usesClaude {
        Leg(Claude, call, claudePlan, claudeBudget);
        if call.transcripts {
          trace := trace + [Backfill(Claude)];
        }
      }
      if usesCodex {
        Leg(Codex, call, codexPlan, codexBudget);
        trace := trace + [Backfill(Codex)];
      }
    }
  }

  // ---------------------------------------------------------------------
  // The flow as a function
  // ---------------------------------------------------------------------

  predicate Hoisted(s: Surface, call: Call, c: Option<Config>) { Stored(c, s).None? || Given(call.plan) }

  function PassedPlan(s: Surface, call: Call, c: Option<Config>): Option<string> {
    if Hoisted(s, call, c) then Some(Chosen(call.plan, call.answers(s))) else call.plan
  }

  function PassedBudget(s: Surface, call: Call, c: Option<Config>): Option<real> {
    if Hoisted(s, call, c) then Some(if call.budget.Some? then call.budget.value else 0.0) else call.budget
  }

  function UpFront(s: Surface, uses: bool, call: Call, c: Option<Config>): seq<Event> {
    if uses && Hoisted(s, call, c) then Billing(s, call.plan, call.budget, call.answers(s)) else []
  }

  /** The config the Codex leg finds. */
  function AfterClaude(call: Call, c: Option<Config>, usesClaude: bool): Option<Config> {
    if usesClaude then Some(LegConfig(Claude, call, c, PassedPlan(Claude, call, c))) else c
  }

  function ClaudeQuestions(call: Call, c: Option<Config>, usesClaude: bool): seq<Event> {
    if usesClaude then LegQuestions(Claude, call, c, PassedPlan(Claude, call, c), PassedBudget(Claude, call, c)) else []
  }

  function CodexQuestions(call: Call, c: Option<Config>, usesClaude: bool, usesCodex: bool): seq<Event> {
    if usesCodex then
      LegQuestions(Codex, call, AfterClaude(call, c, usesClaude), PassedPlan(Codex, call, c),
                   PassedBudget(Codex, call, c))
    else []
  }

  function Trace(call: Call, c: Option<Config>, usesClaude: bool, usesCodex: bool): seq<Event> {
    [Ask(Uses(Claude)), Ask(Uses(Codex)), Ask(Uses(Sdk))]
    + UpFront(Claude, usesClaude, call, c) + UpFront(Codex, usesCodex, call, c)
    + ClaudeQuestions(call, c, usesClaude)
    + (if usesClaude && call.transcripts then [Backfill(Claude)] else [])
    + CodexQuestions(call, c, usesClaude, usesCodex)
    + (if usesCodex then [Backfill(Codex)] else [])
  }

  function Final(call: Call, c: Option<Config>, usesClaude: bool, usesCodex: bool): Option<Config> {
    var after := AfterClaude(call, c, usesClaude);
    if usesCodex then Some(LegConfig(Codex, call, after, PassedPlan(Codex, call, c))) else after
  }

  // ---------------------------------------------------------------------
  // Questions first
  // ---------------------------------------------------------------------

  /** No question comes after a backfill has started. */
  predicate QuestionsFirst(t: seq<Event>) {
    forall i, j :: 0 <= i < j < |t| && t[i].Backfill? ==> t[j].Backfill?
  }

  predicate AllAsk(t: seq<Event>) { forall i :: 0 <= i < |t| ==> t[i].Ask? }

  lemma {:induction false} QuestionsBetween(front: seq<Event>, b: seq<Event>, late: seq<Event>, end: seq<Event>)
    requires AllAsk(front) && AllAsk(late)
    requires (b == [] || b == [Backfill(Claude)]) && (end == [] || end == [Backfill(Codex)])
    ensures QuestionsFirst(front + b + late + end) <==> b == [] || late == []
  {
    var t := front + b + late + end;
    if b != [] && late != [] {
      assert t[|front|] == Backfill(Claude) && t[|front| + 1] == late[0];
    } else if late == [] {
      assert forall i :: 0 <= i < |front| ==> t[i] == front[i];
    } else {
      assert forall i :: 0 <= i < |front| ==> t[i] == front[i];
      assert forall i :: 0 <= i < |late| ==> t[|front| + i] == late[i];
    }
  }

  /** What the Codex leg still asks of its own. */
  lemma {:induction false} CodexStillAsks(call: Call, c: Option<Config>)
    ensures CodexQuestions(call, c, true, true) != []
       <==> !Given(call.plan) && Stored(c, Codex).Some?
            && (call.force || (call.budget.None? && !FlatRate(Stored(c, Codex).value)))
    ensures AllAsk(CodexQuestions(call, c, true, true))
  {
    var after := AfterClaude(call, c, true).value;
    assert after.storage.span.Some?;
    assert after.openai == if c.Some? && !call.force then c.value.openai else None;
  }

  /**
   A question comes after the first backfill in exactly these runs: both agents are used and Claude Code
   has transcripts, no plan is on the command line, an OpenAI plan is stored, and either --force has made
   the Claude leg forget it, or it is billed by use and no budget is given.
   */
  lemma {:induction false} QuestionsFirstExactly(call: Call, c: Option<Config>, usesClaude: bool, usesCodex: bool)
    ensures QuestionsFirst(Trace(call, c, usesClaude, usesCodex))
       <==> !(&& usesClaude && usesCodex && call.transcripts && !Given(call.plan) && Stored(c, Codex).Some?
              && (call.force || (call.budget.None? && !FlatRate(Stored(c, Codex).value))))
  {
    hide QuestionsFirst, LegQuestions;
    var front := [Ask(Uses(Claude)), Ask(Uses(Codex)), Ask(Uses(Sdk))]
      + UpFront(Claude, usesClaude, call, c) + UpFront(Codex, usesCodex, call, c)
      + ClaudeQuestions(call, c, usesClaude);
    LegsOnlyAsk(call, c, usesClaude, usesCodex);
    var b := if usesClaude && call.transcripts then [Backfill(Claude)] else [];
    var end := if usesCodex then [Backfill(Codex)] else [];
    QuestionsBetween(front, b, CodexQuestions(call, c, usesClaude, usesCodex), end);
    CodexStillAsks(call, c);
  }

  lemma {:induction false} LegsOnlyAsk(call: Call, c: Option<Config>, usesClaude: bool, usesCodex: bool)
    ensures AllAsk(ClaudeQuestions(call, c, usesClaude)) && AllAsk(CodexQuestions(call, c, usesClaude, usesCodex))
  {
    hide LegQuestions, LegConfig, PassedPlan, PassedBudget;
    LegOnlyAsks(Claude, call, c, PassedPlan(Claude, call, c), PassedBudget(Claude, call, c));
    LegOnlyAsks(Codex, call, AfterClaude(call, c, usesClaude), PassedPlan(Codex, call, c),
                PassedBudget(Codex, call, c));
  }

  lemma {:induction false} LegOnlyAsks(s: Surface, call: Call, c: Option<Config>, plan: Option<string>,
                                       budget: Option<real>)
    ensures AllAsk(LegQuestions(s, call, c, plan, budget))
  {
    hide LegPlan, Base;
  }

  /** On a machine without a config every question precedes the first backfill. */
  lemma {:induction false} FreshMachineAsksFirst(call: Call, usesClaude: bool, usesCodex: bool)
    ensures QuestionsFirst(Trace(call, None, usesClaude, usesCodex))
  {
    hide QuestionsFirst, Trace;
    QuestionsFirstExactly(call, None, usesClaude, usesCodex);
  }

  // ---------------------------------------------------------------------
  // No question twice
  // ---------------------------------------------------------------------

  function Times(t: seq<Event>, q: Question): nat { multiset(t)[Ask(q)] }

  lemma {:induction false} TimesOfParts(a: seq<Event>, b: seq<Event>, q: Question)
    ensures Times(a + b, q) == Times(a, q) + Times(b, q)
  {}

  lemma {:induction false} BillingOnce(s: Surface, call: Call, c: Option<Config>, q: Question)
    ensures Times(UpFront(s, true, call, c), q) <= (if q in {PlanOf(s), CeilingOf(s), DailyBudgetOf(s)} then 1 else 0)
  {
    hide Times;
    TimesOfParts(PlanQuestions(s, call.plan, call.answers(s)),
                 BudgetQuestion(s, call.budget, Chosen(call.plan, call.answers(s))), q);
    PlanOnce(s, call.plan, call.answers(s), q);
    BudgetOnce(s, call.budget, Chosen(call.plan, call.answers(s)), q);
    NoneAsked(q);
  }

  lemma {:induction false} NoneAsked(q: Question)
    ensures Times([], q) == 0
  {}

  lemma {:induction false} PlanOnce(s: Surface, plan: Option<string>, answer: string, q: Question)
    ensures Times(PlanQuestions(s, plan, answer), q) <= (if q in {PlanOf(s), CeilingOf(s)} then 1 else 0)
  {}

  lemma {:induction false} BudgetOnce(s: Surface, budget: Option<real>, plan: string, q: Question)
    ensures Times(BudgetQuestion(s, budget, plan), q) <= (if q == DailyBudgetOf(s) then 1 else 0)
  {}

  lemma {:induction false} SpanOnce(call: Call, c: Config, q: Question)
    ensures Times(SpanQuestion(call, c), q) <= (if q == AnalysisSpan then 1 else 0)
  {}

  /** A leg asks nothing about billing that was asked up front, and nothing twice. */
  lemma {:induction false} LegOnce(s: Surface, call: Call, c: Option<Config>, now: Option<Config>, q: Question)
    ensures var leg := LegQuestions(s, call, now, PassedPlan(s, call, c), PassedBudget(s, call, c));
            && Times(leg, q) <= (if q in {PlanOf(s), CeilingOf(s), DailyBudgetOf(s), AnalysisSpan} then 1 else 0)
            && (Hoisted(s, call, c) && q != AnalysisSpan ==> Times(leg, q) == 0)
            && (now.Some? && now.value.storage.span.Some? && s == Codex && q == AnalysisSpan ==> Times(leg, q) == 0)
  {
    hide Times;
    var plan, budget := PassedPlan(s, call, c), PassedBudget(s, call, c);
    var base := Base(s, call, now);
    var a := if Stored(Some(base), s).None? || Given(plan) then PlanQuestions(s, plan, call.answers(s)) else [];
    var b := BudgetQuestion(s, budget, LegPlan(s, call, now, plan));
    var d := SpanQuestion(call, WithPlan(base, s, LegPlan(s, call, now, plan)));
    TimesOfParts(a, b, q);
    TimesOfParts(a + b, d, q);
    PlanOnce(s, plan, call.answers(s), q);
    BudgetOnce(s, budget, LegPlan(s, call, now, plan), q);
    SpanOnce(call, WithPlan(base, s, LegPlan(s, call, now, plan)), q);
    NoneAsked(q);
  }

  /** No run asks a question twice. */
  lemma {:induction false} NothingAskedTwice(call: Call, c: Option<Config>, usesClaude: bool, usesCodex: bool,
                                             q: Question)
    ensures Times(Trace(call, c, usesClaude, usesCodex), q) <= 1
  {
    hide Times, LegQuestions, Billing, PassedPlan, PassedBudget, Given;
    var a := [Ask(Uses(Claude)), Ask(Uses(Codex)), Ask(Uses(Sdk))];
    var u, v := UpFront(Claude, usesClaude, call, c), UpFront(Codex, usesCodex, call, c);
    var x, y := ClaudeQuestions(call, c, usesClaude), CodexQuestions(call, c, usesClaude, usesCodex);
    var b := if usesClaude && call.transcripts then [Backfill(Claude)] else [];
    var end := if usesCodex then [Backfill(Codex)] else [];
    TimesOfParts(a, u, q);
    TimesOfParts(a + u, v, q);
    TimesOfParts(a + u + v, x, q);
    TimesOfParts(a + u + v + x, b, q);
    TimesOfParts(a + u + v + x + b, y, q);
    TimesOfParts(a + u + v + x + b + y, end, q);
    SurfacesOnce(q);
    BackfillsAskNothing(q);
    NoneAsked(q);
    BillingOnce(Claude, call, c, q);
    BillingOnce(Codex, call, c, q);
    LegOnce(Claude, call, c, c, q);
    LegOnce(Codex, call, c, AfterClaude(call, c, usesClaude), q);
  }

  lemma {:induction false} SurfacesOnce(q: Question)
    ensures Times([Ask(Uses(Claude)), Ask(Uses(Codex)), Ask(Uses(Sdk))], q) <= (if q.Uses? then 1 else 0)
  {}

  lemma {:induction false} BackfillsAskNothing(q: Question)
    ensures Times([Backfill(Claude)], q) == 0 && Times([Backfill(Codex)], q) == 0
  {}

  // ---------------------------------------------------------------------
  // What is written
  // ---------------------------------------------------------------------

  /**
   Every agent used ends with the plan on the command line, or else the one stored, or else the answer;
   only --force, and only together with the Claude leg, makes a stored plan be asked for again.
   */
  lemma {:induction false} PlansWritten(call: Call, c: Option<Config>, usesClaude: bool, usesCodex: bool, s: Surface)
    requires (s == Claude && usesClaude) || (s == Codex && usesCodex)
    ensures var forgotten := call.force && usesClaude;
            Stored(Final(call, c, usesClaude, usesCodex), s)
            == if Given(call.plan) then call.plan
               else if Stored(c, s).Some? && !forgotten then Stored(c, s)
               else Some(call.answers(s))
  {}

  /** A call with no flags, and a config with both plans and the span in it. */
  function LateCall(answers: Surface -> PlanKey, readInt: IntReader): Call {
    Call(None, None, false, None, true, answers, "90d", true, readInt)
  }

  function LateConfig(): Config { Config(Some("pro"), Some("api"), Storage(Some("90d"), None)) }

  lemma {:induction false} SpanIsSettled(answers: Surface -> PlanKey, readInt: IntReader)
    ensures SpanQuestion(LateCall(answers, readInt), LateConfig()) == []
    ensures StorageAfter(LateCall(answers, readInt), LateConfig()) == LateConfig().storage
  {}

  lemma {:induction false} ClaudeLegIsSilent(answers: Surface -> PlanKey, readInt: IntReader)
    ensures var call, c := LateCall(answers, readInt), Some(LateConfig());
            ClaudeQuestions(call, c, true) == [] && AfterClaude(call, c, true) == c
  {
    hide StorageAfter, SpanQuestion;
    SpanIsSettled(answers, readInt);
    assert FlatRate("pro");
  }

  lemma {:induction false} CodexLegAsks(answers: Surface -> PlanKey, readInt: IntReader)
    ensures var call, c := LateCall(answers, readInt), Some(LateConfig());
            CodexQuestions(call, c, true, true) == [Ask(DailyBudgetOf(Codex))]
  {
    hide StorageAfter, SpanQuestion, AfterClaude;
    SpanIsSettled(answers, readInt);
    ClaudeLegIsSilent(answers, readInt);
    assert !FlatRate("api");
  }

  /** With a stored "api" plan for OpenAI and no budget given, the daily budget is asked after the Claude backfill. */
  lemma {:induction false} LateQuestion(answers: Surface -> PlanKey, readInt: IntReader)
    ensures Trace(LateCall(answers, readInt), Some(LateConfig()), true, true)
            == [Ask(Uses(Claude)), Ask(Uses(Codex)), Ask(Uses(Sdk)), Backfill(Claude), Ask(DailyBudgetOf(Codex)),
                Backfill(Codex)]
  {
    hide ClaudeQuestions, CodexQuestions;
    ClaudeLegIsSilent(answers, readInt);
    CodexLegAsks(answers, readInt);
  }
}
