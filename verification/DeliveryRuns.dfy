/** What every schedule of the delivery machine keeps: conservation, order, termination, draining. */
module DeliveryRuns {
  import opened Prelude
  import opened Spans
  import opened Delivery

  lemma {:induction false} AnswerExplained(cfg: Config, p: Post, r: Reply)
    requires Explained(cfg, p) && p.phase == Fetching
    ensures Explained(cfg, OnAnswer(cfg, p, r))
  {
    var q := OnAnswer(cfg, p, r);
    assert q.replies[..|q.replies| - 1] == p.replies;
  }

  lemma {:induction false} WakeExplained(cfg: Config, p: Post)
    requires Explained(cfg, p) && p.phase == BackingOff
    ensures Explained(cfg, OnWake(p))
  {
    assert Pow2(|p.replies|) == 2 * Pow2(|p.replies| - 1);
  }

  /** Every step keeps the invariant. */
  lemma {:induction false} StepKeepsInv(cfg: Config, st: State, e: Event)
    requires Inv(cfg, st) && Enabled(st, e)
    ensures Inv(cfg, Apply(cfg, st, e))
  {
    match e
    case Answer(i, r) => AnswerExplained(cfg, st.posts[i], r);
    case Wake(i) => WakeExplained(cfg, st.posts[i]);
    case _ =>
  }

  lemma {:induction false} FlushKeepsEverything(cfg: Config, st: State)
    ensures Everything(DoFlush(cfg, st)) == Everything(st)
  {
    if st.buffer != [] {
      var next := DoFlush(cfg, st);
      assert Batches(next.posts) == Batches(st.posts) + [st.buffer];
      FlattenAppend(Batches(st.posts), st.buffer);
    }
  }

  /** A step adds exactly what it was asked to send, at the end, and loses or reorders nothing. */
  lemma {:induction false} StepAccountsForSends(cfg: Config, st: State, e: Event)
    requires Enabled(st, e)
    ensures Everything(Apply(cfg, st, e)) == Everything(st) + SentBy(e)
  {
    match e
    case Send(s) =>
      var pushed := st.(buffer := st.buffer + [s]);
      FlushKeepsEverything(cfg, pushed);
      assert Everything(pushed) == Everything(st) + [s];
    case Flush => FlushKeepsEverything(cfg, st);
    case Tick => FlushKeepsEverything(cfg, st);
    case Shutdown => FlushKeepsEverything(cfg, st.(timer := false));
    case Answer(i, r) => assert Batches(Apply(cfg, st, e).posts) == Batches(st.posts);
    case Wake(i) => assert Batches(Apply(cfg, st, e).posts) == Batches(st.posts);
    case Start =>
  }

  lemma {:induction false} SentStep(es: seq<Event>)
    ensures Sent(es) == if es == [] then [] else SentBy(es[0]) + Sent(es[1..])
  {}

  lemma {:induction false} RunAccounts(cfg: Config, st: State, es: seq<Event>, next: State)
    requires Inv(cfg, st) && Run(cfg, st, es) == Some(next)
    ensures Inv(cfg, next)
    ensures Everything(next) == Everything(st) + Sent(es)
    decreases |es|
  {
    hide Inv, Apply, Everything, Enabled, Sent, SentBy;
    SentStep(es);
    if es == [] {
      assert Everything(st) + [] == Everything(st);
    } else {
      var mid := Apply(cfg, st, es[0]);
      StepKeepsInv(cfg, st, es[0]);
      StepAccountsForSends(cfg, st, es[0]);
      RunAccounts(cfg, mid, es[1..], next);
      assert Everything(st) + SentBy(es[0]) + Sent(es[1..]) == Everything(st) + (SentBy(es[0]) + Sent(es[1..]));
    }
  }

  /** How often `x` occurs in `s`. */
  function Count(x: Span, s: seq<Span>): nat {
    if s == [] then 0 else (if s[0] == x then 1 else 0) + Count(x, s[1..])
  }

  lemma {:induction false} CountOfSum(x: Span, a: seq<Span>, b: seq<Span>)
    ensures Count(x, a + b) == Count(x, a) + Count(x, b)
  {
    if a == [] {
      assert [] + b == b;
    } else {
      assert (a + b)[1..] == a[1..] + b;
      CountOfSum(x, a[1..], b);
    }
  }

  lemma {:induction false} HeldSplits(x: Span, posts: seq<Post>)
    ensures Count(x, Flatten(Batches(posts)))
         == Count(x, Held(InFlight, posts)) + Count(x, Held(Delivered, posts)) + Count(x, Held(Dropped, posts))
  {
    hide Count;
    var none: seq<Span> := [];
    CountOfSum(x, none, none);
    assert none + none == none;
    if posts != [] {
      var p, rest := posts[0], posts[1..];
      HeldSplits(x, rest);
      assert Batches(posts) == [p.batch] + Batches(rest);
      CountOfSum(x, p.batch, Flatten(Batches(rest)));
      forall f: Fate ensures Count(x, Held(f, posts)) == Count(x, Share(f, p)) + Count(x, Held(f, rest)) {
        CountOfSum(x, Share(f, p), Held(f, rest));
      }
    }
  }

  lemma {:induction false} Tally(x: Span, st: State)
    ensures Count(x, Everything(st)) == Count(x, st.buffer) + Count(x, Held(InFlight, st.posts))
                                      + Count(x, Held(Delivered, st.posts)) + Count(x, Held(Dropped, st.posts))
  {
    HeldSplits(x, st.posts);
    CountOfSum(x, Flatten(Batches(st.posts)), st.buffer);
  }

  lemma {:induction false} Accounts(cfg: Config, es: seq<Event>, st: State)
    requires Run(cfg, Init, es) == Some(st)
    ensures Everything(st) == Sent(es) && Inv(cfg, st)
  {
    assert Batches(Init.posts) == [];
    RunAccounts(cfg, Init, es, st);
  }

  /**
   Conservation and order.  After any schedule the batches in the order they left
   the buffer, followed by the buffer, are the spans sent, in order; each sent span
   is in exactly one of buffer, in flight, delivered, dropped; and the invariant holds.
   */
  lemma {:induction false} Conservation(cfg: Config, es: seq<Event>, st: State)
    requires Run(cfg, Init, es) == Some(st)
    ensures Flatten(Batches(st.posts)) + st.buffer == Sent(es)
    ensures forall x :: Count(x, Sent(es)) == Count(x, st.buffer) + Count(x, Held(InFlight, st.posts))
                                            + Count(x, Held(Delivered, st.posts)) + Count(x, Held(Dropped, st.posts))
    ensures Inv(cfg, st)
  {
    Accounts(cfg, es, st);
    forall x { Tally(x, st); }
  }

  // ---------------------------------------------------------------------
  // Nothing already decided is revisited
  // ---------------------------------------------------------------------

  ghost predicate Extends(p: Post, q: Post) {
    && q.batch == p.batch
    && p.replies <= q.replies
    && p.waited <= q.waited
    && (p.phase.Finished? ==> q == p)
  }

  lemma {:induction false} PostsPersist(cfg: Config, st: State, es: seq<Event>, next: State)
    requires Run(cfg, st, es) == Some(next)
    ensures |st.posts| <= |next.posts|
    ensures forall i :: 0 <= i < |st.posts| ==> Extends(st.posts[i], next.posts[i])
    decreases |es|
  {
    if es != [] {
      var mid := Apply(cfg, st, es[0]);
      assert |st.posts| <= |mid.posts| && forall i :: 0 <= i < |st.posts| ==> Extends(st.posts[i], mid.posts[i]);
      PostsPersist(cfg, mid, es[1..], next);
      forall i | 0 <= i < |st.posts| ensures Extends(st.posts[i], next.posts[i]) {
        assert Extends(st.posts[i], mid.posts[i]) && Extends(mid.posts[i], next.posts[i]);
      }
    }
  }

  // ---------------------------------------------------------------------
  // Termination
  // ---------------------------------------------------------------------

  /** An upper bound on the replies and wake-ups one post can still take. */
  function Remaining(cfg: Config, p: Post): nat {
    match p.phase
    case Fetching => 2 * Max(0, cfg.maxRetries - |p.replies|) + 1
    case BackingOff => 2 * Max(0, cfg.maxRetries - |p.replies|) + 2
    case Finished(_) => 0
  }

  function Measure(cfg: Config, posts: seq<Post>): nat {
    if posts == [] then 0 else Remaining(cfg, posts[0]) + Measure(cfg, posts[1..])
  }

  predicate IsNetwork(e: Event) { e.Answer? || e.Wake? }

  function NetworkSteps(es: seq<Event>): nat {
    if es == [] then 0 else (if IsNetwork(es[0]) then 1 else 0) + NetworkSteps(es[1..])
  }

  lemma {:induction false} MeasureUpdate(cfg: Config, posts: seq<Post>, i: nat, p: Post)
    requires i < |posts|
    ensures Measure(cfg, posts[i := p]) == Measure(cfg, posts) - Remaining(cfg, posts[i]) + Remaining(cfg, p)
  {
    if i == 0 {
      assert posts[i := p][1..] == posts[1..];
    } else {
      assert posts[i := p][1..] == posts[1..][i - 1 := p];
      MeasureUpdate(cfg, posts[1..], i - 1, p);
    }
  }

  lemma {:induction false} MeasureAppend(cfg: Config, posts: seq<Post>, p: Post)
    ensures Measure(cfg, posts + [p]) == Measure(cfg, posts) + Remaining(cfg, p)
  {
    if posts == [] {
      assert [] + [p] == [p];
    } else {
      assert (posts + [p])[1..] == posts[1..] + [p];
      MeasureAppend(cfg, posts[1..], p);
    }
  }

  /** The work a fresh batch brings along. */
  function PerBatch(cfg: Config): nat {
    2 * Max(0, cfg.maxRetries) + 1
  }

  lemma {:induction false} FlushMeasure(cfg: Config, st: State)
    ensures var next := DoFlush(cfg, st);
            && |st.posts| <= |next.posts| <= |st.posts| + 1
            && Measure(cfg, next.posts)
               <= Measure(cfg, st.posts) + (if |next.posts| > |st.posts| then PerBatch(cfg) else 0)
  {
    if st.buffer != [] {
      MeasureAppend(cfg, st.posts, NewPost(cfg, st.buffer));
    }
  }

  /** A reply or a wake-up uses up at least one unit; any other step adds at most one batch's worth. */
  lemma {:induction false} StepMeasure(cfg: Config, st: State, e: Event)
    requires Inv(cfg, st) && Enabled(st, e)
    ensures var next := Apply(cfg, st, e);
            && |st.posts| <= |next.posts| <= |st.posts| + 1
            && Measure(cfg, next.posts) + (if IsNetwork(e) then 1 else 0)
            <= Measure(cfg, st.posts) + (if |next.posts| > |st.posts| then PerBatch(cfg) else 0)
  {
    hide EncodableBatch;
    match e
    case Answer(i, r) => MeasureUpdate(cfg, st.posts, i, OnAnswer(cfg, st.posts[i], r));
    case Wake(i) => MeasureUpdate(cfg, st.posts, i, OnWake(st.posts[i]));
    case Send(s) => FlushMeasure(cfg, st.(buffer := st.buffer + [s]));
    case Flush => FlushMeasure(cfg, st);
    case Tick => FlushMeasure(cfg, st);
    case Shutdown => FlushMeasure(cfg, st.(timer := false));
    case Start =>
  }

  lemma {:induction false} RunMeasure(cfg: Config, st: State, es: seq<Event>, next: State)
    requires Inv(cfg, st) && Run(cfg, st, es) == Some(next)
    ensures |st.posts| <= |next.posts|
    ensures Measure(cfg, next.posts) + NetworkSteps(es)
         <= Measure(cfg, st.posts) + Times(|next.posts| - |st.posts|, PerBatch(cfg))
    decreases |es|
  {
    if es != [] {
      var mid := Apply(cfg, st, es[0]);
      StepKeepsInv(cfg, st, es[0]);
      StepMeasure(cfg, st, es[0]);
      RunMeasure(cfg, mid, es[1..], next);
      TimesSum(|mid.posts| - |st.posts|, |next.posts| - |mid.posts|, PerBatch(cfg));
    }
  }

  lemma {:induction false} NonEmptyBatches(ss: seq<seq<Span>>)
    requires forall i :: 0 <= i < |ss| ==> ss[i] != []
    ensures |ss| <= |Flatten(ss)|
  {
    if ss != [] {
      NonEmptyBatches(ss[1..]);
    }
  }

  lemma {:induction false} BatchCount(cfg: Config, es: seq<Event>, st: State)
    requires Run(cfg, Init, es) == Some(st)
    ensures |st.posts| <= |Sent(es)|
  {
    RunAccounts(cfg, Init, es, st);
    NonEmptyBatches(Batches(st.posts));
    assert Batches(Init.posts) == [];
  }

  lemma {:induction false} LifeBound(cfg: Config, es: seq<Event>, st: State)
    requires Run(cfg, Init, es) == Some(st)
    ensures NetworkSteps(es) <= Times(|Sent(es)|, PerBatch(cfg))
  {
    RunMeasure(cfg, Init, es, st);
    BatchCount(cfg, es, st);
    TimesSum(|st.posts|, |Sent(es)| - |st.posts|, PerBatch(cfg));
  }

  lemma {:induction false} NoNewBatchBound(cfg: Config, st: State, more: seq<Event>, next: State)
    requires Inv(cfg, st) && Run(cfg, st, more) == Some(next)
    requires |next.posts| == |st.posts|
    ensures Measure(cfg, next.posts) + NetworkSteps(more) <= Measure(cfg, st.posts)
  {
    RunMeasure(cfg, st, more, next);
  }

  /**
   Termination.  From any reachable state a schedule without new batches has at
   most Measure replies and wake-ups; over a whole life there are at most
   2 * maxRetries + 1 of them per span sent.
   */
  lemma {:induction false} Terminates(cfg: Config, es: seq<Event>, st: State, more: seq<Event>, next: State)
    requires Run(cfg, Init, es) == Some(st)
    requires Run(cfg, st, more) == Some(next)
    ensures |next.posts| == |st.posts| ==> NetworkSteps(more) <= Measure(cfg, st.posts)
    ensures NetworkSteps(es) <= Times(|Sent(es)|, PerBatch(cfg))
  {
    LifeBound(cfg, es, st);
    if |next.posts| == |st.posts| {
      assert Inv(cfg, st) by { Conservation(cfg, es, st); }
      NoNewBatchBound(cfg, st, more, next);
    }
  }

  lemma {:induction false} MeasureZero(cfg: Config, posts: seq<Post>)
    ensures Measure(cfg, posts) == 0 <==> forall i :: 0 <= i < |posts| ==> posts[i].phase.Finished?
  {
    if posts != [] {
      MeasureZero(cfg, posts[1..]);
      assert forall i :: 0 < i < |posts| ==> posts[i] == posts[1..][i - 1];
      assert forall i :: 0 <= i < |posts[1..]| ==> posts[1..][i] == posts[i + 1];
    }
  }

  /** The next thing post `i` is waiting for. */
  function Nudge(st: State, i: nat, r: Reply): Event
    requires i < |st.posts|
  {
    if st.posts[i].phase == Fetching then Answer(i, r) else Wake(i)
  }

  /** No post is ever stuck: while the measure is positive, some post waits for an event that can happen. */
  lemma {:induction false} Progress(cfg: Config, es: seq<Event>, st: State, r: Reply)
    requires Run(cfg, Init, es) == Some(st)
    ensures Measure(cfg, st.posts) > 0 <==>
              exists i: nat :: i < |st.posts| && Enabled(st, Nudge(st, i, r))
  {
    RunAccounts(cfg, Init, es, st);
    MeasureZero(cfg, st.posts);
    if i :| 0 <= i < |st.posts| && !st.posts[i].phase.Finished? {
      assert Explained(cfg, st.posts[i]);
      assert Enabled(st, Nudge(st, i, r));
    }
  }

  // ---------------------------------------------------------------------
  // Shutdown, and delivery by a healthy server
  // ---------------------------------------------------------------------

  predicate Quiet(e: Event) { !e.Send? && !e.Start? }

  lemma {:induction false} StaysDrained(cfg: Config, st: State, es: seq<Event>, next: State)
    requires Run(cfg, st, es) == Some(next)
    requires st.buffer == [] && !st.timer
    requires forall k :: 0 <= k < |es| ==> Quiet(es[k])
    ensures next.buffer == [] && !next.timer && |next.posts| == |st.posts|
    decreases |es|
  {
    if es != [] {
      assert Quiet(es[0]);
      StaysDrained(cfg, Apply(cfg, st, es[0]), es[1..], next);
    }
  }

  lemma {:induction false} RunAppend(cfg: Config, st: State, es: seq<Event>, fs: seq<Event>)
    ensures Run(cfg, st, es + fs) ==
            match Run(cfg, st, es) { case Some(mid) => Run(cfg, mid, fs) case None => None }
    decreases |es|
  {
    if es == [] {
      assert [] + fs == fs;
    } else {
      assert (es + fs)[1..] == es[1..] + fs;
      if Enabled(st, es[0]) {
        RunAppend(cfg, Apply(cfg, st, es[0]), es[1..], fs);
      }
    }
  }

  /**
   Shutdown leaves nothing behind: whatever was sent before it is in some batch, and
   until the client is used again no event makes a new batch or restarts the timer.
   */
  lemma {:induction false} ShutdownDrains(cfg: Config, es: seq<Event>, st: State, rest: seq<Event>, next: State)
    requires Run(cfg, Init, es) == Some(st)
    requires forall k :: 0 <= k < |rest| ==> Quiet(rest[k])
    requires Run(cfg, Apply(cfg, st, Shutdown), rest) == Some(next)
    ensures next.buffer == [] && !next.timer
    ensures Flatten(Batches(next.posts)) == Sent(es)
    ensures NetworkSteps(rest) <= Measure(cfg, Apply(cfg, st, Shutdown).posts)
  {
    var mid := Apply(cfg, st, Shutdown);
    assert Inv(cfg, mid) && Everything(mid) == Sent(es) by {
      Conservation(cfg, es, st);
      StepKeepsInv(cfg, st, Shutdown);
      StepAccountsForSends(cfg, st, Shutdown);
    }
    StaysDrained(cfg, mid, rest, next);
    assert Everything(next) == Everything(mid) by {
      RunAccounts(cfg, mid, rest, next);
      NoSends(rest);
    }
    RunMeasure(cfg, mid, rest, next);
  }

  lemma {:induction false} NoSends(es: seq<Event>)
    requires forall k :: 0 <= k < |es| ==> Quiet(es[k])
    ensures Sent(es) == []
  {
    if es != [] {
      assert Quiet(es[0]);
      NoSends(es[1..]);
    }
  }

  /** Every reply of the schedule is a readable 2xx. */
  predicate Healthy(es: seq<Event>) {
    forall k :: 0 <= k < |es| && es[k].Answer? ==> Judge(es[k].reply) == Accept && es[k].reply.json
  }

  predicate OnTrack(p: Post) {
    if EncodableBatch(p.batch) then (p.replies == [] && p.phase == Fetching) || p.phase == Finished(Ingested)
    else p.phase == Finished(Unencodable)
  }

  lemma {:induction false} HealthyKeepsOnTrack(cfg: Config, st: State, es: seq<Event>, next: State)
    requires cfg.maxRetries >= 0 && Run(cfg, st, es) == Some(next) && Healthy(es)
    requires forall i :: 0 <= i < |st.posts| ==> OnTrack(st.posts[i])
    ensures forall i :: 0 <= i < |next.posts| ==> OnTrack(next.posts[i])
    decreases |es|
  {
    hide EncodableBatch;
    if es != [] {
      assert Healthy(es[1..]);
      HealthyKeepsOnTrack(cfg, Apply(cfg, st, es[0]), es[1..], next);
    }
  }

  /** The spans delivered are all there are just when every batch could be encoded. */
  lemma {:induction false} DeliveredWhenEncodable(posts: seq<Post>)
    requires forall i :: 0 <= i < |posts| ==>
               posts[i].batch != [] && (FateOf(posts[i]) == Delivered <==> EncodableBatch(posts[i].batch))
    ensures |Held(Delivered, posts)| <= |Flatten(Batches(posts))|
    ensures EncodableBatch(Flatten(Batches(posts))) ==> Held(Delivered, posts) == Flatten(Batches(posts))
    ensures !EncodableBatch(Flatten(Batches(posts))) ==> |Held(Delivered, posts)| < |Flatten(Batches(posts))|
  {
    hide FateOf;
    if posts != [] {
      var p, rest := posts[0], posts[1..];
      DeliveredWhenEncodable(rest);
      assert Batches(posts) == [p.batch] + Batches(rest);
      EncodableJoin(p.batch, Flatten(Batches(rest)));
    }
  }

  lemma {:induction false} EncodableJoin(a: seq<Span>, b: seq<Span>)
    ensures EncodableBatch(a + b) <==> EncodableBatch(a) && EncodableBatch(b)
  {
    hide EncodableSpan;
    assert forall i :: 0 <= i < |a| ==> (a + b)[i] == a[i];
    assert forall i :: 0 <= i < |b| ==> (a + b)[|a| + i] == b[i];
  }

  /**
   With a healthy server, once the buffer is empty and every post has run its course, the
   spans delivered are exactly the spans sent, in order, just when all of them can be encoded;
   a batch with one that cannot is lost, and only such a batch is.
   */
  lemma {:induction false} HealthyServerGetsEverything(cfg: Config, es: seq<Event>, st: State)
    requires cfg.maxRetries >= 0
    requires Run(cfg, Init, es) == Some(st) && Healthy(es)
    requires st.buffer == [] && Measure(cfg, st.posts) == 0
    ensures forall i :: 0 <= i < |st.posts| ==>
              (FateOf(st.posts[i]) == Delivered <==> EncodableBatch(st.posts[i].batch))
    ensures Held(Delivered, st.posts) == Sent(es) <==> EncodableBatch(Sent(es))
  {
    hide EncodableBatch;
    Conservation(cfg, es, st);
    HealthyKeepsOnTrack(cfg, Init, es, st);
    MeasureZero(cfg, st.posts);
    forall i | 0 <= i < |st.posts| ensures st.posts[i].batch != [] {
      assert WellSized(cfg, st.posts[i].batch);
    }
    DeliveredWhenEncodable(st.posts);
    assert Flatten(Batches(st.posts)) + st.buffer == Flatten(Batches(st.posts));
  }

  /** Sent to a client of any batch size that then shuts down, a span that cannot be encoded is posted to no server. */
  lemma {:induction false} UnencodableIsLost(cfg: Config, s: Span)
    requires !EncodableSpan(s)
    ensures Run(cfg, Init, [Send(s), Shutdown]) == Some(State([], false, [Post([s], [], 0, Finished(Unencodable))]))
  {
    hide EncodableSpan;
    var es := [Send(s), Shutdown];
    var mid := Apply(cfg, Init, Send(s));
    var post := Post([s], [], 0, Finished(Unencodable));
    assert [] + [s] == [s] && !EncodableBatch([s]) by { assert [s][0] == s; }
    assert NewPost(cfg, [s]) == post && [] + [post] == [post];
    var last := Apply(cfg, mid, Shutdown);
    assert last == State([], false, [post]);
    assert es[1..] == [Shutdown] && [Shutdown][1..] == [];
    assert Run(cfg, last, []) == Some(last);
    assert Run(cfg, mid, [Shutdown]) == Some(last);
  }
}
