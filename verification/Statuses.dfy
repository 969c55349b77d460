/**
 The delivery machine by HTTP status (sdk-ts/src/client.ts): how often a batch is posted, and what
 becomes of it, for the numbers a server sends back.
 */
module Statuses {
  import opened Prelude
  import opened Spans
  import opened Delivery
  import opened DeliveryRuns

  predicate Success(r: Reply) { r.Http? && 200 <= r.status <= 299 }

  predicate ClientError(r: Reply) { r.Http? && 400 <= r.status <= 499 }

  /** A reply that ends a post; a network error and any other status do not. */
  predicate Settles(r: Reply) { Success(r) || ClientError(r) }

  /** The attempts made with `left` retries left: up to the first reply that settles, or all of them. */
  function Attempts(left: nat, server: seq<Reply>): (n: nat)
    requires left < |server|
    ensures 0 < n <= left + 1
    ensures forall k :: 0 <= k < n - 1 ==> !Settles(server[k])
    ensures n == left + 1 || Settles(server[n - 1])
  {
    if left == 0 || Settles(server[0]) then 1 else 1 + Attempts(left - 1, server[1..])
  }

  /** What the last reply makes of the batch. */
  predicate EndsAs(o: Outcome, last: Reply) {
    && (o == Ingested <==> Success(last) && last.json)
    && (o == Unreadable <==> Success(last) && !last.json)
    && (o == Refused(last) <==> ClientError(last))
    && (o == GaveUp(last) <==> !Settles(last))
    && o in {Ingested, Unreadable, Refused(last), GaveUp(last)}
  }

  /** The history of a finished post of an encodable batch, against a server that answers attempt k with server[k]. */
  ghost predicate ByStatus(cfg: Config, server: seq<Reply>, attempts: nat, waited: nat, o: Outcome)
    requires 0 <= cfg.maxRetries < |server|
  {
    && attempts == Attempts(cfg.maxRetries, server)
    && EndsAs(o, server[attempts - 1])
    && waited == 2000 * (Pow2(attempts - 1) - 1)
  }

  lemma {:induction false} AttemptsAre(left: nat, server: seq<Reply>, n: nat)
    requires left < |server| && 0 < n <= left + 1
    requires forall k :: 0 <= k < n - 1 ==> !Settles(server[k])
    requires n == left + 1 || Settles(server[n - 1])
    ensures Attempts(left, server) == n
  {
    if n > 1 {
      assert !Settles(server[0]);
      AttemptsAre(left - 1, server[1..], n - 1);
    }
  }

  lemma {:induction false} VerdictByStatus(r: Reply)
    ensures Judge(r) == Accept <==> Success(r)
    ensures Judge(r) == Refuse <==> ClientError(r)
    ensures Judge(r) == Retry <==> !Settles(r)
  {}

  /** The record the machine keeps of a finished post, by status. */
  lemma {:induction false} ExplainedByStatus(cfg: Config, p: Post, server: seq<Reply>)
    requires Explained(cfg, p) && p.phase.Finished? && EncodableBatch(p.batch)
    requires 0 <= cfg.maxRetries < |server| && p.replies <= server
    ensures ByStatus(cfg, server, |p.replies|, p.waited, p.phase.outcome)
  {
    hide EncodableBatch, Pow2;
    var n := |p.replies|;
    forall k | 0 <= k < n ensures Judge(server[k]) == Retry <==> !Settles(server[k]) {
      VerdictByStatus(server[k]);
    }
    forall k | 0 <= k < n - 1 ensures !Settles(server[k]) {
      assert p.replies[..n - 1][k] == server[k];
    }
    VerdictByStatus(server[n - 1]);
    AttemptsAre(cfg.maxRetries, server, n);
  }

  /**
   After any schedule: a post that finished was attempted once more than the server's replies before
   the first 2xx or 4xx, or as often as retries allow; it is ingested on a 2xx alone, refused on a 4xx
   alone, and given up on anything else.
   */
  lemma {:induction false} FinishedByStatus(cfg: Config, es: seq<Event>, st: State, i: nat, server: seq<Reply>)
    requires Run(cfg, Init, es) == Some(st)
    requires i < |st.posts| && st.posts[i].phase.Finished? && EncodableBatch(st.posts[i].batch)
    requires 0 <= cfg.maxRetries < |server| && st.posts[i].replies <= server
    ensures ByStatus(cfg, server, |st.posts[i].replies|, st.posts[i].waited, st.posts[i].phase.outcome)
    ensures FateOf(st.posts[i]) == Delivered <==> Success(server[|st.posts[i].replies| - 1])
  {
    hide ByStatus;
    Accounts(cfg, es, st);
    ExplainedByStatus(cfg, st.posts[i], server);
    assert ByStatus(cfg, server, |st.posts[i].replies|, st.posts[i].waited, st.posts[i].phase.outcome);
    DeliveredByStatus(cfg, st.posts[i], server);
  }

  lemma {:induction false} DeliveredByStatus(cfg: Config, p: Post, server: seq<Reply>)
    requires 0 <= cfg.maxRetries < |server| && p.phase.Finished?
    requires ByStatus(cfg, server, |p.replies|, p.waited, p.phase.outcome)
    ensures FateOf(p) == Delivered <==> Success(server[|p.replies| - 1])
  {}

  /**
   While attempts remain, a network error or a status other than 2xx and 4xx leads to another one, after
   the back-off; a 2xx or a 4xx ends the post at once.
   */
  lemma {:induction false} RetriedByStatus(cfg: Config, st: State, i: nat, r: Reply)
    requires Enabled(st, Answer(i, r))
    ensures var p := Apply(cfg, st, Answer(i, r)).posts[i];
            && p.replies == st.posts[i].replies + [r]
            && (p.phase.Finished? <==> Settles(r) || |st.posts[i].replies| >= cfg.maxRetries)
            && (!p.phase.Finished? ==>
                  && Enabled(Apply(cfg, st, Answer(i, r)), Wake(i))
                  && Apply(cfg, Apply(cfg, st, Answer(i, r)), Wake(i)).posts[i].phase == Fetching)
  {
    VerdictByStatus(r);
  }

  // ---------------------------------------------------------------------
  // When the buffer is posted
  // ---------------------------------------------------------------------

  lemma {:induction false} LastStep(cfg: Config, st: State, es: seq<Event>, e: Event, next: State)
    requires Run(cfg, st, es + [e]) == Some(next)
    ensures exists mid :: Run(cfg, st, es) == Some(mid) && Enabled(mid, e) && next == Apply(cfg, mid, e)
    decreases |es|
  {
    hide Apply, Enabled;
    if es == [] {
      assert (es + [e])[0] == e && (es + [e])[1..] == [];
      assert Run(cfg, st, es) == Some(st);
    } else {
      assert (es + [e])[0] == es[0] && (es + [e])[1..] == es[1..] + [e];
      LastStep(cfg, Apply(cfg, st, es[0]), es[1..], e, next);
    }
  }

  lemma {:induction false} SentMore(es: seq<Event>, e: Event)
    ensures Sent(es + [e]) == Sent(es) + SentBy(e)
  {
    if es == [] {
      assert es + [e] == [e] && [e][1..] == [];
      assert SentBy(e) + [] == SentBy(e) && [] + SentBy(e) == SentBy(e);
    } else {
      assert (es + [e])[1..] == es[1..] + [e];
      SentMore(es[1..], e);
    }
  }

  /** A flush, a tick of the timer and a shutdown post whatever was sent and not yet posted. */
  lemma {:induction false} NothingHeldBack(cfg: Config, es: seq<Event>, e: Event, st: State)
    requires e in {Flush, Tick, Shutdown} && Run(cfg, Init, es + [e]) == Some(st)
    ensures st.buffer == [] && Flatten(Batches(st.posts)) == Sent(es)
  {
    LastStep(cfg, Init, es, e, st);
    Accounts(cfg, es + [e], st);
    SentMore(es, e);
    assert Sent(es) + [] == Sent(es);
    assert Flatten(Batches(st.posts)) + [] == Flatten(Batches(st.posts));
  }

  /** A send posts exactly when it fills a batch, and then the whole buffer goes as one post. */
  lemma {:induction false} FullBatchesOnly(cfg: Config, es: seq<Event>, s: Span, st: State, next: State)
    requires Run(cfg, Init, es) == Some(st) && Run(cfg, Init, es + [Send(s)]) == Some(next)
    ensures next.posts == st.posts <==> |st.buffer| + 1 < cfg.batchSize
    ensures next.posts == st.posts ==> next.buffer == st.buffer + [s]
    ensures next.posts != st.posts ==>
              && next.buffer == [] && |next.posts| == |st.posts| + 1
              && next.posts[|st.posts|].batch == st.buffer + [s] && next.posts[..|st.posts|] == st.posts
              && (|st.buffer| + 1 == cfg.batchSize || |st.buffer| == 0)
  {
    LastStep(cfg, Init, es, Send(s), next);
    Accounts(cfg, es, st);
  }

  /** The last of start and shutdown was a start. */
  predicate Started(es: seq<Event>) {
    es != [] && match es[|es| - 1] case Start => true case Shutdown => false case _ => Started(es[..|es| - 1])
  }

  /** The timer runs, and ticks, exactly from a start to the next shutdown. */
  lemma {:induction false} TimerRuns(cfg: Config, es: seq<Event>, st: State)
    requires Run(cfg, Init, es) == Some(st)
    ensures st.timer <==> Started(es)
    ensures Enabled(st, Tick) <==> Started(es)
    decreases |es|
  {
    if es != [] {
      var before, e := es[..|es| - 1], es[|es| - 1];
      assert es == before + [e];
      LastStep(cfg, Init, before, e, st);
      var mid :| Run(cfg, Init, before) == Some(mid) && Enabled(mid, e) && st == Apply(cfg, mid, e);
      TimerRuns(cfg, before, mid);
    }
  }
}
