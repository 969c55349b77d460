/**
 TjClient (sdk-ts/src/client.ts): the object whose methods take the steps of the
 delivery machine, and the retry loop run start to finish.
 */
module Client {
  import opened Prelude
  import opened Spans
  import opened Delivery
  import opened DeliveryRuns
  import opened Statuses

  /** The client.  `posts` are the posts it has started, oldest first, each suspended where it awaits. */
  class TjClient {
    const cfg: Config
    var buffer: seq<Span>
    var timer: bool
    var posts: seq<Post>

    constructor (batchSize: int, maxRetries: int)
      ensures cfg == Config(batchSize, maxRetries)
      ensures View() == Init
    {
      cfg := Config(batchSize, maxRetries);
      buffer := [];
      timer := false;
      posts := [];
    }

    ghost function View(): State
      reads this
    {
      State(buffer, timer, posts)
    }

    method StartTimer()
      modifies this`timer
      ensures View() == Apply(cfg, old(View()), Start)
    {
      if timer {
        return;
      }
      timer := true;
    }

    method SendSpan(span: Span)
      modifies this
      ensures View() == Apply(cfg, old(View()), Send(span))
    {
      buffer := buffer + [span];
      if |buffer| >= cfg.batchSize {
        var _, _ := FlushBuffer();
      }
    }

    /**
     The batch taken out of the buffer, or None on an empty one.  `raised` says that turning it into
     a body threw; the batch is gone from the buffer all the same.
     */
    method FlushBuffer() returns (batch: Option<seq<Span>>, raised: bool)
      modifies this
      ensures View() == Apply(cfg, old(View()), Flush)
      ensures batch == if old(buffer) == [] then None else Some(old(buffer))
      ensures raised <==> exists i :: 0 <= i < |old(buffer)| && !EncodableSpan(old(buffer)[i])
    {
      if |buffer| == 0 {
        return None, false;
      }
      var spans := buffer;
      buffer := [];
      posts := posts + [NewPost(cfg, spans)];
      return Some(spans), !EncodableBatch(spans);
    }

    method OnInterval()
      requires Enabled(View(), Tick)
      modifies this
      ensures View() == Apply(cfg, old(View()), Tick)
    {
      var _, _ := FlushBuffer();
    }

    method Close()
      modifies this
      ensures View() == Apply(cfg, old(View()), Shutdown)
    {
      if timer {
        timer := false;
      }
      var _, _ := FlushBuffer();
    }

    /** A suspended `fetch` of post `i` settles. */
    method ReplyArrives(i: nat, r: Reply)
      requires Enabled(View(), Answer(i, r))
      modifies this`posts
      ensures View() == Apply(cfg, old(View()), Answer(i, r))
    {
      posts := posts[i := OnAnswer(cfg, posts[i], r)];
    }

    /** The back-off timer of post `i` fires. */
    method BackoffEnds(i: nat)
      requires Enabled(View(), Wake(i))
      modifies this`posts
      ensures View() == Apply(cfg, old(View()), Wake(i))
    {
      posts := posts[i := OnWake(posts[i])];
    }
  }

  /**
   A batch is turned into a body, and then the loop of `post` runs against a server that would
   answer attempt k with replies[k].  `bodies` are the bodies posted.
   */
  method PostBatch(cfg: Config, batch: seq<Span>, replies: seq<Reply>)
    returns (outcome: Outcome, bodies: seq<seq<Span>>, waited: nat)
    requires cfg.maxRetries < |replies|
    ensures |bodies| <= |replies|
    ensures Explained(cfg, Post(batch, replies[..|bodies|], waited, Finished(outcome)))
    ensures EncodableBatch(batch) && cfg.maxRetries >= 0 ==> ByStatus(cfg, replies, |bodies|, waited, outcome)
    ensures forall k :: 0 <= k < |bodies| ==> bodies[k] == batch
  {
    hide ByStatus;
    var lastError := None;
    bodies := [];
    waited := 0;
    if !EncodableBatch(batch) {
      return Unencodable, bodies, waited;
    }
    var attempt := 0;
    while attempt <= cfg.maxRetries
      invariant |bodies| == attempt
      invariant attempt <= Max(0, cfg.maxRetries + 1)
      invariant AllRetriable(replies[..attempt])
      invariant attempt == 0 ==> lastError == None && waited == 0
      invariant attempt > 0 ==> lastError == Some(replies[attempt - 1]) && waited == 2000 * (Pow2(attempt - 1) - 1)
      invariant forall k :: 0 <= k < |bodies| ==> bodies[k] == batch
    {
      if attempt > 0 {
        waited := waited + Backoff(attempt);
      }
      bodies := bodies + [batch];
      var response := replies[attempt];
      assert replies[..attempt + 1][..attempt] == replies[..attempt];
      match Judge(response) {
        case Accept =>
          outcome := if response.json then Ingested else Unreadable;
          ExplainedByStatus(cfg, Post(batch, replies[..|bodies|], waited, Finished(outcome)), replies);
          return;
        case Refuse =>
          outcome := Refused(response);
          ExplainedByStatus(cfg, Post(batch, replies[..|bodies|], waited, Finished(outcome)), replies);
          return;
        case Retry =>
      }
      lastError := Some(response);
      attempt := attempt + 1;
    }
    outcome := match lastError { case Some(e) => GaveUp(e) case None => NeverTried };
    if attempt > 0 {
      assert replies[..attempt][..attempt - 1] == replies[..attempt - 1];
      ExplainedByStatus(cfg, Post(batch, replies[..|bodies|], waited, Finished(outcome)), replies);
    }
  }

  /**
   The same server answers decide a post the same way however its attempts are
   interleaved with the rest of the machine: two finished records that read a
   prefix of the same replies are equal.
   */
  lemma {:induction false} ServerDecides(cfg: Config, p: Post, q: Post, server: seq<Reply>)
    requires Explained(cfg, p) && Explained(cfg, q)
    requires p.phase.Finished? && q.phase.Finished?
    requires p.batch == q.batch && p.replies <= server && q.replies <= server
    ensures p == q
  {
    if cfg.maxRetries >= 0 && EncodableBatch(p.batch) {
      ShorterIsNotDecisive(cfg, p, q, server);
      ShorterIsNotDecisive(cfg, q, p, server);
    }
  }

  lemma {:induction false} ShorterIsNotDecisive(cfg: Config, p: Post, q: Post, server: seq<Reply>)
    requires cfg.maxRetries >= 0 && EncodableBatch(p.batch) && EncodableBatch(q.batch)
    requires Explained(cfg, p) && Explained(cfg, q)
    requires p.phase.Finished? && q.phase.Finished?
    requires p.replies <= server && q.replies <= server
    ensures |p.replies| >= |q.replies|
  {
    AllButLastRetriable(cfg, q);
    assert p.replies[|p.replies| - 1] == server[|p.replies| - 1];
  }

  lemma {:induction false} AllButLastRetriable(cfg: Config, q: Post)
    requires cfg.maxRetries >= 0 && EncodableBatch(q.batch)
    requires Explained(cfg, q) && q.phase.Finished?
    ensures forall k :: 0 <= k < |q.replies| - 1 ==> Judge(q.replies[k]) == Retry
  {
    forall k | 0 <= k < |q.replies| - 1 ensures Judge(q.replies[k]) == Retry {
      assert q.replies[..|q.replies| - 1][k] == q.replies[k];
    }
  }

  /**
   The machine agrees with the loop: a post that finished in some schedule carries the
   outcome, the number of attempts and the waiting time that PostBatch promises for the
   same server answers.
   */
  lemma {:induction false} MachineAgreesWithLoop(cfg: Config, es: seq<Event>, st: State, i: nat, server: seq<Reply>,
                                                 outcome: Outcome, attempts: nat, waited: nat)
    requires Run(cfg, Init, es) == Some(st)
    requires i < |st.posts| && st.posts[i].phase.Finished? && st.posts[i].replies <= server
    requires attempts <= |server|
    requires Explained(cfg, Post(st.posts[i].batch, server[..attempts], waited, Finished(outcome)))
    ensures st.posts[i].phase == Finished(outcome)
    ensures |st.posts[i].replies| == attempts && st.posts[i].waited == waited
  {
    Accounts(cfg, es, st);
    ServerDecides(cfg, st.posts[i], Post(st.posts[i].batch, server[..attempts], waited, Finished(outcome)), server);
  }
}
