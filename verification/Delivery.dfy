/**
 The span delivery machine of the TypeScript SDK (sdk-ts/src/client.ts).

 Every async method of the client runs without interruption up to its first
 `await`, so "push, test the length, splice the buffer, start the post" is one
 step, and a post advances one step each time a reply arrives or its back-off
 timer fires.  Any number of posts may be under way at once, and the events
 below may come in any order.
 */
module Delivery {
  import opened Prelude
  import opened Spans

  /** batchSize and maxRetries are caller-supplied numbers; nothing bounds them from below. */
  datatype Config = Config(batchSize: int, maxRetries: int)

  /** What one `fetch` brings back: it rejects, or yields a status and a body that may not be JSON. */
  datatype Reply = NetworkError | Http(status: int, json: bool)

  datatype Verdict = Accept | Refuse | Retry

  /** The three-way split of a reply made inside the retry loop. */
  function Judge(r: Reply): Verdict {
    match r
    case NetworkError => Retry
    case Http(status, _) =>
      if 200 <= status < 300 then Accept
      else if 400 <= status < 500 then Refuse
      else Retry
  }

  /**
   How a post ends.  Unencodable: building the body threw, after the batch had left the buffer.
   Unreadable: the server accepted, but its JSON answer could not be read.
   */
  datatype Outcome = Unencodable | Ingested | Unreadable | Refused(why: Reply) | GaveUp(last: Reply) | NeverTried

  datatype Phase = Fetching | BackingOff | Finished(outcome: Outcome)

  /** One batch on its way: the replies seen so far and the milliseconds spent waiting. */
  datatype Post = Post(batch: seq<Span>, replies: seq<Reply>, waited: nat, phase: Phase)

  datatype State = State(buffer: seq<Span>, timer: bool, posts: seq<Post>)

  datatype Event =
    | Start
    | Send(span: Span)
    | Flush
    | Tick
    | Shutdown
    | Answer(post: nat, reply: Reply)
    | Wake(post: nat)

  const Init := State([], false, [])

  // ---------------------------------------------------------------------
  // Steps
  // ---------------------------------------------------------------------

  /** The delay before attempt number `attempt`. */
  function Backoff(attempt: nat): nat
    requires attempt > 0
  {
    2000 * Pow2(attempt - 1)
  }

  function NewPost(cfg: Config, batch: seq<Span>): Post {
    Post(batch, [], 0,
         if !EncodableBatch(batch) then Finished(Unencodable)
         else if cfg.maxRetries < 0 then Finished(NeverTried)
         else Fetching)
  }

  function Settle(r: Reply): Outcome
    requires Judge(r) != Retry
  {
    if Judge(r) == Refuse then Refused(r) else if r.json then Ingested else Unreadable
  }

  function OnAnswer(cfg: Config, p: Post, r: Reply): Post
    requires p.phase == Fetching
  {
    var replies := p.replies + [r];
    p.(replies := replies,
       phase := if Judge(r) != Retry then Finished(Settle(r))
                else if |replies| <= cfg.maxRetries then BackingOff
                else Finished(GaveUp(r)))
  }

  function OnWake(p: Post): Post
    requires p.phase == BackingOff && p.replies != []
  {
    p.(waited := p.waited + Backoff(|p.replies|), phase := Fetching)
  }

  /** `flush` up to its first suspension: nothing on an empty buffer, otherwise one new post. */
  function DoFlush(cfg: Config, st: State): State {
    if st.buffer == [] then st
    else State([], st.timer, st.posts + [NewPost(cfg, st.buffer)])
  }

  predicate Enabled(st: State, e: Event) {
    match e
    case Tick => st.timer
    case Answer(i, _) => i < |st.posts| && st.posts[i].phase == Fetching
    case Wake(i) => i < |st.posts| && st.posts[i].phase == BackingOff && st.posts[i].replies != []
    case _ => true
  }

  function Apply(cfg: Config, st: State, e: Event): State
    requires Enabled(st, e)
  {
    match e
    case Start => st.(timer := true)
    case Send(s) =>
      var pushed := st.(buffer := st.buffer + [s]);
      if |pushed.buffer| >= cfg.batchSize then DoFlush(cfg, pushed) else pushed
    case Flush => DoFlush(cfg, st)
    case Tick => DoFlush(cfg, st)
    case Shutdown => DoFlush(cfg, st.(timer := false))
    case Answer(i, r) => st.(posts := st.posts[i := OnAnswer(cfg, st.posts[i], r)])
    case Wake(i) => st.(posts := st.posts[i := OnWake(st.posts[i])])
  }

  /** The state reached by a schedule, or None when some event of it cannot happen. */
  function Run(cfg: Config, st: State, es: seq<Event>): Option<State>
    decreases |es|
  {
    if es == [] then Some(st)
    else if Enabled(st, es[0]) then Run(cfg, Apply(cfg, st, es[0]), es[1..])
    else None
  }

  // ---------------------------------------------------------------------
  // What a schedule asked for, and what a state holds
  // ---------------------------------------------------------------------

  function SentBy(e: Event): seq<Span> {
    if e.Send? then [e.span] else []
  }

  /** The spans handed to `send`, in order. */
  function Sent(es: seq<Event>): seq<Span> {
    if es == [] then [] else SentBy(es[0]) + Sent(es[1..])
  }

  function Batches(posts: seq<Post>): seq<seq<Span>> {
    seq(|posts|, i requires 0 <= i < |posts| => posts[i].batch)
  }

  /** All batches in the order they left the buffer, then the buffer. */
  function Everything(st: State): seq<Span> {
    Flatten(Batches(st.posts)) + st.buffer
  }

  datatype Fate = InFlight | Delivered | Dropped

  function FateOf(p: Post): Fate {
    match p.phase
    case Finished(o) => if o.Ingested? || o.Unreadable? then Delivered else Dropped
    case _ => InFlight
  }

  function Share(f: Fate, p: Post): seq<Span> {
    if FateOf(p) == f then p.batch else []
  }

  /** The spans of the posts that met a given fate, in order. */
  function Held(f: Fate, posts: seq<Post>): seq<Span> {
    if posts == [] then [] else Share(f, posts[0]) + Held(f, posts[1..])
  }

  // ---------------------------------------------------------------------
  // Invariant
  // ---------------------------------------------------------------------

  ghost predicate AllRetriable(rs: seq<Reply>) {
    forall j :: 0 <= j < |rs| ==> Judge(rs[j]) == Retry
  }

  /** The outcome that the last reply, number n, calls for. */
  ghost predicate Decides(cfg: Config, last: Reply, n: nat, o: Outcome) {
    match o
    case Ingested => last.Http? && Judge(last) == Accept && last.json
    case Unreadable => last.Http? && Judge(last) == Accept && !last.json
    case Refused(why) => Judge(last) == Refuse && why == last
    case GaveUp(r) => Judge(last) == Retry && r == last && n == cfg.maxRetries + 1
    case NeverTried => false
    case Unencodable => false
  }

  /** What the replies of a post say about its phase and about the time it spent waiting. */
  ghost predicate Explained(cfg: Config, p: Post) {
    var n := |p.replies|;
    match p.phase
    case Fetching =>
      EncodableBatch(p.batch) && n <= cfg.maxRetries && AllRetriable(p.replies) && p.waited == 2000 * (Pow2(n) - 1)
    case BackingOff =>
      && EncodableBatch(p.batch) && 0 < n <= cfg.maxRetries && AllRetriable(p.replies)
      && p.waited == 2000 * (Pow2(n - 1) - 1)
    case Finished(o) =>
      if !EncodableBatch(p.batch) then o == Unencodable && n == 0 && p.waited == 0
      else if cfg.maxRetries < 0 then o == NeverTried && n == 0 && p.waited == 0
      else
        && 0 < n <= cfg.maxRetries + 1
        && AllRetriable(p.replies[..n - 1])
        && p.waited == 2000 * (Pow2(n - 1) - 1)
        && Decides(cfg, p.replies[n - 1], n, o)
  }

  ghost predicate WellSized(cfg: Config, batch: seq<Span>) {
    0 < |batch| <= Max(1, cfg.batchSize)
  }

  ghost predicate Inv(cfg: Config, st: State) {
    && |st.buffer| < Max(1, cfg.batchSize)
    && forall i :: 0 <= i < |st.posts| ==> WellSized(cfg, st.posts[i].batch) && Explained(cfg, st.posts[i])
  }
}
