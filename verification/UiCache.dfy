/**
 The cached index page (tokenjam/api/app.py).  The routes are coroutines without an await, so
 requests are served one at a time; the file is changed by other programs at any moment, also
 between a request's stat and its read.
 */
module UiCache {
  import opened Prelude

  datatype Cache = Cache(html: string, mtime: Option<int>)

  const COLD := Cache("", None)

  class UiServer {
    var html: string
    var mtime: Option<int>

    constructor ()
      ensures Cached() == COLD
    {
      html := "";
      mtime := None;
    }

    function Cached(): Cache
      reads this
    {
      Cache(html, mtime)
    }

    /**
     `_load_index_html`; `stamp` is what stat gives and `text` what a read gives, None where they
     raise or the bytes are not UTF-8.
     */
    method LoadIndexHtml(stamp: Option<int>, text: Option<string>) returns (page: string)
      modifies this
      ensures Cached() == Loaded(old(Cached()), stamp, text)
      ensures page == html
    {
      if stamp.None? {
        return html;
      }
      if mtime != stamp && text.Some? {
        html := text.value;
        mtime := stamp;
      }
      return html;
    }
  }

  function Loaded(c: Cache, stamp: Option<int>, text: Option<string>): Cache {
    if stamp.Some? && stamp != c.mtime && text.Some? then Cache(text.value, stamp) else c
  }

  // ---------------------------------------------------------------------
  // Requests and writers
  // ---------------------------------------------------------------------

  /** The file; `text` is None where its bytes are not UTF-8, as in the middle of a write. */
  datatype File = Absent | Present(mtime: int, text: Option<string>)

  /** `shown` lists every text the file has held. */
  datatype World = World(file: File, clock: int, cache: Cache, shown: set<string>)

  /** A request sees `meanwhile` change the file between its stat and its read, each of which may fail. */
  datatype Event = Change(file: File) | Request(statFails: bool, meanwhile: seq<File>, readFails: bool)

  /** A write gives the file a modification time it never had. */
  predicate Fresh(clock: int, f: File) { f.Present? ==> f.mtime > clock }

  function Changed(w: World, f: File): World {
    w.(file := f,
       clock := if f.Present? then f.mtime else w.clock,
       shown := if f.Present? && f.text.Some? then w.shown + {f.text.value} else w.shown)
  }

  predicate FreshAll(w: World, fs: seq<File>)
    decreases |fs|
  {
    fs == [] || (Fresh(w.clock, fs[0]) && FreshAll(Changed(w, fs[0]), fs[1..]))
  }

  function ChangedAll(w: World, fs: seq<File>): World
    decreases |fs|
  {
    if fs == [] then w else ChangedAll(Changed(w, fs[0]), fs[1..])
  }

  predicate Enabled(w: World, e: Event) {
    match e
    case Change(f) => Fresh(w.clock, f)
    case Request(_, meanwhile, _) => FreshAll(w, meanwhile)
  }

  function Stamp(f: File, fails: bool): Option<int> {
    if f.Absent? || fails then None else Some(f.mtime)
  }

  function Text(f: File, fails: bool): Option<string> {
    if f.Absent? || fails then None else f.text
  }

  function Step(w: World, e: Event): World {
    match e
    case Change(f) => Changed(w, f)
    case Request(statFails, meanwhile, readFails) =>
      var after := ChangedAll(w, meanwhile);
      after.(cache := Loaded(w.cache, Stamp(w.file, statFails), Text(after.file, readFails)))
  }

  predicate Runs(w: World, es: seq<Event>)
    decreases |es|
  {
    es == [] || (Enabled(w, es[0]) && Runs(Step(w, es[0]), es[1..]))
  }

  function Run(w: World, es: seq<Event>): World
    decreases |es|
  {
    if es == [] then w else Run(Step(w, es[0]), es[1..])
  }

  /** The server starts with a cold cache on whatever the file is. */
  function Boot(f: File): World {
    Changed(World(Absent, if f.Present? then f.mtime else 0, COLD, {""}), f)
  }

  // ---------------------------------------------------------------------
  // Coherence
  // ---------------------------------------------------------------------

  /** When the cached stamp is the file's, the cached page is the file's text. */
  predicate Coherent(w: World) {
    w.file.Present? && w.cache.mtime == Some(w.file.mtime) ==> w.file.text == Some(w.cache.html)
  }

  predicate Inv(w: World) {
    && Coherent(w)
    && w.cache.html in w.shown
    && (w.cache.mtime.Some? ==> w.cache.mtime.value <= w.clock)
    && (w.file.Present? ==> w.file.mtime <= w.clock)
    && (w.file.Present? && w.file.text.Some? ==> w.file.text.value in w.shown)
  }

  lemma {:induction false} ChangesKeepInv(w: World, fs: seq<File>)
    requires Inv(w) && FreshAll(w, fs)
    ensures var after := ChangedAll(w, fs);
            && Inv(after) && after.cache == w.cache && after.clock >= w.clock
            && (after.file == w.file || after.file.Absent? || after.file.mtime > w.clock)
    decreases |fs|
  {
    if fs != [] {
      ChangesKeepInv(Changed(w, fs[0]), fs[1..]);
    }
  }

  lemma {:induction false} StepKeepsInv(w: World, e: Event)
    requires Inv(w) && Enabled(w, e)
    ensures Inv(Step(w, e))
  {
    if e.Request? {
      ChangesKeepInv(w, e.meanwhile);
    }
  }

  /**
   In every run, however writers interleave with requests: when the cached stamp is the file's, the
   page is the file's text, and the page is never anything but a text the file has held, or empty.
   */
  lemma {:induction false} RunsStayCoherent(w: World, es: seq<Event>)
    requires Inv(w) && Runs(w, es)
    ensures Inv(Run(w, es))
    decreases |es|
  {
    if es != [] {
      StepKeepsInv(w, es[0]);
      RunsStayCoherent(Step(w, es[0]), es[1..]);
    }
  }

  lemma {:induction false} BootIsCoherent(f: File)
    ensures Inv(Boot(f))
  {}

  /**
   After any run, a request that can read the file and is not interrupted serves its current text,
   whatever failed before; a request that cannot read it leaves the cached pair alone.
   */
  lemma {:induction false} ServesCurrentText(f: File, es: seq<Event>, statFails: bool, readFails: bool)
    requires Runs(Boot(f), es)
    ensures var w := Run(Boot(f), es);
            var after := Step(w, Request(statFails, [], readFails));
            && (!statFails && !readFails && w.file.Present? && w.file.text.Some?
                ==> after.cache == Cache(w.file.text.value, Some(w.file.mtime)))
            && (statFails || readFails || w.file.Absent? || w.file.text.None? ==> after.cache == w.cache)
  {
    BootIsCoherent(f);
    RunsStayCoherent(Boot(f), es);
  }

  /**
   The new modification time is what it hinges on: a changed text is served, by the next request and
   by all that follow while the file stays, exactly when its time is not that of the cached copy.
   */
  lemma {:induction false} NoticedByItsTimeOnly(w: World, f: File, n: nat)
    requires f.Present? && f.text.Some? && f.text.value != w.cache.html && n > 0
    ensures Run(Changed(w, f), seq(n, _ => Request(false, [], false))).cache.html == f.text.value
       <==> w.cache.mtime != Some(f.mtime)
    ensures w.cache.mtime == Some(f.mtime)
       ==> Run(Changed(w, f), seq(n, _ => Request(false, [], false))).cache == w.cache
  {
    var first := Step(Changed(w, f), Request(false, [], false));
    var es := seq(n, _ => Request(false, [], false));
    assert es[1..] == seq(n - 1, _ => Request(false, [], false));
    SettledServer(first, n - 1);
  }

  lemma {:induction false} SettledServer(w: World, n: nat)
    requires w.file.Present? && w.cache.mtime == Some(w.file.mtime)
    ensures Run(w, seq(n, _ => Request(false, [], false))) == w
  {
    if n > 0 {
      var es := seq(n, _ => Request(false, [], false));
      assert es[1..] == seq(n - 1, _ => Request(false, [], false));
      assert Step(w, es[0]) == w;
      SettledServer(w, n - 1);
    }
  }
}
