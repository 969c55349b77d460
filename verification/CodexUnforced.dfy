/**
 Onboarding for Codex without --force (tokenjam/cli/cmd_onboard.py): what the file keeps, and that an
 otel table that is there is left as it is.
 */
module CodexUnforced {
  import opened Prelude
  import opened TextScan
  import opened Codex
  import opened CodexScans
  import opened CodexRewrite
  import opened CodexConverges
  import opened CodexLines
  import opened CodexServer
  import opened CodexLegacy

  /** One onboard without --force; `present` says whether the purged file parses to something with an otel table. */
  function Onboard(block: string, present: bool, content: string): string {
    RetireServer(ApplyBlock(Purge(content), present, block, false))
  }

  /** The tables that go without --force. */
  ghost function Dropped(content: string): set<string> {
    (if LegacyMarked(Cut(OCW_SERVER, content)) then OURS else {OCW_SERVER})
    + (if Marked(TableText(content)) then {TJ_SERVER} else {})
  }

  lemma {:induction false} PurgeLeavesOwner(content: string)
    requires Neat(EVERY, content)
    ensures Owns(Purge(content)) <==> Owns(content)
    ensures Count(TJ_SERVER, Purge(content)) <= Count(TJ_SERVER, content)
  {
    hide Owns, Header, Neat, KeptLines, HasLegacyOtel, Cut, CutAll, Collapse, Trim, Tidied, EVERY, Count;
    OtherHeaders();
    OursAreHeaders();
    ServerHeaders();
    var c := Cut(OCW_SERVER, content);
    CutKeeps(EVERY, OCW_SERVER, content);
    OwnsCut(EVERY, OCW_SERVER, content);
    CountAfterCut(OCW_SERVER, TJ_SERVER, content);
    var x := if HasLegacyOtel(c) then CutAll(PURGE_ORDER, c) else c;
    OwnsCutAll(EVERY, PURGE_ORDER, c);
    CountAfterCutAll(PURGE_ORDER, TJ_SERVER, c);
    OwnsCollapsed(x);
    CountCollapsed(TJ_SERVER, x);
    OwnsTidied(Collapse(x));
    CountTidied(TJ_SERVER, Collapse(x));
  }

  /** The purged text starts with no white space. */
  lemma {:induction false} PurgedStart(content: string)
    ensures TrimRight(Purge(content)) == Trim(Purge(content))
  {
    hide Cut, CutAll, Collapse, HasLegacyOtel, TrimLeft, TrimRight;
    var c := Cut(OCW_SERVER, content);
    TidiedStart(Collapse(if HasLegacyOtel(c) then CutAll(PURGE_ORDER, c) else c));
  }

  lemma {:induction false} TidiedStart(t: string)
    ensures TrimLeft(Tidied(t)) == Tidied(t)
  {
    TrimIsTrimmed(t);
  }

  lemma {:induction false} Appended(block: string, content: string)
    ensures ApplyBlock(Purge(content), false, block, false) == Canon(block, Trim(Purge(content)))
  {
    hide Purge, Trim;
    PurgedStart(content);
    BlankTrims(Purge(content));
  }

  lemma {:induction false} BlankTrims(t: string)
    ensures TrimRight(t) == Trim(t) ==> (Trim(t) != "" <==> TrimRight(t) != "")
  {}

  lemma {:induction false} OwnerOfFile(content: string)
    requires Neat(EVERY, content)
    ensures Owns(content) <==> Marked(TableText(content))
  {
    hide Owns, Marked, Header, OursAnywhere, Joined, Lines, Flush;
    ServerHeadsOnly(content);
    OwnsTable(content);
    OursIsMarked(TableText(content));
  }

  /**
   Where there is an otel table, the lines kept are those outside the legacy tables and a tj server table that
   is marked, the user's otel tables among them; the block is not written.
   */
  lemma {:induction false} PresentStays(block: string, content: string)
    requires Neat(EVERY, content) && Count(TJ_SERVER, content) <= 1
    ensures UpToTheEnd(KeptLines({}, Onboard(block, true, content)), KeptLines(Dropped(content), content))
  {
    hide Owns, OwnsServer, Marked, Header, KeptLines, Purge, Neat, Count, Cut, Collapse, Tidied, RetireServer,
         LegacyMarked, TableText, UpToTheEnd, EVERY;
    var p := Purge(content);
    PurgeLeavesOwner(content);
    OwnerOfFile(content);
    OwnsMeans(p);
    var gs: set<string> := if Marked(TableText(content)) then {TJ_SERVER} else {};
    OtherHeaders();
    PurgedExactly(content, gs);
    assert gs + (if LegacyMarked(Cut(OCW_SERVER, content)) then OURS else {OCW_SERVER}) == Dropped(content);
    if OwnsServer(p) {
      RetireIsCut(p);
      CutKeeps(EVERY, TJ_SERVER, p);
      assert {} + {TJ_SERVER} == gs;
      TidyKeeps(EVERY, Cut(TJ_SERVER, p), {});
      StillUpToTheEnd(KeptLines({}, RetireServer(p)), KeptLines(gs, p), KeptLines(Dropped(content), content));
    } else {
      RetiresNothing(p);
    }
  }

  /** Where there is none, the lines of the block come behind the same lines. */
  lemma {:induction false} AbsentIsAdded(block: string, content: string)
    requires TomlBlock(block) && Neat(EVERY, content) && Count(TJ_SERVER, content) <= 1
    ensures var r, k := KeptLines({}, Onboard(block, false, content)), KeptLines(Dropped(content), content);
            |r| >= |k| && UpToTheEnd(r[..|k|], k) && r[|k|..] == KeptLines({}, block)
  {
    hide Owns, OwnsServer, Marked, Header, KeptLines, Purge, Neat, Count, Cut, Collapse, Tidied, RetireServer,
         LegacyMarked, TableText, UpToTheEnd, EVERY, TomlBlock, Canon, Trim, ApplyBlock;
    var p := Purge(content);
    var w := Trim(p);
    var t := Canon(block, w);
    Appended(block, content);
    PurgeLeavesOwner(content);
    OwnerOfFile(content);
    OwnsTrimmed(p);
    OwnerInFront(block, w);
    var gs: set<string> := if Marked(TableText(content)) then {TJ_SERVER} else {};
    OtherHeaders();
    OursAreHeaders();
    PurgedExactly(content, gs);
    TrimKeeps(EVERY, p, gs);
    assert gs + (if LegacyMarked(Cut(OCW_SERVER, content)) then OURS else {OCW_SERVER}) == Dropped(content);
    var left, b := KeptLines(gs, w), KeptLines({}, block);
    StillUpToTheEnd(left, KeptLines(gs, p), KeptLines(Dropped(content), content));
    FewerHeaders({TJ_SERVER}, EVERY, w);
    CanonKeeps(w, block, gs);
    if OwnsServer(t) {
      OneServerInAll(block, w) by { CountTrimmed(TJ_SERVER, p); }
      RetireIsCut(t);
      CutKeeps({TJ_SERVER}, TJ_SERVER, t);
      assert {} + {TJ_SERVER} == gs;
      TidyKeeps({TJ_SERVER}, Cut(TJ_SERVER, t), {}) by { ServerHeaders(); }
      BlockEnds(block);
      NothingToLose(KeptLines({}, RetireServer(t)), left, b);
    } else {
      RetiresNothing(t);
    }
    assert (left + b)[..|left|] == left && (left + b)[|left|..] == b;
    SameLength(left, KeptLines(Dropped(content), content));
  }

  lemma {:induction false} SameLength(a: seq<string>, b: seq<string>)
    requires UpToTheEnd(a, b)
    ensures |a| == |b|
  {}

  lemma {:induction false} OneServerInAll(block: string, w: string)
    requires TomlBlock(block) && Count(TJ_SERVER, w) <= 1
    ensures Count(TJ_SERVER, Canon(block, w)) <= 1
  {
    hide Occurs, Header, TomlBlock, Count;
    ServerHeaders();
    BlockFacts(block);
    SpacedFacts(w, block);
    FenceBlock(block);
    CountFence(TJ_SERVER, Spaced(w), block);
    CountZero(TJ_SERVER, block);
  }
}
