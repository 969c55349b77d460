/**
 The hooks and the status line in the words of settings.json (tokenjam/cli/cmd_onboard.py): what is
 written, and what is taken for ours.
 */
module SettingsWords {
  import opened Prelude
  import opened TextScan
  import opened Settings

  /** A hook whose command holds the marker; a command that is no text is read as Python shows it. */
  ghost predicate Runs(host: Host, marker: string, hook: Json) {
    && hook.Obj? && "command" in hook.fields
    && var c := hook.fields["command"];
       Occurs(marker, if c.Str? then c.s else host.str(c))
  }

  /** An object whose list of hooks has one that runs the marker. */
  ghost predicate HasHook(host: Host, marker: string, entry: Json) {
    && entry.Obj? && "hooks" in entry.fields && entry.fields["hooks"].Arr?
    && exists hook :: hook in entry.fields["hooks"].items && Runs(host, marker, hook)
  }

  lemma {:induction false} MatchesExactly(host: Host, marker: string, hook: Json)
    requires marker != ""
    ensures HookMatches(host, marker, hook) <==> Runs(host, marker, hook)
  {
    TooShort(marker, "");
  }

  /**
   An entry is taken for ours exactly when one of its hooks runs the marker; examining it raises exactly
   when its hooks are true or a number other than zero.
   */
  lemma {:induction false} ManagedExactly(host: Host, marker: string, entry: Json)
    requires marker != ""
    ensures IsManaged(host, marker, entry) == Some(true) <==> HasHook(host, marker, entry)
    ensures IsManaged(host, marker, entry) == None
       <==> entry.Obj? && "hooks" in entry.fields
            && (entry.fields["hooks"] == Bool(true) || (entry.fields["hooks"].Num? && !entry.fields["hooks"].zero))
  {
    hide HookMatches, Runs;
    if entry.Obj? && "hooks" in entry.fields && entry.fields["hooks"].Arr? {
      var items := entry.fields["hooks"].items;
      forall hook | hook in items ensures HookMatches(host, marker, hook) <==> Runs(host, marker, hook) {
        MatchesExactly(host, marker, hook);
      }
    }
  }

  /** The path of `tj`, or the bare name. */
  function Program(host: Host): string { match host.exe case Some(exe) => exe case None => "tj" }

  /** The hook that resumes with a brief. */
  function BriefEntry(host: Host): Json {
    var hook := map["type" := Str("command"), "command" := Str(Program(host) + " resume-brief --from-hook")];
    Obj(map["matcher" := Str("resume|compact"), "hooks" := Arr([Obj(hook)])])
  }

  lemma {:induction false} DesiredIs(host: Host)
    ensures Desired(host) == BriefEntry(host)
    ensures BRIEF_MARKER == "resume-brief" && CAP_MARKER == "hook cap-output"
  {}

  /** The entries under SessionStart, none where there is no such list. */
  function Listed(settings: Dict, key: string): seq<Json> {
    match Entries(settings, key) case Some(entries) => entries case None => []
  }

  /**
   Wiring leaves the brief's entry in place of the first entry that runs it, or behind all others where
   none does, and no other entry changes.  It skips settings whose hooks, or whose SessionStart, are of
   another shape.
   */
  lemma {:induction false} WiredExactly(host: Host, settings: Dict)
    requires WireBrief(host, settings).Done?
    ensures var r := WireBrief(host, settings);
            var before, after := Listed(settings, "SessionStart"), Listed(r.settings, "SessionStart");
            && (r.status == Skipped
                <==> "hooks" in settings
                     && (!settings["hooks"].Obj?
                         || ("SessionStart" in settings["hooks"].fields
                             && !settings["hooks"].fields["SessionStart"].Arr?
                             && settings["hooks"].fields["SessionStart"] != Null)))
            && (r.status == Written ==>
                  after == before + [BriefEntry(host)]
                  && forall e :: e in before ==> !HasHook(host, "resume-brief", e))
            && (r.status in {Updated, Kept} ==>
                  exists i :: 0 <= i < |before| && after == before[i := BriefEntry(host)]
                              && HasHook(host, "resume-brief", before[i])
                              && (before[i] == BriefEntry(host) <==> r.status == Kept)
                              && forall k :: 0 <= k < i ==> !HasHook(host, "resume-brief", before[k]))
            && r.status in {Written, Updated, Kept, Skipped}
  {
    hide IsManaged, HasHook, Desired, BriefEntry;
    DesiredIs(host);
    forall e ensures IsManaged(host, BRIEF_MARKER, e) == Some(true) <==> HasHook(host, "resume-brief", e) {
      ManagedExactly(host, "resume-brief", e);
    }
    match Entries(WithHooks(settings), "SessionStart") {
      case None =>
      case Some(entries) =>
        FirstManagedMeans(host, entries, 0);
        assert entries == Listed(settings, "SessionStart");
        match FirstManaged(host, entries, 0) {
          case At(i) =>
            assert entries[i] == Desired(host) ==> entries[i := Desired(host)] == entries;
            assert Listed(WireBrief(host, settings).settings, "SessionStart") == entries[i := Desired(host)];
          case _ =>
        }
    }
  }

  lemma {:induction false} ForeignExactly(host: Host, marker: string, entries: seq<Json>, e: Json)
    requires marker != ""
    ensures multiset(Foreign(host, marker, entries))[e]
         == if HasHook(host, marker, e) then 0 else multiset(entries)[e]
  {
    hide IsManaged, HasHook;
    if entries != [] {
      ForeignExactly(host, marker, entries[1..], e);
      ManagedExactly(host, marker, entries[0]);
      assert entries == [entries[0]] + entries[1..];
    }
  }

  /** Unwiring leaves exactly the entries that run neither the brief nor, for the other hook, the cap. */
  lemma {:induction false} UnwiredExactly(host: Host, settings: Dict, e: Json)
    ensures UnwireBrief(host, settings).Done? ==>
              multiset(Listed(UnwireBrief(host, settings).settings, "SessionStart"))[e]
              == if HasHook(host, "resume-brief", e) then 0 else multiset(Listed(settings, "SessionStart"))[e]
    ensures UnwireCap(host, settings).Done? ==>
              multiset(Listed(UnwireCap(host, settings).settings, "PostToolUse"))[e]
              == if HasHook(host, "hook cap-output", e) then 0 else multiset(Listed(settings, "PostToolUse"))[e]
  {
    DesiredIs(host);
    if UnwireBrief(host, settings).Done? {
      UnwiredOne(host, "resume-brief", "SessionStart", settings, e);
    }
    if UnwireCap(host, settings).Done? {
      UnwiredOne(host, "hook cap-output", "PostToolUse", settings, e);
    }
  }

  lemma {:induction false} UnwiredOne(host: Host, marker: string, key: string, settings: Dict, e: Json)
    requires marker != "" && Unwire(host, marker, key, settings).Done?
    ensures multiset(Listed(Unwire(host, marker, key, settings).settings, key))[e]
         == if HasHook(host, marker, e) then 0 else multiset(Listed(settings, key))[e]
  {
    hide IsManaged, HasHook, Foreign;
    match Entries(settings, key)
    case None =>
    case Some(entries) =>
      ForeignExactly(host, marker, entries, e);
      ForeignAll(host, marker, entries);
      DropFrame(settings, key);
  }

  /**
   Something is removed exactly when an entry runs the marker, and then no empty list is left under the key,
   nor an empty `hooks`.
   */
  lemma {:induction false} EmptiedGoes(host: Host, marker: string, key: string, settings: Dict)
    requires marker != "" && Unwire(host, marker, key, settings).Done?
    ensures var r := Unwire(host, marker, key, settings);
            && (r.status == Removed <==> exists e :: e in Listed(settings, key) && HasHook(host, marker, e))
            && (r.status == Removed && "hooks" in r.settings ==>
                  && r.settings["hooks"].Obj? && |r.settings["hooks"].fields| > 0
                  && (key in r.settings["hooks"].fields ==> r.settings["hooks"].fields[key] != Arr([])))
            && (r.status != Removed ==> r.settings == settings)
  {
    hide IsManaged, HasHook, Foreign;
    forall e ensures IsManaged(host, marker, e) == Some(true) <==> HasHook(host, marker, e) {
      ManagedExactly(host, marker, e);
    }
    match Entries(settings, key)
    case None =>
    case Some(entries) =>
      ForeignAll(host, marker, entries);
      DropFrame(settings, key);
  }

  // ---------------------------------------------------------------------
  // The status line
  // ---------------------------------------------------------------------

  /** An object with a command, a text, that holds "tj statusline". */
  ghost predicate RunsStatusline(j: Json) {
    j.Obj? && "command" in j.fields && j.fields["command"].Str? && Occurs("tj " + "statusline", j.fields["command"].s)
  }

  /**
   A missing or null status line is written and ours is brought up to date; any other stays as it is, and
   so does the rest of the settings.
   */
  lemma {:induction false} StatuslineExactly(host: Host, settings: Dict)
    ensures var ours := Obj(map["type" := Str("command"), "command" := Str(Program(host) + " statusline")]);
            var r := WireStatusline(host, settings);
            if "statusLine" !in settings || settings["statusLine"] == Null
            then r == Done(settings["statusLine" := ours], Written)
            else if RunsStatusline(settings["statusLine"])
            then r == Done(settings["statusLine" := ours], if settings["statusLine"] == ours then Kept else Updated)
            else r == Done(settings, Skipped)
  {
    hide Occurs;
    assert STATUSLINE_MARKER == "tj " + "statusline";
    var ours := Obj(map["type" := Str("command"), "command" := Str(Program(host) + " statusline")]);
    assert DesiredStatusline(host) == ours;
    if "statusLine" in settings && settings["statusLine"] == ours {
      assert settings["statusLine" := ours] == settings;
    }
  }
}
