/**
 Commands of the user's own in the hook lists of settings.json (tokenjam/cli/cmd_onboard.py).  Whether
 an entry is ours is decided for the entry as a whole, and so is its fate.
 */
module SettingsHooks {
  import opened Prelude
  import opened TextScan
  import opened Settings

  /** The hooks an entry lists. */
  function Hooks(entry: Json): seq<Json> {
    if !entry.Obj? then []
    else match Get(entry.fields, "hooks") case Some(Arr(items)) => items case _ => []
  }

  /** Those that do not run our command. */
  function Others(host: Host, marker: string, hooks: seq<Json>): seq<Json> {
    if hooks == [] then []
    else (if HookMatches(host, marker, hooks[0]) then [] else [hooks[0]]) + Others(host, marker, hooks[1..])
  }

  /** All of them in a list of entries, in order. */
  function UserHooks(host: Host, marker: string, entries: seq<Json>): seq<Json> {
    if entries == [] then [] else Others(host, marker, Hooks(entries[0])) + UserHooks(host, marker, entries[1..])
  }

  function HooksAt(host: Host, marker: string, settings: Dict, key: string): seq<Json> {
    match Entries(settings, key) case Some(entries) => UserHooks(host, marker, entries) case None => []
  }

  /** An entry of ours that a hook of the user's shares. */
  predicate Shared(host: Host, marker: string, entry: Json) {
    IsManaged(host, marker, entry) == Some(true) && Others(host, marker, Hooks(entry)) != []
  }

  lemma {:induction false} UserHooksJoin(host: Host, marker: string, a: seq<Json>, b: seq<Json>)
    ensures UserHooks(host, marker, a + b) == UserHooks(host, marker, a) + UserHooks(host, marker, b)
  {
    if a == [] {
      assert a + b == b;
    } else {
      assert (a + b)[1..] == a[1..] + b;
      UserHooksJoin(host, marker, a[1..], b);
    }
  }

  lemma {:induction false} OneEntry(host: Host, marker: string, entry: Json)
    ensures UserHooks(host, marker, [entry]) == Others(host, marker, Hooks(entry))
  {
    assert [entry][1..] == [];
  }

  lemma {:induction false} DesiredIsOurs(host: Host)
    ensures UserHooks(host, BRIEF_MARKER, [Desired(host)]) == []
  {
    DesiredMatches(host);
    OneEntry(host, BRIEF_MARKER, Desired(host));
    var h := Obj(map["type" := Str("command"), "command" := Str(BriefCommand(host))]);
    assert Hooks(Desired(host)) == [h] && [h][1..] == [];
  }

  lemma {:induction false} DesiredMatches(host: Host)
    ensures HookMatches(host, BRIEF_MARKER, Obj(map["type" := Str("command"), "command" := Str(BriefCommand(host))]))
  {
    hide Occurs;
    DesiredIsManaged(host);
    var h := Obj(map["type" := Str("command"), "command" := Str(BriefCommand(host))]);
    assert Get(Desired(host).fields, "hooks") == Some(Arr([h]));
    var i :| 0 <= i < |[h]| && HookMatches(host, BRIEF_MARKER, [h][i]);
  }

  /** Replacing an entry by ours loses exactly the other hooks it had. */
  lemma {:induction false} ReplaceEntry(host: Host, entries: seq<Json>, i: nat)
    requires i < |entries|
    ensures UserHooks(host, BRIEF_MARKER, entries[i := Desired(host)]) == UserHooks(host, BRIEF_MARKER, entries)
       <==> Others(host, BRIEF_MARKER, Hooks(entries[i])) == []
  {
    hide Others, Hooks, Desired;
    var a, b, e := entries[..i], entries[i + 1..], entries[i];
    var m := BRIEF_MARKER;
    DesiredIsOurs(host);
    OneEntry(host, m, e);
    assert entries == a + ([e] + b) && entries[i := Desired(host)] == a + ([Desired(host)] + b);
    UserHooksJoin(host, m, a, [e] + b);
    UserHooksJoin(host, m, a, [Desired(host)] + b);
    UserHooksJoin(host, m, [e], b);
    UserHooksJoin(host, m, [Desired(host)], b);
    var x, y, z := UserHooks(host, m, a), UserHooks(host, m, [e]), UserHooks(host, m, b);
    assert |x + (y + z)| == |x + ([] + z)| ==> y == [];
    assert y == [] ==> x + (y + z) == x + ([] + z);
  }

  /**
   Wiring keeps every hook of the user's, in order, exactly when the entry of ours that it updates
   lists no other hook.
   */
  lemma {:induction false} WireKeepsHooks(host: Host, settings: Dict)
    ensures var r := WireBrief(host, settings);
            HooksAt(host, BRIEF_MARKER, r.settings, "SessionStart")
            == HooksAt(host, BRIEF_MARKER, settings, "SessionStart")
            <==> match Entries(settings, "SessionStart")
                 case None => true
                 case Some(entries) =>
                   match FirstManaged(host, entries, 0)
                   case At(i) => i < |entries| ==> !Shared(host, BRIEF_MARKER, entries[i])
                   case _ => true
  {
    hide IsManaged, Others, Hooks, FirstManaged, UserHooks, Desired;
    match Entries(settings, "SessionStart")
    case None => NothingThere(host, settings);
    case Some(entries) =>
      FirstManagedMeans(host, entries, 0);
      match FirstManaged(host, entries, 0)
      case Fails =>
      case Nowhere =>
        UserHooksJoin(host, BRIEF_MARKER, entries, [Desired(host)]);
        DesiredIsOurs(host);
      case At(i) =>
        ReplaceEntry(host, entries, i);
        assert entries[i := entries[i]] == entries;
  }

  lemma {:induction false} NothingThere(host: Host, settings: Dict)
    requires Entries(settings, "SessionStart") == None
    ensures HooksAt(host, BRIEF_MARKER, WireBrief(host, settings).settings, "SessionStart") == []
  {
    hide Desired, UserHooks;
    DesiredIsOurs(host);
  }

  lemma {:induction false} ForeignHooks(host: Host, marker: string, entries: seq<Json>)
    requires Iterable(host, marker, entries)
    ensures |UserHooks(host, marker, Foreign(host, marker, entries))| <= |UserHooks(host, marker, entries)|
    ensures UserHooks(host, marker, Foreign(host, marker, entries)) == UserHooks(host, marker, entries)
       <==> forall i :: 0 <= i < |entries| ==> !Shared(host, marker, entries[i])
  {
    hide IsManaged, Others, Hooks;
    if entries != [] {
      var rest := entries[1..];
      ForeignHooks(host, marker, rest);
      OneEntry(host, marker, entries[0]);
      UserHooksJoin(host, marker, [entries[0]], Foreign(host, marker, rest));
      var y, z := Others(host, marker, Hooks(entries[0])), UserHooks(host, marker, rest);
      var left := UserHooks(host, marker, Foreign(host, marker, rest));
      assert forall i :: 1 <= i < |entries| ==> entries[i] == rest[i - 1];
      assert forall i :: 0 <= i < |rest| ==> rest[i] == entries[i + 1];
      Tails(y, left, z);
      if IsManaged(host, marker, entries[0]) == Some(true) {
        assert Foreign(host, marker, entries) == Foreign(host, marker, rest);
        assert UserHooks(host, marker, entries) == y + z;
        assert Shared(host, marker, entries[0]) <==> y != [];
      } else {
        assert Foreign(host, marker, entries) == [entries[0]] + Foreign(host, marker, rest);
        assert !Shared(host, marker, entries[0]);
      }
    }
  }

  lemma {:induction false} Tails(y: seq<Json>, left: seq<Json>, z: seq<Json>)
    requires |left| <= |z|
    ensures y + left == y + z <==> left == z
    ensures left == y + z <==> y == [] && left == z
  {
    assert (y + left)[|y|..] == left && (y + z)[|y|..] == z;
  }

  /** Unwiring keeps every hook of the user's, in order, exactly when no entry of ours lists another hook. */
  lemma {:induction false} UnwireKeepsHooks(host: Host, marker: string, key: string, settings: Dict)
    requires Unwire(host, marker, key, settings).Done?
    ensures HooksAt(host, marker, Unwire(host, marker, key, settings).settings, key)
            == HooksAt(host, marker, settings, key)
       <==> match Entries(settings, key)
            case None => true
            case Some(entries) => forall i :: 0 <= i < |entries| ==> !Shared(host, marker, entries[i])
  {
    hide IsManaged, Shared, UserHooks;
    match Entries(settings, key)
    case None =>
    case Some(entries) =>
      var kept := Foreign(host, marker, entries);
      ForeignHooks(host, marker, entries);
      if |kept| == |entries| {
        AllForeign(host, marker, entries);
      } else if kept == [] {
        assert UserHooks(host, marker, []) == [] by { NoEntries(host, marker); }
        assert Entries(DropKey(settings, key), key) == None;
      }
  }

  lemma {:induction false} NoEntries(host: Host, marker: string)
    ensures UserHooks(host, marker, []) == []
  {}

  lemma {:induction false} AllForeign(host: Host, marker: string, entries: seq<Json>)
    ensures |Foreign(host, marker, entries)| <= |entries|
    ensures |Foreign(host, marker, entries)| == |entries| ==> Foreign(host, marker, entries) == entries
  {
    hide IsManaged;
    if entries != [] {
      AllForeign(host, marker, entries[1..]);
    }
  }

  function Command(text: string): Json { Obj(map["command" := Str(text)]) }

  /** The user added a command to the entry that an older release had written: the update drops it. */
  lemma {:induction false} SharedEntryIsReplaced(str: Json -> string)
    ensures var host := Host(None, str);
            var entry := Obj(map["hooks" := Arr([Command(BRIEF_MARKER), Command("say hello")])]);
            var settings: Dict := map["hooks" := Obj(map["SessionStart" := Arr([entry])])];
            && HooksAt(host, BRIEF_MARKER, settings, "SessionStart") == [Command("say hello")]
            && HooksAt(host, BRIEF_MARKER, WireBrief(host, settings).settings, "SessionStart") == []
  {
    hide HookMatches, Desired, Others, IsManaged, FirstManaged;
    var host := Host(None, str);
    var ours, mine := Command(BRIEF_MARKER), Command("say hello");
    var entry := Obj(map["hooks" := Arr([ours, mine])]);
    OurCommandAndTheirs(host);
    OneOfTwo(host, ours, mine);
    OneEntry(host, BRIEF_MARKER, entry);
    assert Hooks(entry) == [ours, mine];
    OursIsFirst(host, entry);
    DesiredIsOurs(host);
    assert entry != Desired(host) by { DesiredHasMatcher(host); }
    assert [entry][0 := Desired(host)] == [Desired(host)];
  }

  lemma {:induction false} DesiredHasMatcher(host: Host)
    ensures "matcher" in Desired(host).fields
  {}

  lemma {:induction false} OurCommandAndTheirs(host: Host)
    ensures HookMatches(host, BRIEF_MARKER, Command(BRIEF_MARKER))
    ensures !HookMatches(host, BRIEF_MARKER, Command("say hello"))
  {
    hide Occurs;
    SelfOccurs(BRIEF_MARKER);
    OccursNeedsHead(BRIEF_MARKER, "say hello");
  }

  lemma {:induction false} OneOfTwo(host: Host, ours: Json, mine: Json)
    requires HookMatches(host, BRIEF_MARKER, ours) && !HookMatches(host, BRIEF_MARKER, mine)
    ensures Others(host, BRIEF_MARKER, [ours, mine]) == [mine]
    ensures IsManaged(host, BRIEF_MARKER, Obj(map["hooks" := Arr([ours, mine])])) == Some(true)
  {
    hide HookMatches;
    assert [ours, mine][1..] == [mine] && [mine][1..] == [];
    assert Others(host, BRIEF_MARKER, [mine]) == [mine];
    assert [ours, mine][0] == ours;
  }

  lemma {:induction false} OursIsFirst(host: Host, entry: Json)
    requires IsManaged(host, BRIEF_MARKER, entry) == Some(true)
    ensures FirstManaged(host, [entry], 0) == At(0)
  {}

  lemma {:induction false} SelfOccurs(p: string)
    ensures Occurs(p, p)
  {}
}
