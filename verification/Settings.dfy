/**
 Hooks and status line in Claude Code's settings.json (tokenjam/cli/cmd_onboard.py).
 Settings are whatever `json.loads` gives; nothing is assumed about their shape.
 */
module Settings {
  import opened Prelude
  import opened TextScan

  datatype Json =
    | Null
    | Bool(b: bool)
    | Num(text: string, zero: bool)
    | Str(s: string)
    | Arr(items: seq<Json>)
    | Obj(fields: map<string, Json>)

  type Dict = map<string, Json>

  /**
   What the code learns from outside: the path of `tj`, if `which` finds one, and the
   text Python's `str` gives for values that are not strings.
   */
  datatype Host = Host(exe: Option<string>, str: Json -> string)

  const CAP_MARKER := "hook cap-output"
  const BRIEF_MARKER := "resume-brief"
  const BRIEF_MATCHER := "resume|compact"
  const STATUSLINE_MARKER := "tj statusline"

  function Get(d: Dict, key: string): Option<Json> {
    if key in d then Some(d[key]) else None
  }

  predicate Truthy(j: Json) {
    match j
    case Null => false
    case Bool(b) => b
    case Num(_, zero) => !zero
    case Str(s) => s != ""
    case Arr(items) => items != []
    case Obj(fields) => |fields| > 0
  }

  function Shown(host: Host, j: Json): string {
    if j.Str? then j.s else host.str(j)
  }

  predicate HookMatches(host: Host, marker: string, h: Json) {
    h.Obj? && Occurs(marker, match Get(h.fields, "command") case Some(c) => Shown(host, c) case None => "")
  }

  /**
   `_is_tj_..._entry`.  None stands for the TypeError raised by iterating over a `hooks`
   value that is a non-zero number or True; strings and objects yield no objects.
   */
  function IsManaged(host: Host, marker: string, entry: Json): Option<bool> {
    if !entry.Obj? then Some(false)
    else match Get(entry.fields, "hooks")
         case None => Some(false)
         case Some(hooks) =>
           if !Truthy(hooks) then Some(false)
           else match hooks
                case Arr(items) => Some(exists i :: 0 <= i < |items| && HookMatches(host, marker, items[i]))
                case Str(_) => Some(false)
                case Obj(_) => Some(false)
                case _ => None
  }

  // ---------------------------------------------------------------------
  // Unwiring
  // ---------------------------------------------------------------------

  predicate Iterable(host: Host, marker: string, entries: seq<Json>) {
    forall i :: 0 <= i < |entries| ==> IsManaged(host, marker, entries[i]) != None
  }

  /** The entries that are not ours, in order. */
  function Foreign(host: Host, marker: string, entries: seq<Json>): seq<Json> {
    if entries == [] then []
    else (if IsManaged(host, marker, entries[0]) == Some(true) then [] else [entries[0]])
         + Foreign(host, marker, entries[1..])
  }

  datatype Status = Written | Updated | Kept | Skipped | Removed | Absent

  /** The dictionary afterwards and what the caller is told; Raised carries the state the exception leaves. */
  datatype Result = Raised(settings: Dict) | Done(settings: Dict, status: Status)

  /** The list under hooks/<key>, when both levels have the expected type. */
  function Entries(settings: Dict, key: string): Option<seq<Json>> {
    match Get(settings, "hooks")
    case Some(Obj(hooks)) => (match Get(hooks, key) case Some(Arr(items)) => Some(items) case _ => None)
    case _ => None
  }

  function SetEntries(settings: Dict, key: string, v: Json): Dict
    requires "hooks" in settings && settings["hooks"].Obj?
  {
    settings["hooks" := Obj(settings["hooks"].fields[key := v])]
  }

  /** `hooks.pop(key)`, and `hooks` itself once it is empty. */
  function DropKey(settings: Dict, key: string): Dict
    requires "hooks" in settings && settings["hooks"].Obj?
  {
    var hooks := settings["hooks"].fields - {key};
    if |hooks| == 0 then settings - {"hooks"} else settings["hooks" := Obj(hooks)]
  }

  function Unwire(host: Host, marker: string, key: string, settings: Dict): Result {
    match Entries(settings, key)
    case None => Done(settings, Absent)
    case Some(entries) =>
      if !Iterable(host, marker, entries) then Raised(settings)
      else
        var kept := Foreign(host, marker, entries);
        if |kept| == |entries| then Done(settings, Absent)
        else if kept != [] then Done(SetEntries(settings, key, Arr(kept)), Removed)
        else Done(DropKey(settings, key), Removed)
  }

  function UnwireBrief(host: Host, settings: Dict): Result {
    Unwire(host, BRIEF_MARKER, "SessionStart", settings)
  }

  function UnwireCap(host: Host, settings: Dict): Result {
    Unwire(host, CAP_MARKER, "PostToolUse", settings)
  }

  // ---------------------------------------------------------------------
  // Wiring
  // ---------------------------------------------------------------------

  function BriefCommand(host: Host): string {
    (match host.exe case Some(exe) => exe case None => "tj") + " resume-brief --from-hook"
  }

  function Desired(host: Host): Json {
    Obj(map["matcher" := Str(BRIEF_MATCHER),
            "hooks" := Arr([Obj(map["type" := Str("command"), "command" := Str(BriefCommand(host))])])])
  }

  /** The index of the first managed entry; Raised when an entry before it cannot be examined. */
  datatype Search = At(i: nat) | Nowhere | Fails

  function FirstManaged(host: Host, entries: seq<Json>, from: nat): Search
    requires from <= |entries|
    decreases |entries| - from
  {
    if from == |entries| then Nowhere
    else match IsManaged(host, BRIEF_MARKER, entries[from])
         case None => Fails
         case Some(true) => At(from)
         case Some(false) => FirstManaged(host, entries, from + 1)
  }

  /** `settings.setdefault("hooks", {})`. */
  function WithHooks(settings: Dict): Dict {
    if "hooks" in settings then settings else settings["hooks" := Obj(map[])]
  }

  function WireBrief(host: Host, settings: Dict): Result {
    var s := WithHooks(settings);
    if !s["hooks"].Obj? then Done(s, Skipped)
    else match Get(s["hooks"].fields, "SessionStart")
         case None => Done(SetEntries(s, "SessionStart", Arr([Desired(host)])), Written)
         case Some(Null) => Done(SetEntries(s, "SessionStart", Arr([Desired(host)])), Written)
         case Some(Arr(entries)) =>
           (match FirstManaged(host, entries, 0)
            case Fails => Raised(s)
            case Nowhere => Done(SetEntries(s, "SessionStart", Arr(entries + [Desired(host)])), Written)
            case At(i) =>
              if i >= |entries| || entries[i] == Desired(host) then Done(s, Kept)
              else Done(SetEntries(s, "SessionStart", Arr(entries[i := Desired(host)])), Updated))
         case _ => Done(s, Skipped)
  }

  function StatuslineCommand(host: Host): string {
    (match host.exe case Some(exe) => exe case None => "tj") + " statusline"
  }

  predicate IsTjStatusline(entry: Json) {
    entry.Obj? && match Get(entry.fields, "command") case Some(Str(c)) => Occurs(STATUSLINE_MARKER, c) case _ => false
  }

  function DesiredStatusline(host: Host): Json {
    Obj(map["type" := Str("command"), "command" := Str(StatuslineCommand(host))])
  }

  function WireStatusline(host: Host, settings: Dict): Result {
    var desired := DesiredStatusline(host);
    match Get(settings, "statusLine")
    case None => Done(settings["statusLine" := desired], Written)
    case Some(Null) => Done(settings["statusLine" := desired], Written)
    case Some(existing) =>
      if !IsTjStatusline(existing) then Done(settings, Skipped)
      else if existing == desired then Done(settings, Kept)
      else Done(settings["statusLine" := desired], Updated)
  }

  /** The settings object, edited in place. */
  class SettingsFile {
    var root: Dict

    constructor (d: Dict)
      ensures root == d
    {
      root := d;
    }

    /** Returns Raised or Done with the settings as they are now. */
    method WireResumeBrief(host: Host) returns (r: Result)
      modifies this
      ensures r == WireBrief(host, old(root)) && root == r.settings
    {
      if "hooks" !in root {
        root := root["hooks" := Obj(map[])];
      }
      if !root["hooks"].Obj? {
        return Done(root, Skipped);
      }
      var start := Get(root["hooks"].fields, "SessionStart");
      if start == None || start == Some(Null) {
        root := SetEntries(root, "SessionStart", Arr([Desired(host)]));
        return Done(root, Written);
      }
      if !start.value.Arr? {
        return Done(root, Skipped);
      }
      var entries := start.value.items;
      var i := 0;
      while i < |entries|
        invariant 0 <= i <= |entries|
        invariant FirstManaged(host, entries, 0) == FirstManaged(host, entries, i)
      {
        match IsManaged(host, BRIEF_MARKER, entries[i]) {
          case None => return Raised(root);
          case Some(managed) =>
            if managed {
              if entries[i] == Desired(host) {
                return Done(root, Kept);
              }
              root := SetEntries(root, "SessionStart", Arr(entries[i := Desired(host)]));
              return Done(root, Updated);
            }
        }
        i := i + 1;
      }
      root := SetEntries(root, "SessionStart", Arr(entries + [Desired(host)]));
      return Done(root, Written);
    }

    method UnwireHook(host: Host, marker: string, key: string) returns (r: Result)
      modifies this
      ensures r == Unwire(host, marker, key, old(root)) && root == r.settings
    {
      match Entries(root, key) {
        case None => return Done(root, Absent);
        case Some(entries) =>
          if !Iterable(host, marker, entries) {
            return Raised(root);
          }
          var kept := Foreign(host, marker, entries);
          if |kept| == |entries| {
            return Done(root, Absent);
          }
          if kept != [] {
            root := SetEntries(root, key, Arr(kept));
          } else {
            var hooks := root["hooks"].fields - {key};
            root := root["hooks" := Obj(hooks)];
            if |hooks| == 0 {
              root := root - {"hooks"};
            }
          }
          assert kept == [] ==> root == DropKey(old(root), key);
          return Done(root, Removed);
      }
    }

    method WireStatusLine(host: Host) returns (r: Result)
      modifies this
      ensures r == WireStatusline(host, old(root)) && root == r.settings
    {
      var desired := DesiredStatusline(host);
      var existing := Get(root, "statusLine");
      if existing == None || existing == Some(Null) {
        root := root["statusLine" := desired];
        return Done(root, Written);
      }
      if IsTjStatusline(existing.value) {
        if existing.value == desired {
          return Done(root, Kept);
        }
        root := root["statusLine" := desired];
        return Done(root, Updated);
      }
      return Done(root, Skipped);
    }
  }

  // ---------------------------------------------------------------------
  // Facts about the entry we install
  // ---------------------------------------------------------------------

  lemma {:induction false} OccursAfter(p: string, a: string, b: string)
    requires p <= b
    ensures Occurs(p, a + b)
  {
    if a == [] {
      assert a + b == b;
    } else {
      assert (a + b)[1..] == a[1..] + b;
      OccursAfter(p, a[1..], b);
    }
  }

  lemma {:induction false} DesiredIsManaged(host: Host)
    ensures IsManaged(host, BRIEF_MARKER, Desired(host)) == Some(true)
  {
    var exe := match host.exe case Some(e) => e case None => "tj";
    var tail := "resume-brief --from-hook";
    assert " resume-brief --from-hook" == " " + tail;
    assert BriefCommand(host) == exe + " " + tail;
    OccursAfter(BRIEF_MARKER, exe + " ", tail);
    var inner := Obj(map["type" := Str("command"), "command" := Str(BriefCommand(host))]);
    assert inner.fields["command"] == Str(BriefCommand(host));
    assert HookMatches(host, BRIEF_MARKER, inner);
    assert Desired(host).fields["hooks"] == Arr([inner]);
    assert Arr([inner]).items[0] == inner;
  }

  /** The command names a `tj` that the status line check recognises as ours. */
  ghost predicate Recognised(host: Host) {
    match host.exe
    case None => true
    case Some(exe) => EndsWith(exe, "tj") || Occurs(STATUSLINE_MARKER, exe)
  }

  lemma {:induction false} MarkerAfterPath(exe: string)
    ensures Occurs(STATUSLINE_MARKER, exe + " statusline") <==> EndsWith(exe, "tj") || Occurs(STATUSLINE_MARKER, exe)
  {
    assert STATUSLINE_MARKER == "tj" + " statusline";
    TailAfterPath(STATUSLINE_MARKER, "tj", " statusline", exe);
  }

  ghost predicate SplitMarker(p: string, w: string, q: string) {
    && |w| == 2 && q != "" && p == w + q && q[0] == ' '
    && forall k :: 3 <= k < |p| ==> p[k] != ' '
  }

  lemma {:induction false} MarkerHere(p: string, w: string, q: string, exe: string)
    requires SplitMarker(p, w, q)
    ensures p <= exe + q <==> exe == w || p <= exe
  {
    var t := exe + q;
    assert t[|exe|] == ' ';
    if |exe| == 2 {
      assert p[..2] == w && p[2..] == q && t[..2] == exe && t[2..] == q;
    } else if |exe| > 2 && |exe| < |p| {
      assert p[|exe|] != ' ';
    }
  }

  lemma {:induction false} TailAfterPath(p: string, w: string, q: string, exe: string)
    requires SplitMarker(p, w, q)
    ensures Occurs(p, exe + q) <==> EndsWith(exe, w) || Occurs(p, exe)
  {
    hide SplitMarker;
    MarkerHere(p, w, q, exe);
    if exe == "" {
      assert exe + q == q;
      MarkerLonger(p, w, q);
    } else {
      assert (exe + q)[1..] == exe[1..] + q;
      TailAfterPath(p, w, q, exe[1..]);
      EndOfRest(exe, w);
    }
  }

  lemma {:induction false} MarkerLonger(p: string, w: string, q: string)
    requires SplitMarker(p, w, q)
    ensures !Occurs(p, q) && !Occurs(p, "") && !EndsWith("", w)
  {
    TooShort(p, q);
  }

  lemma {:induction false} EndOfRest(exe: string, w: string)
    requires exe != ""
    ensures EndsWith(exe, w) <==> exe == w || EndsWith(exe[1..], w)
  {
    if |w| < |exe| {
      assert exe[1..][|exe| - 1 - |w|..] == exe[|exe| - |w|..];
    } else if |w| == |exe| {
      assert exe[0..] == exe;
    }
  }

  lemma {:induction false} DesiredStatuslineIsOurs(host: Host)
    ensures IsTjStatusline(DesiredStatusline(host)) <==> Recognised(host)
  {
    match host.exe
    case Some(exe) => MarkerAfterPath(exe);
    case None =>
      assert "tj" + " statusline" == STATUSLINE_MARKER + "";
      OccursAfter(STATUSLINE_MARKER, "", STATUSLINE_MARKER);
  }

  /**
   A second run keeps the status line that the first one wrote exactly when the path that
   `which` found for `tj` is one the check recognises; otherwise our own entry is taken for foreign.
   */
  lemma {:induction false} StatuslineTwice(host: Host, settings: Dict)
    ensures var r := WireStatusline(host, settings);
            && (r.status == Skipped ==> r.settings == settings && WireStatusline(host, r.settings) == r)
            && (r.status != Skipped ==>
                  (WireStatusline(host, r.settings) == Done(r.settings, Kept) <==> Recognised(host)))
    ensures WireStatusline(host, settings).settings - {"statusLine"} == settings - {"statusLine"}
  {
    hide IsTjStatusline;
    DesiredStatuslineIsOurs(host);
    var r := WireStatusline(host, settings);
    assert settings["statusLine" := DesiredStatusline(host)] - {"statusLine"} == settings - {"statusLine"};
  }

  lemma {:induction false} ForeignAppend(host: Host, marker: string, a: seq<Json>, b: seq<Json>)
    ensures Foreign(host, marker, a + b) == Foreign(host, marker, a) + Foreign(host, marker, b)
  {
    if a == [] {
      assert a + b == b;
    } else {
      assert (a + b)[1..] == a[1..] + b;
      ForeignAppend(host, marker, a[1..], b);
    }
  }

  lemma {:induction false} ForeignAll(host: Host, marker: string, a: seq<Json>)
    ensures |Foreign(host, marker, a)| <= |a|
    ensures |Foreign(host, marker, a)| == |a| <==>
              forall i :: 0 <= i < |a| ==> IsManaged(host, marker, a[i]) != Some(true)
    ensures |Foreign(host, marker, a)| == |a| ==> Foreign(host, marker, a) == a
  {
    if a != [] {
      ForeignAll(host, marker, a[1..]);
      assert forall i :: 1 <= i < |a| ==> a[i] == a[1..][i - 1];
      assert forall i :: 0 <= i < |a| - 1 ==> a[1..][i] == a[i + 1];
    }
  }

  lemma {:induction false} FirstManagedMeans(host: Host, entries: seq<Json>, from: nat)
    requires from <= |entries|
    ensures match FirstManaged(host, entries, from)
            case At(i) =>
              && from <= i < |entries| && IsManaged(host, BRIEF_MARKER, entries[i]) == Some(true)
              && forall k :: from <= k < i ==> IsManaged(host, BRIEF_MARKER, entries[k]) == Some(false)
            case Nowhere =>
              forall k :: from <= k < |entries| ==> IsManaged(host, BRIEF_MARKER, entries[k]) == Some(false)
            case Fails => exists k :: from <= k < |entries| && IsManaged(host, BRIEF_MARKER, entries[k]) == None
    decreases |entries| - from
  {
    if from < |entries| && IsManaged(host, BRIEF_MARKER, entries[from]) == Some(false) {
      FirstManagedMeans(host, entries, from + 1);
    }
  }

  lemma {:induction false} FirstManagedIs(host: Host, entries: seq<Json>, from: nat, i: nat)
    requires from <= i < |entries|
    requires IsManaged(host, BRIEF_MARKER, entries[i]) == Some(true)
    requires forall k :: from <= k < i ==> IsManaged(host, BRIEF_MARKER, entries[k]) == Some(false)
    ensures FirstManaged(host, entries, from) == At(i)
    decreases i - from
  {
    if from < i {
      FirstManagedIs(host, entries, from + 1, i);
    }
  }

  // ---------------------------------------------------------------------
  // Wiring is idempotent and keeps what is not ours
  // ---------------------------------------------------------------------

  /** The list that wiring leaves holds the desired entry first among the managed ones. */
  lemma {:induction false} WiredList(host: Host, settings: Dict)
    requires var r := WireBrief(host, settings); r.Done? && r.status != Skipped
    ensures var s := WireBrief(host, settings).settings;
            && Entries(s, "SessionStart").Some?
            && var list := Entries(s, "SessionStart").value;
               exists i :: 0 <= i < |list| && list[i] == Desired(host) && FirstManaged(host, list, 0) == At(i)
  {
    hide IsManaged, Desired;
    DesiredIsManaged(host);
    var r := WireBrief(host, settings);
    var list := Entries(r.settings, "SessionStart").value;
    match Entries(WithHooks(settings), "SessionStart") {
      case None =>
        assert list[0] == Desired(host);
        FirstManagedIs(host, list, 0, 0);
      case Some(entries) =>
        FirstManagedMeans(host, entries, 0);
        var i := match FirstManaged(host, entries, 0) case At(i) => i case _ => |entries|;
        assert list[i] == Desired(host);
        FirstManagedIs(host, list, 0, i);
    }
  }

  /** A second run reports "kept" and changes nothing; settings of a foreign shape stay as they are. */
  lemma {:induction false} WireTwice(host: Host, settings: Dict)
    requires WireBrief(host, settings).Done?
    ensures var r := WireBrief(host, settings);
            && (r.status == Skipped ==> r.settings == settings)
            && WireBrief(host, r.settings) == Done(r.settings, if r.status == Skipped then Skipped else Kept)
  {
    hide IsManaged, Desired, FirstManaged;
    if WireBrief(host, settings).status != Skipped {
      WiredList(host, settings);
    }
  }

  /** Wiring and unwiring leave every key but `hooks`, every hook but theirs, and every foreign entry as it was. */
  lemma {:induction false} WireFrame(host: Host, settings: Dict)
    ensures var s := WireBrief(host, settings).settings;
            && s - {"hooks"} == settings - {"hooks"}
            && OtherHooks(s, "SessionStart") == OtherHooks(settings, "SessionStart")
            && ForeignOf(host, BRIEF_MARKER, s, "SessionStart")
               == ForeignOf(host, BRIEF_MARKER, settings, "SessionStart")
  {
    hide IsManaged, Desired;
    DesiredIsManaged(host);
    var s := WireBrief(host, settings).settings;
    assert WithHooks(settings) - {"hooks"} == settings - {"hooks"};
    assert s - {"hooks"} == WithHooks(settings) - {"hooks"};
    ForeignOne(host, Desired(host));
    match Entries(WithHooks(settings), "SessionStart") {
      case None =>
      case Some(entries) =>
        FirstManagedMeans(host, entries, 0);
        ForeignAppend(host, BRIEF_MARKER, entries, [Desired(host)]);
        match FirstManaged(host, entries, 0) {
          case At(i) => ForeignReplace(host, BRIEF_MARKER, entries, i, Desired(host));
          case _ =>
        }
    }
  }

  lemma {:induction false} ForeignOne(host: Host, e: Json)
    requires IsManaged(host, BRIEF_MARKER, e) == Some(true)
    ensures Foreign(host, BRIEF_MARKER, [e]) == []
  {}

  lemma {:induction false} ForeignReplace(host: Host, marker: string, entries: seq<Json>, i: nat, e: Json)
    requires i < |entries|
    requires IsManaged(host, marker, entries[i]) == Some(true) && IsManaged(host, marker, e) == Some(true)
    ensures Foreign(host, marker, entries[i := e]) == Foreign(host, marker, entries)
  {
    if i == 0 {
      assert entries[i := e][1..] == entries[1..];
    } else {
      assert entries[i := e][1..] == entries[1..][i - 1 := e];
      ForeignReplace(host, marker, entries[1..], i - 1, e);
    }
  }

  /** The hooks other than `key`; none when there is no hooks object. */
  function OtherHooks(settings: Dict, key: string): Dict {
    match Get(settings, "hooks") case Some(Obj(hooks)) => hooks - {key} case _ => map[]
  }

  function ForeignOf(host: Host, marker: string, settings: Dict, key: string): seq<Json> {
    match Entries(settings, key) case Some(entries) => Foreign(host, marker, entries) case None => []
  }

  lemma {:induction false} UnwireFrame(host: Host, marker: string, key: string, settings: Dict)
    ensures var s := Unwire(host, marker, key, settings).settings;
            && s - {"hooks"} == settings - {"hooks"}
            && OtherHooks(s, key) == OtherHooks(settings, key)
            && ForeignOf(host, marker, s, key) == ForeignOf(host, marker, settings, key)
  {
    hide IsManaged, Foreign;
    match Entries(settings, key) {
      case None =>
      case Some(entries) =>
        ForeignTwice(host, marker, entries);
        SetFrame(settings, key, Arr(Foreign(host, marker, entries)));
        DropFrame(settings, key);
        NoneForeign(host, marker);
    }
  }

  lemma {:induction false} NoneForeign(host: Host, marker: string)
    ensures Foreign(host, marker, []) == []
  {}

  lemma {:induction false} SetFrame(settings: Dict, key: string, v: Json)
    requires "hooks" in settings && settings["hooks"].Obj?
    ensures var s := SetEntries(settings, key, v);
            s - {"hooks"} == settings - {"hooks"} && OtherHooks(s, key) == OtherHooks(settings, key)
  {
    var hooks := settings["hooks"].fields;
    assert hooks[key := v] - {key} == hooks - {key};
    assert settings["hooks" := Obj(hooks[key := v])] - {"hooks"} == settings - {"hooks"};
  }

  lemma {:induction false} DropFrame(settings: Dict, key: string)
    requires "hooks" in settings && settings["hooks"].Obj?
    ensures var s := DropKey(settings, key);
            s - {"hooks"} == settings - {"hooks"} && OtherHooks(s, key) == OtherHooks(settings, key)
            && Entries(s, key) == None
  {
    var hooks := settings["hooks"].fields - {key};
    if |hooks| == 0 {
      assert hooks == map[];
      WithoutHooks(settings, key);
    } else {
      WithTheseHooks(settings, key, hooks);
    }
  }

  lemma {:induction false} WithoutHooks(settings: Dict, key: string)
    ensures var s := settings - {"hooks"};
            s - {"hooks"} == s && OtherHooks(s, key) == map[] && Entries(s, key) == None
  {}

  lemma {:induction false} WithTheseHooks(settings: Dict, key: string, hooks: Dict)
    requires key !in hooks
    ensures var s := settings["hooks" := Obj(hooks)];
            s - {"hooks"} == settings - {"hooks"} && OtherHooks(s, key) == hooks && Entries(s, key) == None
  {
    assert hooks - {key} == hooks;
  }

  lemma {:induction false} ForeignTwice(host: Host, marker: string, entries: seq<Json>)
    ensures Foreign(host, marker, Foreign(host, marker, entries)) == Foreign(host, marker, entries)
  {
    hide IsManaged;
    if entries != [] {
      ForeignTwice(host, marker, entries[1..]);
      var rest := Foreign(host, marker, entries[1..]);
      assert ([entries[0]] + rest)[1..] == rest && [] + rest == rest;
    }
  }

  // ---------------------------------------------------------------------
  // Unwiring after wiring
  // ---------------------------------------------------------------------

  /** Settings without an empty or null list under hooks/<key>, and without an empty hooks object. */
  function Normal(settings: Dict, key: string): Dict {
    match Get(settings, "hooks")
    case Some(Obj(hooks)) =>
      var h := if Get(hooks, key) in {Some(Null), Some(Arr([]))} then hooks - {key} else hooks;
      if |h| == 0 then settings - {"hooks"} else settings["hooks" := Obj(h)]
    case _ => settings
  }

  /** What unwiring leaves, up to empty containers: the foreign entries under the key and everything else. */
  lemma {:induction false} UnwireNormal(host: Host, marker: string, key: string, settings: Dict)
    requires Unwire(host, marker, key, settings).Done?
    ensures Normal(Unwire(host, marker, key, settings).settings, key)
         == match Entries(settings, key)
            case Some(entries) => Normal(SetEntries(settings, key, Arr(Foreign(host, marker, entries))), key)
            case None => Normal(settings, key)
  {
    hide IsManaged;
    match Entries(settings, key)
    case None =>
    case Some(entries) =>
      ForeignAll(host, marker, entries);
      var kept := Foreign(host, marker, entries);
      if |kept| == |entries| {
        assert settings["hooks"].fields[key := Arr(kept)] == settings["hooks"].fields;
        assert SetEntries(settings, key, Arr(kept)) == settings;
      } else if kept == [] {
        var hooks := settings["hooks"].fields;
        assert hooks[key := Arr([])] - {key} == hooks - {key};
        EmptyDrop(settings, key);
      }
  }

  lemma {:induction false} EmptyDrop(settings: Dict, key: string)
    requires "hooks" in settings && settings["hooks"].Obj?
    ensures Normal(DropKey(settings, key), key) == Normal(SetEntries(settings, key, Arr([])), key)
    ensures Normal(SetEntries(settings, key, Arr([])), key) == DropKey(settings, key)
  {
    SetEmpty(settings, key);
    DropNormal(settings, key);
  }

  lemma {:induction false} SetEmpty(settings: Dict, key: string)
    requires "hooks" in settings && settings["hooks"].Obj?
    ensures Normal(SetEntries(settings, key, Arr([])), key) == DropKey(settings, key)
  {
    hide Normal;
    var hooks := settings["hooks"].fields;
    var s := SetEntries(settings, key, Arr([]));
    NormalOfEmpty(s, key, hooks[key := Arr([])]);
    assert hooks[key := Arr([])] - {key} == hooks - {key};
    assert s - {"hooks"} == settings - {"hooks"};
    TwiceSet(settings, Obj(hooks[key := Arr([])]), Obj(hooks - {key}));
  }

  lemma {:induction false} NormalOfEmpty(s: Dict, key: string, hooks: Dict)
    requires Get(s, "hooks") == Some(Obj(hooks)) && Get(hooks, key) == Some(Arr([]))
    ensures Normal(s, key)
         == if |hooks - {key}| == 0 then s - {"hooks"} else s["hooks" := Obj(hooks - {key})]
  {}

  lemma {:induction false} DropNormal(settings: Dict, key: string)
    requires "hooks" in settings && settings["hooks"].Obj?
    ensures Normal(DropKey(settings, key), key) == DropKey(settings, key)
  {
    var hooks := settings["hooks"].fields;
    var d := DropKey(settings, key);
    if |hooks - {key}| != 0 {
      assert d["hooks"] == Obj(hooks - {key});
      assert d["hooks" := Obj(hooks - {key})] == d;
    }
  }

  /**
   Unwiring after wiring is unwiring alone, up to empty or null containers, for any settings;
   and the one raises exactly when the other does.
   */
  lemma {:induction false} UnwireAfterWire(host: Host, settings: Dict)
    requires WireBrief(host, settings).Done?
    ensures var wired := WireBrief(host, settings).settings;
            UnwireBrief(host, wired).Raised? <==> UnwireBrief(host, settings).Raised?
    ensures UnwireBrief(host, settings).Done? ==>
              var wired := WireBrief(host, settings).settings;
              Normal(UnwireBrief(host, wired).settings, "SessionStart")
              == Normal(UnwireBrief(host, settings).settings, "SessionStart")
  {
    SameIterable(host, settings);
    if UnwireBrief(host, settings).Done? {
      SameRemainder(host, settings);
    }
  }

  lemma {:induction false} SameRemainder(host: Host, settings: Dict)
    requires WireBrief(host, settings).Done? && UnwireBrief(host, settings).Done?
    requires UnwireBrief(host, WireBrief(host, settings).settings).Done?
    ensures var wired := WireBrief(host, settings).settings;
            Normal(UnwireBrief(host, wired).settings, "SessionStart")
            == Normal(UnwireBrief(host, settings).settings, "SessionStart")
  {
    hide IsManaged, Desired, Foreign, Normal, Unwire;
    var key := "SessionStart";
    var r := WireBrief(host, settings);
    WireFrame(host, settings);
    UnwireNormal(host, BRIEF_MARKER, key, settings);
    UnwireNormal(host, BRIEF_MARKER, key, r.settings);
    WireShape(host, settings);
    if r.status != Skipped {
      match Entries(settings, key) {
        case Some(entries) =>
          SameOnceListed(settings, r.settings, key, Foreign(host, BRIEF_MARKER, entries));
        case None =>
          NothingListed(settings, r.settings, key);
      }
    }
  }

  /** Settings that wiring accepts have a hooks object, or none yet, and a list under the key, or nothing. */
  lemma {:induction false} WireShape(host: Host, settings: Dict)
    requires WireBrief(host, settings).Done?
    ensures var r := WireBrief(host, settings);
            r.status != Skipped ==>
              && "hooks" in r.settings && r.settings["hooks"].Obj? && Entries(r.settings, "SessionStart").Some?
              && ("hooks" in settings ==> settings["hooks"].Obj?)
              && (Entries(settings, "SessionStart") == None && "hooks" in settings ==>
                    "SessionStart" in settings["hooks"].fields ==> settings["hooks"].fields["SessionStart"] == Null)
  {
    hide IsManaged, Desired, FirstManaged;
  }

  lemma {:induction false} SameOnceListed(a: Dict, b: Dict, key: string, items: seq<Json>)
    requires "hooks" in a && a["hooks"].Obj? && "hooks" in b && b["hooks"].Obj?
    requires a - {"hooks"} == b - {"hooks"} && a["hooks"].fields - {key} == b["hooks"].fields - {key}
    ensures SetEntries(a, key, Arr(items)) == SetEntries(b, key, Arr(items))
  {
    var ha, hb := a["hooks"].fields, b["hooks"].fields;
    assert ha[key := Arr(items)] == (ha - {key})[key := Arr(items)];
    assert hb[key := Arr(items)] == (hb - {key})[key := Arr(items)];
    var h := Obj(ha[key := Arr(items)]);
    assert a["hooks" := h] == (a - {"hooks"})["hooks" := h];
    assert b["hooks" := h] == (b - {"hooks"})["hooks" := h];
  }

  /** From settings with nothing usable under the key: a list put there and emptied again counts for nothing. */
  lemma {:induction false} NothingListed(a: Dict, b: Dict, key: string)
    requires "hooks" in a ==> a["hooks"].Obj? && (key in a["hooks"].fields ==> a["hooks"].fields[key] == Null)
    requires "hooks" in b && b["hooks"].Obj?
    requires a - {"hooks"} == b - {"hooks"} && OtherHooks(a, key) == OtherHooks(b, key)
    ensures Normal(SetEntries(b, key, Arr([])), key) == Normal(a, key)
  {
    hide Normal;
    EmptyDrop(b, key);
    SameDropped(a, b, key);
    if "hooks" in a {
      NullDropped(a, key);
    } else {
      NoHooks(a, key);
    }
  }

  lemma {:induction false} NoHooks(a: Dict, key: string)
    requires "hooks" !in a
    ensures Normal(a, key) == a
  {}

  lemma {:induction false} SameDropped(a: Dict, b: Dict, key: string)
    requires "hooks" in b && b["hooks"].Obj?
    requires a - {"hooks"} == b - {"hooks"} && OtherHooks(a, key) == OtherHooks(b, key)
    requires "hooks" in a ==> a["hooks"].Obj?
    ensures DropKey(b, key) == if "hooks" in a then DropKey(a, key) else a
  {
    var hb := b["hooks"].fields - {key};
    assert b["hooks" := Obj(hb)] == (b - {"hooks"})["hooks" := Obj(hb)];
    if "hooks" in a {
      assert a["hooks" := Obj(hb)] == (a - {"hooks"})["hooks" := Obj(hb)];
    } else {
      assert hb == map[] && a - {"hooks"} == a;
    }
  }

  lemma {:induction false} NullDropped(a: Dict, key: string)
    requires "hooks" in a && a["hooks"].Obj? && (key in a["hooks"].fields ==> a["hooks"].fields[key] == Null)
    ensures Normal(a, key) == DropKey(a, key)
  {
    var hooks := a["hooks"].fields;
    if key !in hooks {
      assert hooks - {key} == hooks;
    }
  }

  /** Writing our entry over a managed one, or after all others, leaves a readable list readable, and no other. */
  lemma {:induction false} SameReadable(host: Host, entries: seq<Json>, list: seq<Json>)
    requires IsManaged(host, BRIEF_MARKER, Desired(host)) == Some(true)
    requires list == entries + [Desired(host)] || list == entries
             || exists i :: 0 <= i < |entries| && list == entries[i := Desired(host)]
                            && IsManaged(host, BRIEF_MARKER, entries[i]) == Some(true)
    ensures Iterable(host, BRIEF_MARKER, list) <==> Iterable(host, BRIEF_MARKER, entries)
  {
    hide IsManaged, Desired;
    assert |list| >= |entries|;
    assert forall i :: 0 <= i < |entries| && list[i] != entries[i] ==>
        list[i] == Desired(host) && IsManaged(host, BRIEF_MARKER, entries[i]) == Some(true);
    assert forall i :: |entries| <= i < |list| ==> list[i] == Desired(host);
  }

  lemma {:induction false} SameIterable(host: Host, settings: Dict)
    requires WireBrief(host, settings).Done?
    ensures var wired := WireBrief(host, settings).settings;
            UnwireBrief(host, wired).Raised? <==> UnwireBrief(host, settings).Raised?
  {
    hide IsManaged, Desired, Iterable, FirstManaged;
    DesiredIsManaged(host);
    match Entries(WithHooks(settings), "SessionStart")
    case None => NothingToRead(host);
    case Some(entries) =>
      FirstManagedMeans(host, entries, 0);
      SameReadable(host, entries, Entries(WireBrief(host, settings).settings, "SessionStart").value);
  }

  lemma {:induction false} NothingToRead(host: Host)
    requires IsManaged(host, BRIEF_MARKER, Desired(host)) == Some(true)
    ensures Iterable(host, BRIEF_MARKER, [Desired(host)])
  {}

  // ---------------------------------------------------------------------
  // Wiring our hook and removing the retired one
  // ---------------------------------------------------------------------

  /** What an edit does to the value under its hook key, as a function of that value alone. */
  datatype Edit = Leave | Put(v: Json) | Drop | Fail

  function BriefEdit(host: Host, current: Option<Json>): Edit {
    match current
    case None => Put(Arr([Desired(host)]))
    case Some(Null) => Put(Arr([Desired(host)]))
    case Some(Arr(entries)) =>
      (match FirstManaged(host, entries, 0)
       case Fails => Fail
       case Nowhere => Put(Arr(entries + [Desired(host)]))
       case At(i) =>
         if i >= |entries| || entries[i] == Desired(host) then Leave else Put(Arr(entries[i := Desired(host)])))
    case _ => Leave
  }

  function UnwireEdit(host: Host, marker: string, current: Option<Json>): Edit {
    match current
    case Some(Arr(entries)) =>
      if !Iterable(host, marker, entries) then Fail
      else
        var kept := Foreign(host, marker, entries);
        if |kept| == |entries| then Leave else if kept != [] then Put(Arr(kept)) else Drop
    case _ => Leave
  }

  function Perform(settings: Dict, key: string, e: Edit): Dict
    requires "hooks" in settings && settings["hooks"].Obj?
  {
    match e
    case Put(v) => SetEntries(settings, key, v)
    case Drop => DropKey(settings, key)
    case _ => settings
  }

  lemma {:induction false} WireIsEdit(host: Host, settings: Dict)
    requires "hooks" in settings && settings["hooks"].Obj?
    ensures var e := BriefEdit(host, Get(settings["hooks"].fields, "SessionStart"));
            var r := WireBrief(host, settings);
            (r.Raised? <==> e == Fail) && r.settings == Perform(settings, "SessionStart", e)
  {
    hide Desired, FirstManaged;
  }

  lemma {:induction false} UnwireIsEdit(host: Host, marker: string, key: string, settings: Dict)
    requires "hooks" in settings && settings["hooks"].Obj?
    ensures var e := UnwireEdit(host, marker, Get(settings["hooks"].fields, key));
            var r := Unwire(host, marker, key, settings);
            (r.Raised? <==> e == Fail) && r.settings == Perform(settings, key, e)
  {
    hide Iterable, Foreign;
  }

  /** Wiring never empties a hooks object, and leaves it alone only when it is not empty. */
  lemma {:induction false} BriefEditKeepsKey(host: Host, hooks: Dict)
    ensures var e := BriefEdit(host, Get(hooks, "SessionStart"));
            !e.Drop? && (e == Leave ==> "SessionStart" in hooks)
  {
    hide Desired, FirstManaged;
  }

  /** Edits under two different keys commute, as long as the first one puts something or finds something there. */
  lemma {:induction false} EditsCommute(settings: Dict, k1: string, e1: Edit, k2: string, e2: Edit)
    requires "hooks" in settings && settings["hooks"].Obj? && k1 != k2
    requires e1 == Leave ==> k1 in settings["hooks"].fields
    requires e1.Put? || e1.Leave?
    ensures var a := Perform(settings, k1, e1);
            Get(a["hooks"].fields, k2) == Get(settings["hooks"].fields, k2)
    ensures var b := Perform(settings, k2, e2);
            "hooks" in b ==> b["hooks"].Obj? && Get(b["hooks"].fields, k1) == Get(settings["hooks"].fields, k1)
    ensures var b := Perform(settings, k2, e2);
            "hooks" !in b ==> k1 !in settings["hooks"].fields
    ensures var b := WithHooks(Perform(settings, k2, e2));
            Perform(Perform(settings, k1, e1), k2, e2) == Perform(b, k1, e1)
  {
    if e1.Put? && e2.Put? {
      PutsCommute(settings, k1, e1.v, k2, e2.v);
    } else if e1.Put? && e2.Drop? {
      PutAndDropCommute(settings, k1, e1.v, k2);
    } else if e2.Drop? {
      assert k1 in settings["hooks"].fields - {k2};
    }
  }

  lemma {:induction false} PutsCommute(settings: Dict, k1: string, v: Json, k2: string, w: Json)
    requires "hooks" in settings && settings["hooks"].Obj? && k1 != k2
    ensures SetEntries(SetEntries(settings, k1, v), k2, w) == SetEntries(SetEntries(settings, k2, w), k1, v)
  {
    var h := settings["hooks"].fields;
    assert h[k1 := v][k2 := w] == h[k2 := w][k1 := v];
    TwiceSet(settings, Obj(h[k1 := v]), Obj(h[k1 := v][k2 := w]));
    TwiceSet(settings, Obj(h[k2 := w]), Obj(h[k1 := v][k2 := w]));
  }

  lemma {:induction false} PutAndDropCommute(settings: Dict, k1: string, v: Json, k2: string)
    requires "hooks" in settings && settings["hooks"].Obj? && k1 != k2
    ensures DropKey(SetEntries(settings, k1, v), k2) == SetEntries(WithHooks(DropKey(settings, k2)), k1, v)
  {
    var h := settings["hooks"].fields;
    var d := h - {k2};
    assert h[k1 := v] - {k2} == d[k1 := v];
    assert k1 in h[k1 := v] - {k2};
    TwiceSet(settings, Obj(h[k1 := v]), Obj(d[k1 := v]));
    if |d| == 0 {
      assert d == map[];
      assert (settings - {"hooks"})["hooks" := Obj(map[])]["hooks" := Obj(map[][k1 := v])]
          == settings["hooks" := Obj(map[][k1 := v])];
    } else {
      TwiceSet(settings, Obj(d), Obj(d[k1 := v]));
    }
  }

  lemma {:induction false} TwiceSet(settings: Dict, a: Json, b: Json)
    ensures settings["hooks" := a]["hooks" := b] == settings["hooks" := b]
  {}

  /**
   Installing our hook and cleaning up the retired output-trim hook may be done in either
   order: the settings come out the same.
   */
  lemma {:induction false} WireCommutesWithCleanup(host: Host, settings: Dict)
    requires WireBrief(host, settings).Done? && UnwireCap(host, settings).Done?
    ensures var wired, cleaned := WireBrief(host, settings), UnwireCap(host, settings);
            && UnwireCap(host, wired.settings).Done? && WireBrief(host, cleaned.settings).Done?
            && UnwireCap(host, wired.settings).settings == WireBrief(host, cleaned.settings).settings
  {
    hide Desired, FirstManaged, Iterable, Foreign, BriefEdit, UnwireEdit;
    if "hooks" !in settings {
      FromNothing(host, settings);
    } else if settings["hooks"].Obj? {
      var h := settings["hooks"].fields;
      var e1 := BriefEdit(host, Get(h, "SessionStart"));
      var e2 := UnwireEdit(host, CAP_MARKER, Get(h, "PostToolUse"));
      WireIsEdit(host, settings);
      UnwireIsEdit(host, CAP_MARKER, "PostToolUse", settings);
      BriefEditKeepsKey(host, h);
      EditsCommute(settings, "SessionStart", e1, "PostToolUse", e2);
      UnwireIsEdit(host, CAP_MARKER, "PostToolUse", WireBrief(host, settings).settings);
      var cleaned := UnwireCap(host, settings).settings;
      WireIsEdit(host, WithHooks(cleaned));
      WireAfterDefault(host, cleaned);
    }
  }

  lemma {:induction false} WireAfterDefault(host: Host, settings: Dict)
    ensures WireBrief(host, WithHooks(settings)) == WireBrief(host, settings)
  {
    hide Desired, FirstManaged;
  }

  lemma {:induction false} FromNothing(host: Host, settings: Dict)
    requires "hooks" !in settings
    ensures UnwireCap(host, settings) == Done(settings, Absent)
    ensures var w := WireBrief(host, settings); w.Done? && UnwireCap(host, w.settings) == Done(w.settings, Absent)
  {
    hide Desired, FirstManaged, Iterable, Foreign;
  }

  /** A `tj` found as C:\tj.EXE: the second run takes the status line of the first for someone else's. */
  lemma {:induction false} OwnStatuslineNotRecognised(str: Json -> string)
    ensures var host := Host(Some("C:\\tj.EXE"), str);
            var first := WireStatusline(host, map[]);
            first.status == Written && WireStatusline(host, first.settings) == Done(first.settings, Skipped)
  {
    hide IsTjStatusline;
    var exe := "C:\\tj.EXE";
    var host := Host(Some(exe), str);
    TooShort(STATUSLINE_MARKER, exe);
    assert exe[|exe| - 1] == 'E' && exe[|exe| - 2..][1] == 'E' && "tj"[1] == 'j';
    DesiredStatuslineIsOurs(host);
  }
}
