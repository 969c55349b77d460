/** Choosing the program that runs the Python CLI (npm-wrapper/bin/tj.js). */
module Launcher {
  import opened Prelude

  const PACKAGE := "tokenjam"
  const COMMAND := "tj"

  datatype Runner = Runner(bin: string, pinned: Option<seq<string>>, prefix: seq<string>)

  /** A program and its arguments; `zeroInstall` is the mark in its environment for a bare call. */
  datatype Command = Command(bin: string, args: seq<string>, zeroInstall: bool)

  /** Exit status, None for death by a signal; `failed` says the program could not be started. */
  datatype Outcome = Outcome(failed: bool, status: Option<int>)

  /**
   What the machine answers.  `dirs` is PATH.  `join` and `executable` are what the wrapper asks;
   `place` is the path the system itself opens for a name under a PATH entry, and `runnable` whether it
   starts what it finds there: a regular file with the right to execute, which a directory never is.
   */
  datatype Machine = Machine(
    probe: (string, seq<string>) -> Option<int>,
    dirs: seq<string>,
    exts: seq<string>,
    join: (string, string) -> string,
    executable: string -> bool,
    place: (string, string) -> string,
    runnable: string -> bool,
    realpath: string -> Option<string>,
    self: string,
    spawn: Command -> Outcome)

  /** `<bin> --version` ends with 0, or with 1 for lack of that flag. */
  function Has(m: Machine, bin: string): bool {
    m.probe(bin, ["--version"]) in {Some(0), Some(1)}
  }

  function Resolves(m: Machine, bin: string, args: seq<string>): bool {
    m.probe(bin, args + ["--version"]) == Some(0)
  }

  function Runners(version: Option<string>): seq<Runner> {
    var spec := if version.Some? && version.value != "" then Some(PACKAGE + "==" + version.value) else None;
    [Runner("uvx", if spec.Some? then Some(["--from", spec.value, COMMAND]) else None, ["--from", PACKAGE, COMMAND]),
     Runner("pipx", if spec.Some? then Some(["run", "--spec", spec.value, COMMAND]) else None,
            ["run", "--spec", PACKAGE, COMMAND]),
     Runner(COMMAND, None, [])]
  }

  // ---------------------------------------------------------------------
  // The walk along PATH
  // ---------------------------------------------------------------------

  /** The places a program may be in, in the order of the walk. */
  function Candidates(m: Machine, bin: string, dirs: seq<string>): seq<string> {
    if dirs == [] then []
    else (if dirs[0] == "" then [] else InDir(m, bin, dirs[0], m.exts)) + Candidates(m, bin, dirs[1..])
  }

  function InDir(m: Machine, bin: string, dir: string, exts: seq<string>): seq<string> {
    if exts == [] then [] else [m.join(dir, bin + exts[0])] + InDir(m, bin, dir, exts[1..])
  }

  function FirstExecutable(m: Machine, places: seq<string>): Option<string> {
    if places == [] then None
    else if m.executable(places[0]) then Some(places[0])
    else FirstExecutable(m, places[1..])
  }

  lemma {:induction false} FirstOfTwo(m: Machine, a: seq<string>, b: seq<string>)
    ensures FirstExecutable(m, a + b)
         == if FirstExecutable(m, a).Some? then FirstExecutable(m, a) else FirstExecutable(m, b)
  {
    if a == [] {
      assert a + b == b;
    } else {
      assert (a + b)[1..] == a[1..] + b;
      FirstOfTwo(m, a[1..], b);
    }
  }

  lemma {:induction false} NextDir(m: Machine, bin: string, dirs: seq<string>)
    requires dirs != []
    ensures FirstExecutable(m, Candidates(m, bin, dirs))
         == if dirs[0] != "" && FirstExecutable(m, InDir(m, bin, dirs[0], m.exts)).Some?
            then FirstExecutable(m, InDir(m, bin, dirs[0], m.exts))
            else FirstExecutable(m, Candidates(m, bin, dirs[1..]))
  {
    FirstOfTwo(m, if dirs[0] == "" then [] else InDir(m, bin, dirs[0], m.exts), Candidates(m, bin, dirs[1..]));
  }

  /** `resolveOnPath`: the first executable on the way. */
  method ResolveOnPath(m: Machine, bin: string) returns (found: Option<string>)
    ensures found == FirstExecutable(m, Candidates(m, bin, m.dirs))
  {
    for i := 0 to |m.dirs|
      invariant FirstExecutable(m, Candidates(m, bin, m.dirs)) == FirstExecutable(m, Candidates(m, bin, m.dirs[i..]))
    {
      var dir := m.dirs[i];
      NextDir(m, bin, m.dirs[i..]);
      assert m.dirs[i..][1..] == m.dirs[i + 1..];
      if dir != "" {
        for j := 0 to |m.exts|
          invariant FirstExecutable(m, InDir(m, bin, dir, m.exts))
                 == FirstExecutable(m, InDir(m, bin, dir, m.exts[j..]))
        {
          var candidate := m.join(dir, bin + m.exts[j]);
          assert m.exts[j..][1..] == m.exts[j + 1..];
          if m.executable(candidate) {
            return Some(candidate);
          }
        }
        assert InDir(m, bin, dir, m.exts[|m.exts|..]) == [];
      }
    }
    return None;
  }

  /** `isOwnShim`: the path leads to this very file. */
  function IsOwnShim(m: Machine, path: string): bool {
    path != "" && m.realpath(path).Some? && m.realpath(path) == m.realpath(m.self)
  }

  // ---------------------------------------------------------------------
  // Which runners are tried
  // ---------------------------------------------------------------------

  /** The installed CLI, which must not be this wrapper. */
  predicate Installed(m: Machine) {
    var found := FirstExecutable(m, Candidates(m, COMMAND, m.dirs));
    found.Some? && found.value != "" && !IsOwnShim(m, found.value)
  }

  predicate Eligible(m: Machine, r: Runner) {
    && (if r.bin == COMMAND then Installed(m) else Has(m, r.bin))
    && (r.pinned.Some? ==> Resolves(m, r.bin, r.pinned.value))
  }

  function Invocation(r: Runner, argv: seq<string>): Command {
    Command(r.bin, (if r.pinned.Some? then r.pinned.value else r.prefix) + argv, argv == [])
  }

  /** The commands of the eligible runners, in order. */
  function Tries(m: Machine, rs: seq<Runner>, argv: seq<string>): seq<Command> {
    if rs == [] then []
    else (if Eligible(m, rs[0]) then [Invocation(rs[0], argv)] else []) + Tries(m, rs[1..], argv)
  }

  lemma {:induction false} NextTry(m: Machine, rs: seq<Runner>, argv: seq<string>)
    ensures rs == [] ==> Tries(m, rs, argv) == []
    ensures rs != [] && Eligible(m, rs[0])
        ==> Tries(m, rs, argv) == [Invocation(rs[0], argv)] + Tries(m, rs[1..], argv)
    ensures rs != [] && !Eligible(m, rs[0]) ==> Tries(m, rs, argv) == Tries(m, rs[1..], argv)
  {}

  /** The commands are started in order; the first that starts is the last, and its status is the exit code. */
  ghost predicate Ran(m: Machine, tries: seq<Command>, spawned: seq<Command>, code: int) {
    exists k: nat :: StartsAt(m, tries, spawned, code, k)
  }

  /** The first command that starts is number `k`; there is none when `k` is their number. */
  predicate StartsAt(m: Machine, tries: seq<Command>, spawned: seq<Command>, code: int, k: nat) {
    && k <= |tries| && (forall i :: 0 <= i < k ==> m.spawn(tries[i]).failed)
    && if k == |tries| then spawned == tries && code == 1
       else !m.spawn(tries[k]).failed && spawned == tries[..k + 1] && code == ExitCode(m.spawn(tries[k]))
  }

  function ExitCode(o: Outcome): int {
    if o.status.Some? then o.status.value else 1
  }

  /** `main`: `spawned` lists the commands started, `code` is the exit code. */
  method Start(m: Machine, version: Option<string>, argv: seq<string>) returns (spawned: seq<Command>, code: int)
    ensures Ran(m, Tries(m, Runners(version), argv), spawned, code)
  {
    hide Runners, Has, Resolves, IsOwnShim, Candidates, FirstExecutable, ExitCode, Tries, Ran;
    spawned := [];
    var rs := Runners(version);
    ghost var all := Tries(m, rs, argv);
    for i := 0 to |rs|
      invariant all == spawned + Tries(m, rs[i..], argv)
      invariant forall j :: 0 <= j < |spawned| ==> m.spawn(spawned[j]).failed
    {
      var r := rs[i];
      assert rs[i..][0] == r && rs[i..][1..] == rs[i + 1..];
      NextTry(m, rs[i..], argv);
      if r.bin == COMMAND {
        var resolved := ResolveOnPath(m, r.bin);
        if resolved.None? || resolved.value == "" || IsOwnShim(m, resolved.value) {
          continue;
        }
      } else if !Has(m, r.bin) {
        continue;
      }
      var args := r.prefix;
      if r.pinned.Some? {
        if !Resolves(m, r.bin, r.pinned.value) {
          continue;
        }
        args := r.pinned.value;
      }
      var command := Command(r.bin, args + argv, argv == []);
      assert command == Invocation(r, argv);
      assert all == (spawned + [command]) + Tries(m, rs[i + 1..], argv);
      spawned := spawned + [command];
      var result := m.spawn(command);
      if !result.failed {
        assert spawned <= all;
        StopsHere(m, all, spawned);
        return spawned, ExitCode(result);
      }
    }
    NextTry(m, rs[|rs|..], argv);
    assert all == spawned;
    AllFailed(m, all);
    return spawned, 1;
  }

  lemma {:induction false} StopsHere(m: Machine, tries: seq<Command>, spawned: seq<Command>)
    requires spawned != [] && spawned <= tries
    requires forall j :: 0 <= j < |spawned| - 1 ==> m.spawn(spawned[j]).failed
    requires !m.spawn(spawned[|spawned| - 1]).failed
    ensures Ran(m, tries, spawned, ExitCode(m.spawn(spawned[|spawned| - 1])))
  {
    var k := |spawned| - 1;
    assert spawned == tries[..k + 1];
    assert forall j :: 0 <= j < k ==> tries[j] == spawned[j];
    assert StartsAt(m, tries, spawned, ExitCode(m.spawn(spawned[k])), k);
  }

  lemma {:induction false} AllFailed(m: Machine, tries: seq<Command>)
    requires forall j :: 0 <= j < |tries| ==> m.spawn(tries[j]).failed
    ensures Ran(m, tries, tries, 1)
  {
    assert StartsAt(m, tries, tries, 1, |tries|);
  }

  lemma {:induction false} TriesAreEligible(m: Machine, rs: seq<Runner>, argv: seq<string>, c: Command)
    requires c in Tries(m, rs, argv)
    ensures exists r :: r in rs && Eligible(m, r) && c == Invocation(r, argv)
  {
    if Eligible(m, rs[0]) && c == Invocation(rs[0], argv) {
      assert rs[0] in rs;
    } else {
      TriesAreEligible(m, rs[1..], argv, c);
    }
  }

  lemma {:induction false} SpawnedAreTries(m: Machine, tries: seq<Command>, spawned: seq<Command>, code: int,
                                           c: Command)
    requires Ran(m, tries, spawned, code) && c in spawned
    ensures c in tries
  {}

  /**
   On every machine: with a known version nothing is started through uvx or pipx but the package of
   exactly that version, which the runner could resolve; the one other program is `tj`, and only where
   the wrapper's walk found one that is not the wrapper.
   */
  lemma {:induction false} FailsClosed(m: Machine, version: string, argv: seq<string>, spawned: seq<Command>, code: int,
                                       c: Command)
    requires version != "" && Ran(m, Tries(m, Runners(Some(version)), argv), spawned, code) && c in spawned
    ensures c.bin == "uvx" ==>
              && c.args == ["--from", "tokenjam==" + version, "tj"] + argv
              && m.probe("uvx", ["--from", "tokenjam==" + version, "tj"] + ["--version"]) == Some(0)
    ensures c.bin == "pipx" ==>
              && c.args == ["run", "--spec", "tokenjam==" + version, "tj"] + argv
              && m.probe("pipx", ["run", "--spec", "tokenjam==" + version, "tj"] + ["--version"]) == Some(0)
    ensures c.bin in {"uvx", "pipx"} || (c.bin == "tj" && c.args == argv && Installed(m))
    ensures c.zeroInstall == (argv == [])
  {
    hide Runners, Ran;
    SpawnedAreTries(m, Tries(m, Runners(Some(version)), argv), spawned, code, c);
    TriedExactly(m, version, argv);
    assert |"uvx"| == 3 && |"pipx"| == 4 && |"tj"| == 2;
  }

  /** The exit code is 1 when nothing could be started, and nothing is left untried then. */
  lemma {:induction false} NothingStarted(m: Machine, version: Option<string>, argv: seq<string>, spawned: seq<Command>,
                                          code: int)
    requires Ran(m, Tries(m, Runners(version), argv), spawned, code)
    ensures (forall c :: c in spawned ==> m.spawn(c).failed)
        <==> (forall r :: r in Runners(version) && Eligible(m, r) ==> m.spawn(Invocation(r, argv)).failed)
    ensures (forall c :: c in spawned ==> m.spawn(c).failed) ==> code == 1
  {
    var rs := Runners(version);
    var tries := Tries(m, rs, argv);
    var k: nat :| StartsAt(m, tries, spawned, code, k);
    if k < |tries| {
      assert spawned[k] == tries[k] && tries[k] in spawned;
      TriesAreEligible(m, rs, argv, tries[k]);
    } else {
      forall r | r in rs && Eligible(m, r) ensures m.spawn(Invocation(r, argv)).failed {
        EligibleIsTried(m, rs, argv, r);
        var i :| 0 <= i < |tries| && tries[i] == Invocation(r, argv);
      }
    }
  }

  lemma {:induction false} EligibleIsTried(m: Machine, rs: seq<Runner>, argv: seq<string>, r: Runner)
    requires r in rs && Eligible(m, r)
    ensures Invocation(r, argv) in Tries(m, rs, argv)
  {
    if r != rs[0] {
      EligibleIsTried(m, rs[1..], argv, r);
    }
  }

  /** `<bin> --version` ended with 0 or 1. */
  predicate Answers(m: Machine, bin: string) {
    m.probe(bin, ["--version"]) == Some(0) || m.probe(bin, ["--version"]) == Some(1)
  }

  /**
   The commands tried with a known version, in order and all of them: uvx and pipx where they are there and
   the pinned package answers with 0, then the installed `tj`.
   */
  lemma {:induction false} TriedExactly(m: Machine, version: string, argv: seq<string>)
    requires version != ""
    ensures var uvx := ["--from", "tokenjam==" + version, "tj"];
            var pipx := ["run", "--spec", "tokenjam==" + version, "tj"];
            Tries(m, Runners(Some(version)), argv)
            == (if Answers(m, "uvx") && m.probe("uvx", uvx + ["--version"]) == Some(0)
                then [Command("uvx", uvx + argv, argv == [])] else [])
             + (if Answers(m, "pipx") && m.probe("pipx", pipx + ["--version"]) == Some(0)
                then [Command("pipx", pipx + argv, argv == [])] else [])
             + (if Installed(m) then [Command("tj", argv, argv == [])] else [])
  {
    hide Installed;
    assert PACKAGE + "==" + version == "tokenjam==" + version by { assert PACKAGE + "==" == "tokenjam=="; }
    ThreeTries(m, Runners(Some(version)), argv);
    assert [] + argv == argv;
  }

  /** Without a version whatever release there is will do, and is not probed for. */
  lemma {:induction false} TriedUnpinned(m: Machine, version: Option<string>, argv: seq<string>)
    requires version in {None, Some("")}
    ensures Tries(m, Runners(version), argv)
            == (if Answers(m, "uvx") then [Command("uvx", ["--from", "tokenjam", "tj"] + argv, argv == [])] else [])
             + (if Answers(m, "pipx")
                then [Command("pipx", ["run", "--spec", "tokenjam", "tj"] + argv, argv == [])] else [])
             + (if Installed(m) then [Command("tj", argv, argv == [])] else [])
  {
    hide Installed;
    ThreeTries(m, Runners(version), argv);
    assert [] + argv == argv;
  }

  lemma {:induction false} ThreeTries(m: Machine, rs: seq<Runner>, argv: seq<string>)
    requires |rs| == 3
    ensures Tries(m, rs, argv)
            == (if Eligible(m, rs[0]) then [Invocation(rs[0], argv)] else [])
             + (if Eligible(m, rs[1]) then [Invocation(rs[1], argv)] else [])
             + (if Eligible(m, rs[2]) then [Invocation(rs[2], argv)] else [])
  {
    hide Eligible, Invocation;
    assert rs[1..][1..] == [rs[2]] && rs[1..][1..][1..] == [];
    assert Tries(m, [], argv) == [];
    assert Tries(m, rs[1..][1..], argv) == if Eligible(m, rs[2]) then [Invocation(rs[2], argv)] else [];
  }

  /** Of the commands started all but the last failed to start; its status is the exit code, 1 for a signal. */
  lemma {:induction false} CodeExactly(m: Machine, tries: seq<Command>, spawned: seq<Command>, code: int)
    requires Ran(m, tries, spawned, code)
    ensures spawned <= tries
    ensures if spawned != [] && !m.spawn(spawned[|spawned| - 1]).failed
            then code == (match m.spawn(spawned[|spawned| - 1]).status case Some(n) => n case None => 1)
            else code == 1 && spawned == tries
    ensures forall i :: 0 <= i < |spawned| - 1 ==> m.spawn(spawned[i]).failed
  {
    var k: nat :| StartsAt(m, tries, spawned, code, k);
    assert forall i :: 0 <= i < k ==> spawned[i] == tries[i];
    if k < |tries| {
      assert |spawned| == k + 1 && spawned[k] == tries[k];
    }
  }

  /** Extension `j` in directory `i` is the first place on the walk that holds an executable. */
  ghost predicate FirstAt(m: Machine, bin: string, dirs: seq<string>, i: nat, j: nat) {
    && i < |dirs| && j < |m.exts| && dirs[i] != "" && m.executable(m.join(dirs[i], bin + m.exts[j]))
    && (forall l :: 0 <= l < j ==> !m.executable(m.join(dirs[i], bin + m.exts[l])))
    && forall k, l :: 0 <= k < i && 0 <= l < |m.exts| && dirs[k] != "" ==>
         !m.executable(m.join(dirs[k], bin + m.exts[l]))
  }

  lemma {:induction false} FirstInDir(m: Machine, bin: string, dir: string, exts: seq<string>)
    ensures var r := FirstExecutable(m, InDir(m, bin, dir, exts));
            && (r.None? <==> forall l :: 0 <= l < |exts| ==> !m.executable(m.join(dir, bin + exts[l])))
            && (r.Some? ==>
                  exists j :: 0 <= j < |exts| && r.value == m.join(dir, bin + exts[j]) && m.executable(r.value)
                              && forall l :: 0 <= l < j ==> !m.executable(m.join(dir, bin + exts[l])))
  {
    if exts != [] {
      var rest := exts[1..];
      FirstInDir(m, bin, dir, rest);
      assert forall l :: 0 <= l < |rest| ==> rest[l] == exts[l + 1];
      assert forall l :: 1 <= l < |exts| ==> exts[l] == rest[l - 1];
      var r := FirstExecutable(m, InDir(m, bin, dir, rest));
      if !m.executable(m.join(dir, bin + exts[0])) && r.Some? {
        var j :| 0 <= j < |rest| && r.value == m.join(dir, bin + rest[j])
                 && forall l :: 0 <= l < j ==> !m.executable(m.join(dir, bin + rest[l]));
        assert r.value == m.join(dir, bin + exts[j + 1]);
      }
    }
  }

  /** The walk ends at the first place, directories before extensions, and finds nothing where there is none. */
  lemma {:induction false} WalksExactly(m: Machine, bin: string, dirs: seq<string>)
    ensures var r := FirstExecutable(m, Candidates(m, bin, dirs));
            && (r.Some? ==>
                  exists i: nat, j: nat :: FirstAt(m, bin, dirs, i, j) && r.value == m.join(dirs[i], bin + m.exts[j]))
            && (r.None? ==> forall k, l :: 0 <= k < |dirs| && 0 <= l < |m.exts| && dirs[k] != "" ==>
                              !m.executable(m.join(dirs[k], bin + m.exts[l])))
  {
    hide FirstExecutable, Candidates;
    if dirs == [] {
      NoPlaces(m, bin);
    } else {
      var rest := dirs[1..];
      NextDir(m, bin, dirs);
      FirstInDir(m, bin, dirs[0], m.exts);
      WalksExactly(m, bin, rest);
      assert forall k :: 0 <= k < |rest| ==> rest[k] == dirs[k + 1];
      assert forall k :: 1 <= k < |dirs| ==> dirs[k] == rest[k - 1];
      var here := FirstExecutable(m, InDir(m, bin, dirs[0], m.exts));
      var later := FirstExecutable(m, Candidates(m, bin, rest));
      if dirs[0] != "" && here.Some? {
        var j :| 0 <= j < |m.exts| && here.value == m.join(dirs[0], bin + m.exts[j]) && m.executable(here.value)
                 && forall l :: 0 <= l < j ==> !m.executable(m.join(dirs[0], bin + m.exts[l]));
        assert FirstAt(m, bin, dirs, 0, j);
      } else if later.Some? {
        var i: nat, j: nat :| FirstAt(m, bin, rest, i, j) && later.value == m.join(rest[i], bin + m.exts[j]);
        assert dirs[i + 1] == rest[i];
        assert FirstAt(m, bin, dirs, i + 1, j);
      }
    }
  }

  lemma {:induction false} NoPlaces(m: Machine, bin: string)
    ensures FirstExecutable(m, Candidates(m, bin, [])) == None
  {}

  lemma {:induction false} OneFirst(m: Machine, bin: string, dirs: seq<string>, i: nat, j: nat, k: nat, l: nat)
    requires FirstAt(m, bin, dirs, i, j) && FirstAt(m, bin, dirs, k, l)
    ensures i == k && j == l
  {}

  /**
   `tj` counts as installed exactly when the first executable of that name on the walk does not lead to this
   very file.
   */
  lemma {:induction false} InstalledExactly(m: Machine)
    ensures Installed(m)
       <==> exists i: nat, j: nat :: FirstAt(m, "tj", m.dirs, i, j)
                           && var place := m.join(m.dirs[i], "tj" + m.exts[j]);
                              place != "" && (m.realpath(place) == None || m.realpath(place) != m.realpath(m.self))
  {
    hide FirstExecutable, Candidates, FirstAt;
    WalksExactly(m, "tj", m.dirs);
    var r := FirstExecutable(m, Candidates(m, "tj", m.dirs));
    assert (exists i: nat, j: nat :: FirstAt(m, "tj", m.dirs, i, j)) ==> r.Some? by { SomeFirst(m); }
    forall i: nat, j: nat, k: nat, l: nat | FirstAt(m, "tj", m.dirs, i, j) && FirstAt(m, "tj", m.dirs, k, l)
      ensures i == k && j == l
    {
      OneFirst(m, "tj", m.dirs, i, j, k, l);
    }
  }

  lemma {:induction false} SomeFirst(m: Machine)
    ensures (exists i: nat, j: nat :: FirstAt(m, "tj", m.dirs, i, j))
        ==> FirstExecutable(m, Candidates(m, "tj", m.dirs)).Some?
  {
    hide FirstExecutable, Candidates;
    WalksExactly(m, "tj", m.dirs);
  }
}
