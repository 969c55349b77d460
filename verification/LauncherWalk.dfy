/**
 Which program a bare `tj` is (npm-wrapper/bin/tj.js).  The wrapper walks PATH by itself to find out
 whether another `tj` is installed, and then leaves it to the system to walk PATH again.
 */
module LauncherWalk {
  import opened Prelude
  import opened Launcher

  /** What the system starts for a bare name: along PATH, an empty entry being the current directory. */
  function Launched(m: Machine, bin: string, dirs: seq<string>): Option<string> {
    if dirs == [] then None
    else
      var p := m.place(if dirs[0] == "" then "." else dirs[0], bin);
      if m.runnable(p) then Some(p) else Launched(m, bin, dirs[1..])
  }

  predicate ShimFirst(m: Machine) {
    var p := Launched(m, COMMAND, m.dirs);
    p.Some? && IsOwnShim(m, p.value)
  }

  /** The command starts the wrapper, which is then to do the same again. */
  predicate StartsItself(m: Machine, c: Command) { c.bin == COMMAND && ShimFirst(m) }

  /** Neither uvx nor pipx gets anywhere. */
  predicate OthersFail(m: Machine, version: Option<string>, argv: seq<string>) {
    forall r :: r in Runners(version) && r.bin != COMMAND && Eligible(m, r) ==> m.spawn(Invocation(r, argv)).failed
  }

  /**
   The wrapper starts itself exactly when it gets as far as `tj`, its own walk finds something else
   first, and the system's walk finds the wrapper first.
   */
  lemma {:induction false} StartsItselfExactly(m: Machine, version: Option<string>, argv: seq<string>,
                                               spawned: seq<Command>, code: int)
    requires Ran(m, Tries(m, Runners(version), argv), spawned, code)
    ensures (exists c :: c in spawned && StartsItself(m, c))
       <==> OthersFail(m, version, argv) && Installed(m) && ShimFirst(m)
  {
    hide ShimFirst, Installed, Has, Resolves;
    var tries := Tries(m, Runners(version), argv);
    var own := Invocation(Runner(COMMAND, None, []), argv);
    LastTry(m, version, argv);
    var k: nat :| StartsAt(m, tries, spawned, code, k);
    assert tries[..|tries|] == tries;
    if OthersFail(m, version, argv) && Installed(m) {
      var n := |tries| - 1;
      assert forall i :: 0 <= i < n ==> m.spawn(tries[i]).failed;
      assert own == spawned[n] && own in spawned;
    } else if Installed(m) {
      var n := |tries| - 1;
      var i :| 0 <= i < n && !m.spawn(tries[i]).failed;
      assert k <= i;
      forall c | c in spawned ensures c.bin != COMMAND {
        var j :| 0 <= j < |spawned| && spawned[j] == c;
        assert c == tries[j] && j < n;
      }
    }
  }

  lemma {:induction false} TriesAre(m: Machine, version: Option<string>, argv: seq<string>)
    ensures var rs := Runners(version);
            Tries(m, rs, argv)
            == (if Eligible(m, rs[0]) then [Invocation(rs[0], argv)] else [])
               + (if Eligible(m, rs[1]) then [Invocation(rs[1], argv)] else [])
               + (if Installed(m) then [Invocation(rs[2], argv)] else [])
  {
    hide Has, Resolves, Installed, Invocation;
    var rs := Runners(version);
    NextTry(m, rs, argv);
    NextTry(m, rs[1..], argv);
    NextTry(m, rs[1..][1..], argv);
    NextTry(m, rs[1..][1..][1..], argv);
    assert rs[1..][0] == rs[1] && rs[1..][1..][0] == rs[2];
  }

  /** `tj` is the last to be tried, and tried exactly if installed. */
  lemma {:induction false} LastTry(m: Machine, version: Option<string>, argv: seq<string>)
    ensures var tries := Tries(m, Runners(version), argv);
            var own := Invocation(Runner(COMMAND, None, []), argv);
            && (Installed(m) ==> tries != [] && tries[|tries| - 1] == own)
            && (forall i :: 0 <= i < |tries| - (if Installed(m) then 1 else 0) ==> tries[i].bin != COMMAND)
            && (OthersFail(m, version, argv) <==>
                  forall i :: 0 <= i < |tries| - (if Installed(m) then 1 else 0) ==> m.spawn(tries[i]).failed)
  {
    hide Eligible, Installed, OthersFail, Tries;
    TriesAre(m, version, argv);
    OthersAre(m, version, argv);
    var rs, tries := Runners(version), Tries(m, Runners(version), argv);
    var a, b := Invocation(rs[0], argv), Invocation(rs[1], argv);
    var others := (if Eligible(m, rs[0]) then [a] else []) + (if Eligible(m, rs[1]) then [b] else []);
    assert tries == others + (if Installed(m) then [Invocation(rs[2], argv)] else []);
    assert |others| == |tries| - (if Installed(m) then 1 else 0);
    assert Eligible(m, rs[0]) ==> others[0] == a;
    assert Eligible(m, rs[1]) ==> others[|others| - 1] == b;
    assert forall i :: 0 <= i < |others| ==> tries[i] == others[i];
  }

  lemma {:induction false} OthersAre(m: Machine, version: Option<string>, argv: seq<string>)
    ensures var rs := Runners(version);
            OthersFail(m, version, argv) <==>
            && (Eligible(m, rs[0]) ==> m.spawn(Invocation(rs[0], argv)).failed)
            && (Eligible(m, rs[1]) ==> m.spawn(Invocation(rs[1], argv)).failed)
  {
    hide Has, Resolves, Installed, Invocation;
    var rs := Runners(version);
    assert rs[0] in rs && rs[1] in rs;
    assert forall r :: r in rs ==> r == rs[0] || r == rs[1] || r.bin == COMMAND;
    assert rs[0].bin != COMMAND && rs[1].bin != COMMAND;
  }

  /**
   Where every PATH entry is named, leads the wrapper and the system to the same place, and holds no
   `tj` that only one of them would take.
   */
  predicate Orderly(m: Machine) {
    && m.exts == [""]
    && forall i :: 0 <= i < |m.dirs| ==>
         var p := m.place(m.dirs[i], COMMAND);
         m.dirs[i] != "" && m.join(m.dirs[i], COMMAND) == p && m.executable(p) == m.runnable(p)
  }

  lemma {:induction false} SameWalk(m: Machine, dirs: seq<string>)
    requires m.exts == [""]
    requires forall i :: 0 <= i < |dirs| ==>
               var p := m.place(dirs[i], COMMAND);
               dirs[i] != "" && m.join(dirs[i], COMMAND) == p && m.executable(p) == m.runnable(p)
    ensures FirstExecutable(m, Candidates(m, COMMAND, dirs)) == Launched(m, COMMAND, dirs)
  {
    if dirs != [] {
      NextDir(m, COMMAND, dirs);
      SameWalk(m, dirs[1..]);
      assert COMMAND + "" == COMMAND;
      assert m.exts[1..] == [];
    }
  }

  /** There the wrapper never starts itself. */
  lemma {:induction false} NeverItself(m: Machine, version: Option<string>, argv: seq<string>,
                                       spawned: seq<Command>, code: int, c: Command)
    requires Ran(m, Tries(m, Runners(version), argv), spawned, code) && c in spawned
    requires Orderly(m)
    ensures !StartsItself(m, c)
  {
    StartsItselfExactly(m, version, argv, spawned, code);
    SameWalk(m, m.dirs);
  }

  /** A machine without uvx and pipx, on which `shim` leads to the wrapper. */
  function Unpackaged(dirs: seq<string>, seen: set<string>, shim: string): Machine {
    Machine((_, _) => None, dirs, [""], (d, b) => d + "/" + b, p => p in seen,
            (d, b) => d + "/" + b, p => p in seen && p != "/a/tj", p => Some(if p == shim then "tj.js" else p), "tj.js",
            (c: Command) => Outcome(c.bin != COMMAND, Some(0)))
  }

  lemma {:induction false} OnlyTj(m: Machine)
    requires forall bin, args :: m.probe(bin, args) == None
    ensures Tries(m, Runners(Some("1.0.0")), []) == if Installed(m) then [Command(COMMAND, [], true)] else []
  {
    hide Installed, Tries;
    TriesAre(m, Some("1.0.0"), []);
    var none: seq<string> := [];
    assert none + none == none;
  }

  lemma {:induction false} WalkedOnce(m: Machine, a: string, b: string)
    requires m.dirs == [a, b] && m.exts == [""]
    ensures var x, y := m.join(a, COMMAND), m.join(b, COMMAND);
            FirstExecutable(m, Candidates(m, COMMAND, m.dirs))
            == if a != "" && m.executable(x) then Some(x)
               else if b != "" && m.executable(y) then Some(y) else None
    ensures var x, y := m.place(if a == "" then "." else a, COMMAND), m.place(if b == "" then "." else b, COMMAND);
            Launched(m, COMMAND, m.dirs) == if m.runnable(x) then Some(x) else if m.runnable(y) then Some(y) else None
  {
    NextDir(m, COMMAND, [a, b]);
    assert [a, b][1..] == [b];
    NextDir(m, COMMAND, [b]);
    assert [b][1..] == [] && m.exts[1..] == [];
    assert Launched(m, COMMAND, []) == None;
    var y := m.place(if b == "" then "." else b, COMMAND);
    assert Launched(m, COMMAND, [b]) == if m.runnable(y) then Some(y) else None;
    assert COMMAND + "" == COMMAND;
  }

  lemma {:induction false} Loops(m: Machine, dirs: seq<string>, seen: set<string>, shim: string)
    requires m == Unpackaged(dirs, seen, shim) && Installed(m) && ShimFirst(m)
    ensures Ran(m, Tries(m, Runners(Some("1.0.0")), []), [Command(COMMAND, [], true)], 0)
    ensures StartsItself(m, Command(COMMAND, [], true))
  {
    hide Installed, ShimFirst;
    OnlyTj(m);
    var own := Command(COMMAND, [], true);
    assert [own][..1] == [own];
    assert StartsAt(m, [own], [own], 0, 0);
  }

  /** `/a/tj` is a directory: the wrapper takes it for an installed `tj`, the system passes over it. */
  lemma {:induction false} DirectoryInFront()
    ensures var m := Unpackaged(["/a", "/b"], {"/a/tj", "/b/tj"}, "/b/tj");
            && Ran(m, Tries(m, Runners(Some("1.0.0")), []), [Command(COMMAND, [], true)], 0)
            && StartsItself(m, Command(COMMAND, [], true))
  {
    var m := Unpackaged(["/a", "/b"], {"/a/tj", "/b/tj"}, "/b/tj");
    WalkedOnce(m, "/a", "/b");
    assert "/a" + "/" + COMMAND == "/a/tj" && "/b" + "/" + COMMAND == "/b/tj";
    Loops(m, ["/a", "/b"], {"/a/tj", "/b/tj"}, "/b/tj");
  }

  /** An empty entry: the wrapper skips it, the system looks into the current directory. */
  lemma {:induction false} EmptyEntry()
    ensures var m := Unpackaged(["", "/c"], {"./tj", "/c/tj"}, "./tj");
            && Ran(m, Tries(m, Runners(Some("1.0.0")), []), [Command(COMMAND, [], true)], 0)
            && StartsItself(m, Command(COMMAND, [], true))
  {
    var m := Unpackaged(["", "/c"], {"./tj", "/c/tj"}, "./tj");
    WalkedOnce(m, "", "/c");
    assert "." + "/" + COMMAND == "./tj" && "/c" + "/" + COMMAND == "/c/tj";
    Loops(m, ["", "/c"], {"./tj", "/c/tj"}, "./tj");
  }
}
