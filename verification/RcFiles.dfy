/**
 The rc files on disk and the methods that rewrite them step by step
 (tokenjam/cli/cmd_onboard.py and the teardown of tokenjam/cli/cmd_uninstall.py).
 */
module RcFiles {
  import opened Prelude
  import opened TextScan
  import opened Refresh
  import opened ShellRc
  import opened RcPipeline
  import opened RcPath

  datatype Rc = Zsh | Bash

  /** A file that does not exist yet is created empty by `touch`. */
  function Touched(file: Option<string>): string {
    match file case Some(t) => t case None => ""
  }

  function Edited(file: Option<string>, edit: string -> string): Option<string> {
    match file case Some(t) => Some(edit(t)) case None => None
  }

  /** The home directory, as far as the shell rc files go. */
  class Home {
    var zshrc: Option<string>
    var bashrc: Option<string>

    function Read(rc: Rc): Option<string>
      reads this
    {
      if rc == Zsh then zshrc else bashrc
    }

    method Write(rc: Rc, text: string)
      modifies this
      ensures zshrc == if rc == Zsh then Some(text) else old(zshrc)
      ensures bashrc == if rc == Bash then Some(text) else old(bashrc)
    {
      if rc == Zsh {
        zshrc := Some(text);
      } else {
        bashrc := Some(text);
      }
    }

    /** Always the zshrc, created if absent; the bashrc only where there is one. */
    method InstallClaudeWrapper(wrapper: string) returns (written: seq<Rc>)
      modifies this
      ensures zshrc == Some(InstallWrapper(wrapper, Touched(old(zshrc))))
      ensures bashrc == Edited(old(bashrc), t => InstallWrapper(wrapper, t))
      ensures written == if old(bashrc).Some? then [Zsh, Bash] else [Zsh]
    {
      hide ReplaceBlocks, Occurs;
      zshrc := Some(Touched(zshrc));
      var targets := [Zsh];
      if bashrc.Some? {
        targets := targets + [Bash];
      }
      written := [];
      for i := 0 to |targets|
        invariant written == targets[..i]
        invariant zshrc == Some(if i > 0 then InstallWrapper(wrapper, Touched(old(zshrc))) else Touched(old(zshrc)))
        invariant bashrc == if i > 1 then Edited(old(bashrc), t => InstallWrapper(wrapper, t)) else old(bashrc)
      {
        var rc := targets[i];
        var text := Read(rc).value;
        if !Occurs(WRAPPER_MARKER, text) {
          Write(rc, text + ((if Complete(text) then "" else "\n") + "\n" + wrapper));
          assert text + ((if Complete(text) then "" else "\n") + "\n" + wrapper) == InstallWrapper(wrapper, text);
        } else {
          Write(rc, ReplaceBlocks(WRAPPER_MARKER, WRAPPER_END, Newline, wrapper, text));
        }
        written := written + [rc];
      }
    }

    /** Returns the files that changed. */
    method UnwireClaudeWrapper() returns (removed: seq<Rc>)
      modifies this
      ensures zshrc == Edited(old(zshrc), UnwireWrapper)
      ensures bashrc == Edited(old(bashrc), UnwireWrapper)
      ensures forall rc :: rc in removed <==> Read(rc) != old(Read(rc))
    {
      hide ReplaceBlocks, Occurs;
      removed := [];
      var targets := [Zsh, Bash];
      for i := 0 to |targets|
        invariant zshrc == if i > 0 then Edited(old(zshrc), UnwireWrapper) else old(zshrc)
        invariant bashrc == if i > 1 then Edited(old(bashrc), UnwireWrapper) else old(bashrc)
        invariant forall rc :: rc in removed <==> Read(rc) != old(Read(rc))
      {
        var rc := targets[i];
        match Read(rc) {
          case None => continue;
          case Some(text) =>
            if !Occurs(WRAPPER_MARKER, text) {
              continue;
            }
            var updated := ReplaceBlocks(WRAPPER_MARKER, WRAPPER_END, NewlineOrEnd, "", text);
            if updated != text {
              Write(rc, updated);
              removed := removed + [rc];
            }
        }
      }
    }

    /** The shell part of one onboard run. */
    method OnboardShell(block: string, wrapper: string)
      modifies this
      ensures zshrc == Some(Onboard(block, wrapper, Touched(old(zshrc))))
      ensures bashrc == Edited(old(bashrc), t => InstallWrapper(wrapper, t))
    {
      zshrc := Some(Touched(zshrc));
      var stripped := StripOtel(zshrc.value);
      var updated := if !Blank(stripped) then RStripNewlines(stripped) + "\n\n" + block else block;
      zshrc := Some(updated);
      var _ := InstallClaudeWrapper(wrapper);
    }

    /** The end of a run: `missing` is the directory of `tj` if PATH does not lead to it and uv did not help. */
    method EnsureTjOnPath(missing: Option<string>) returns (wrote: bool)
      modifies this
      ensures zshrc == if missing.Some? then Some(EnsurePath(missing, Touched(old(zshrc)))) else old(zshrc)
      ensures bashrc == old(bashrc)
      ensures wrote <==> missing.Some? && !Occurs(PATH_START, Touched(old(zshrc)))
    {
      hide Occurs, PathBlock;
      if missing.None? {
        return false;
      }
      zshrc := Some(Touched(zshrc));
      var text := zshrc.value;
      if Occurs(PATH_START, text) {
        return false;
      }
      zshrc := Some(text + ((if Complete(text) then "" else "\n") + "\n" + PathBlock(missing.value)));
      assert zshrc.value == EnsurePath(missing, text);
      return true;
    }

    /** The shell part of uninstalling. */
    method TeardownShell()
      modifies this
      ensures zshrc == Edited(old(zshrc), Uninstall)
      ensures bashrc == Edited(old(bashrc), UnwireWrapper)
    {
      if zshrc.Some? {
        var cleaned := StripOtel(zshrc.value);
        if cleaned != zshrc.value {
          zshrc := Some(cleaned);
        }
      }
      var _ := UnwireClaudeWrapper();
    }
  }

  /**
   The bashrc carries the wrapper only.  Whatever the file holds, installing another wrapper, of
   another release say, is the same as installing only that one, and installing the same one again
   changes nothing.
   */
  lemma {:induction false} LatestWrapperOnly(w: string, v: string, t: string)
    requires IsWrapper(w) && IsWrapper(v)
    ensures InstallWrapper(v, InstallWrapper(w, t)) == InstallWrapper(v, t)
  {
    hide ReplaceBlocks, Occurs;
    WrapperFits(w);
    WrapperFits(v);
    if Occurs(WRAPPER_MARKER, t) {
      MarkerCount(WRAPPER_MARKER, WRAPPER_END, w, t);
      RefreshTwice(WRAPPER_MARKER, WRAPPER_END, w, v, t);
    } else {
      var front := FrontOf(t);
      FrontIsClean(t);
      assert InstallWrapper(w, t) == front + w;
      MarkerInFront(front, w);
      TooShortForMarker();
      RemoveBetween(WRAPPER_MARKER, WRAPPER_END, w, v, front, "");
      assert front + w + "" == front + w && front + v + "" == front + v;
      assert InstallWrapper(v, t) == front + v;
    }
  }

  lemma {:induction false} TooShortForMarker()
    ensures !Occurs(WRAPPER_MARKER, "")
  {}

  /** The file up to and including the blank line in front of a fresh wrapper. */
  function FrontOf(t: string): string {
    t + (if Complete(t) then "" else "\n") + "\n"
  }

  lemma {:induction false} FrontIsClean(t: string)
    requires !Occurs(WRAPPER_MARKER, t)
    ensures Complete(FrontOf(t)) && !Occurs(WRAPPER_MARKER, FrontOf(t))
    ensures RStripNewlines(FrontOf(t)) == RStripNewlines(t)
  {
    hide Occurs;
    MarkerShapes();
    HashLineAnchors(WRAPPER_MARKER);
    RStripTwo(t);
    if Complete(t) {
      OccursInFront(WRAPPER_MARKER, t, "\n");
      assert FrontOf(t) == t + "\n";
    } else {
      NoMarkerAfterNewlines(t);
      assert FrontOf(t) == t + "\n\n" == t + "\n" + "\n";
    }
  }

  /** Installing into a file without a wrapper and unwiring gives the file back up to trailing newlines. */
  lemma {:induction false} WrapperRoundTrip(w: string, t: string)
    requires IsWrapper(w) && !Occurs(WRAPPER_MARKER, t)
    ensures RStripNewlines(UnwireWrapper(InstallWrapper(w, t))) == RStripNewlines(t)
  {
    hide ReplaceBlocks, Occurs;
    WrapperFits(w);
    FrontIsClean(t);
    TooShortForMarker();
    assert InstallWrapper(w, t) == FrontOf(t) + w + "";
    UnwireEqualsRemoval(InstallWrapper(w, t));
    RemoveBetween(WRAPPER_MARKER, WRAPPER_END, w, w, FrontOf(t), "");
    assert FrontOf(t) + "" == FrontOf(t);
  }
}
