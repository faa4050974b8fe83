/** From the name of an engine process back to the name of its volume. */
module VolumeName {
  import opened Wrappers
  import opened Text

  /** Drops the last two dash-separated pieces of a process name. `None` is the Go run-time
      panic: a negative slice bound. */
  function ProcessNameToVolumeName(processName: string): (r: Option<string>) {
    var slices := Split(processName, '-');
    if |slices| < 2 then None else Some(Join(slices[..|slices| - 2], '-'))
  }

  /** The last dash of an engine process name ends an infix "-e-" that has a character other
      than a line break before it: what the pattern `.+?-e-[^-]*$` matches. */
  ghost predicate EngineInfixAt(name: string, i: nat) {
    && 1 <= i <= |name| - 3
    && name[i - 1] != '\n'
    && name[i..i + 3] == "-e-"
    && Free(name[i + 3..], '-')
  }

  ghost predicate IsEngineProcess(name: string) {
    exists i: nat :: EngineInfixAt(name, i)
  }

  /** Stripping undoes appending, whatever dashes the volume name itself has. */
  lemma StripUndoesAppend(volume: string, x: string, y: string)
    requires Free(x, '-') && Free(y, '-')
    ensures ProcessNameToVolumeName(volume + "-" + x + "-" + y) == Some(volume)
  {
    var parts := Split(volume, '-');
    JoinSplit(volume, '-');
    assert Join([x, y], '-') == x + "-" + y by { assert [x, y][1..] == [y]; }
    JoinAppend(parts, [x, y], '-');
    SplitJoin(parts + [x, y], '-');
    assert volume + "-" + x + "-" + y == Join(parts + [x, y], '-');
    assert (parts + [x, y])[..|parts|] == parts;
  }

  /** The call panics exactly on names without a dash. */
  lemma PanicsOnlyWithoutDash(name: string)
    ensures ProcessNameToVolumeName(name).None? <==> Count(name, '-') == 0
  {
    JoinSplit(name, '-');
  }

  /** On an engine process name, the only kind the condition check passes in, the call never
      panics, and the volume name is everything before the engine infix. */
  lemma EngineNameStrips(name: string, i: nat)
    requires EngineInfixAt(name, i)
    ensures ProcessNameToVolumeName(name) == Some(name[..i])
  {
    StripUndoesAppend(name[..i], "e", name[i + 3..]);
    assert name == name[..i] + name[i..i + 3] + name[i + 3..];
    assert name == name[..i] + "-" + "e" + "-" + name[i + 3..];
  }

  /** So the condition check, which passes in nothing else, never panics. */
  lemma EngineNamesNeverPanic(name: string)
    requires IsEngineProcess(name)
    ensures ProcessNameToVolumeName(name).Some?
  {
    var i: nat :| EngineInfixAt(name, i);
    EngineNameStrips(name, i);
  }
}
