/** A text file opened for reading, as the parsers use it: a sequence of lines
    (without their terminators) and a cursor that `readline` advances. */
module TextFiles {
  import opened Outcomes
  import opened Text

  /** `f.readline()` on the lines `lines` with the cursor at `pos`: the line and the
      new cursor. At end of file the line is "" and the cursor stays. */
  function ReadAt(lines: seq<string>, pos: nat): (r: (string, nat))
    requires pos <= |lines|
    ensures pos < |lines| ==> r == (lines[pos], pos + 1)
    ensures pos == |lines| ==> r == ("", pos)
  {
    if pos < |lines| then (lines[pos], pos + 1) else ("", pos)
  }

  /** `find_target_line(f, target)`: read lines until one contains `target` and
      return it, or return None with the cursor at end of file. */
  function FindFrom(lines: seq<string>, pos: nat, target: string): (r: (Option<string>, nat))
    requires pos <= |lines|
    ensures pos <= r.1 <= |lines|
    ensures r.0.Some? ==> pos < r.1 && r.0.value == lines[r.1 - 1] && Contains(r.0.value, target)
    ensures r.0.Some? ==> forall k :: pos <= k < r.1 - 1 ==> !Contains(lines[k], target)
    ensures r.0.None? ==> r.1 == |lines| && forall k :: pos <= k < |lines| ==> !Contains(lines[k], target)
    decreases |lines| - pos
  {
    if pos == |lines| then (None, pos)
    else if Contains(lines[pos], target) then (Some(lines[pos]), pos + 1)
    else FindFrom(lines, pos + 1, target)
  }

  /** The first line at or after `pos` that contains `target` is what FindFrom returns. */
  lemma {:induction false} FindFromFirst(lines: seq<string>, pos: nat, target: string, k: nat)
    requires pos <= k < |lines| && Contains(lines[k], target)
    requires forall j :: pos <= j < k ==> !Contains(lines[j], target)
    ensures FindFrom(lines, pos, target) == (Some(lines[k]), k + 1)
    decreases k - pos
  {
    if pos < k {
      FindFromFirst(lines, pos + 1, target, k);
    }
  }

  class TextFile {
    const lines: seq<string>
    var pos: nat

    ghost predicate Valid()
      reads this
    {
      pos <= |lines|
    }

    /** `open(path)`: the cursor at the first line. */
    constructor (contents: seq<string>)
      ensures lines == contents && pos == 0 && Valid()
    {
      lines := contents;
      pos := 0;
    }

    /** `f.readline()` */
    method ReadLine() returns (line: string)
      requires Valid()
      modifies this
      ensures Valid()
      ensures (line, pos) == ReadAt(lines, old(pos))
    {
      if pos < |lines| {
        line := lines[pos];
        pos := pos + 1;
      } else {
        line := "";
      }
    }

    /** `find_target_line(f, target)`, which reads line by line. */
    method FindTargetLine(target: string) returns (found: Option<string>)
      requires Valid()
      modifies this
      ensures Valid()
      ensures (found, pos) == FindFrom(lines, old(pos), target)
    {
      found := None;
      while pos < |lines|
        invariant old(pos) <= pos <= |lines|
        invariant FindFrom(lines, old(pos), target) == FindFrom(lines, pos, target)
        decreases |lines| - pos
      {
        var line := ReadLine();
        if Contains(line, target) {
          found := Some(line);
          return;
        }
      }
    }
  }
}
