/**
  `get_requirements` from setup.py: read requirements.txt line by line, strip
  each line, and keep it unless it is empty or the editable-install marker
  "-e .". A missing file yields an empty list.
*/
module Setup {
  import opened Wrappers
  import opened PyStr

  /** The editable self-install line that is never passed on as a requirement. */
  const EditableInstall: string := "-e ."

  /** The test applied to each stripped line: non-empty and not "-e .". */
  predicate Keep(requirement: string)
  {
    requirement != "" && requirement != EditableInstall
  }

  /** Every line of the file after `.strip()`. */
  function StripAll(lines: seq<string>): (stripped: seq<string>)
  {
    seq(|lines|, i requires 0 <= i < |lines| => Strip(lines[i]))
  }

  /** The stripped lines that pass Keep, in their original order. */
  function KeepFiltered(stripped: seq<string>): (reqs: seq<string>)
    ensures |reqs| <= |stripped|
    ensures forall k | 0 <= k < |reqs| :: Keep(reqs[k])
  {
    if stripped == [] then []
    else
      var last := stripped[|stripped| - 1];
      KeepFiltered(stripped[..|stripped| - 1]) + (if Keep(last) then [last] else [])
  }

  /** The requirement list that get_requirements builds from the file's lines. */
  function Requirements(lines: seq<string>): seq<string>
  {
    KeepFiltered(StripAll(lines))
  }

  /** The positions that KeepFiltered keeps, in increasing order. */
  function KeptIndices(stripped: seq<string>): seq<nat>
  {
    if stripped == [] then []
    else
      KeptIndices(stripped[..|stripped| - 1]) + (if Keep(stripped[|stripped| - 1]) then [|stripped| - 1] else [])
  }

  /**
    KeepFiltered is exactly the order-preserving filter: entry k is the
    element at the k-th kept position, the kept positions increase (so order
    and duplicates are preserved), and a position is kept iff its element
    passes Keep.
  */
  lemma {:induction false} KeepFilteredIsFilter(stripped: seq<string>)
    ensures |KeptIndices(stripped)| == |KeepFiltered(stripped)|
    ensures forall k | 0 <= k < |KeptIndices(stripped)| ::
              KeptIndices(stripped)[k] < |stripped| && KeepFiltered(stripped)[k] == stripped[KeptIndices(stripped)[k]]
    ensures forall k, l | 0 <= k < l < |KeptIndices(stripped)| :: KeptIndices(stripped)[k] < KeptIndices(stripped)[l]
    ensures forall i | 0 <= i < |stripped| :: i in KeptIndices(stripped) <==> Keep(stripped[i])
  {
    if stripped != [] {
      var last := |stripped| - 1;
      var init := stripped[..last];
      KeepFilteredIsFilter(init);
      var idx, reqs := KeptIndices(stripped), KeepFiltered(stripped);
      var idx0, reqs0 := KeptIndices(init), KeepFiltered(init);
      if Keep(stripped[last]) {
        assert idx == idx0 + [last] && reqs == reqs0 + [stripped[last]];
        assert idx[|idx0|] == last && reqs[|idx0|] == stripped[last];
      } else {
        assert idx == idx0 && reqs == reqs0;
      }
      assert |idx| == |reqs|;
      forall k | 0 <= k < |idx0| ensures idx[k] == idx0[k] < last && reqs[k] == reqs0[k] == stripped[idx[k]] {
        assert init[idx0[k]] == stripped[idx0[k]];
      }
      forall k, l | 0 <= k < l < |idx| ensures idx[k] < idx[l] {
        assert idx[k] == idx0[k];
      }
      forall i | 0 <= i < last ensures i in idx <==> Keep(stripped[i]) {
        assert stripped[i] == init[i];
        assert i in idx <==> i in idx0;
      }
      assert last in idx <==> Keep(stripped[last]);
    }
  }

  /**
    A string is a returned requirement iff it is the stripped form of some
    line and is neither empty nor "-e .".
  */
  lemma RequirementMembership(lines: seq<string>, x: string)
    ensures x in Requirements(lines) <==> exists i | 0 <= i < |lines| :: Strip(lines[i]) == x && Keep(x)
  {
    var stripped := StripAll(lines);
    KeepFilteredIsFilter(stripped);
    var idx, reqs := KeptIndices(stripped), KeepFiltered(stripped);
    if x in reqs {
      var k :| 0 <= k < |reqs| && reqs[k] == x;
      assert Strip(lines[idx[k]]) == x;
    }
    if i :| 0 <= i < |lines| && Strip(lines[i]) == x && Keep(x) {
      assert stripped[i] == x;
      assert i in idx;
      var k :| 0 <= k < |idx| && idx[k] == i;
      assert reqs[k] == x;
    }
  }

  /** Every returned requirement is already stripped: it has no surrounding whitespace. */
  lemma RequirementsAreStripped(lines: seq<string>)
    ensures forall k | 0 <= k < |Requirements(lines)| :: Strip(Requirements(lines)[k]) == Requirements(lines)[k]
  {
    var reqs := Requirements(lines);
    forall k | 0 <= k < |reqs| ensures Strip(reqs[k]) == reqs[k] {
      RequirementMembership(lines, reqs[k]);
      var i :| 0 <= i < |lines| && Strip(lines[i]) == reqs[k];
      StripIdempotent(lines[i]);
    }
  }

  /**
    Neither the empty string nor "-e ." is ever returned, however the line
    that produced it was padded: the test runs on the stripped line.
  */
  lemma EditableInstallNeverReturned(lines: seq<string>)
    ensures EditableInstall !in Requirements(lines) && "" !in Requirements(lines)
    ensures forall i | 0 <= i < |lines| && Strip(lines[i]) == EditableInstall :: Strip(lines[i]) !in Requirements(lines)
  {
  }

  /** Example: a padded "-e ." line strips to the editable-install marker itself. */
  lemma StripPaddedEditableInstall()
    ensures Strip("  -e .  \n") == EditableInstall
  {
    assert TrimStart("  -e .  \n") == TrimStart(" -e .  \n") == TrimStart("-e .  \n") == "-e .  \n";
    var a, b, c, d := "-e .  \n", "-e .  ", "-e . ", "-e .";
    assert a[..6] == b && b[..5] == c && c[..4] == d && IsSpace(a[6]) && IsSpace(b[5]) && IsSpace(c[4]);
    assert TrimEnd(c) == TrimEnd(d) == d;
    assert TrimEnd(b) == TrimEnd(c);
    assert TrimEnd(a) == TrimEnd(b);
  }

  /** Example: stripping a requirement line removes its line terminator only. */
  lemma StripNumpyLines()
    ensures Strip("numpy\n") == "numpy" && Strip("numpy") == "numpy"
  {
  }

  /** Example: filtering drops the marker and keeps both copies of a repeated requirement. */
  lemma KeepFilteredExample()
    ensures KeepFiltered([EditableInstall, "numpy", "numpy"]) == ["numpy", "numpy"]
  {
    assert KeepFiltered([EditableInstall]) == [];
    assert [EditableInstall, "numpy"][..1] == [EditableInstall];
    assert KeepFiltered([EditableInstall, "numpy"]) == ["numpy"];
    assert [EditableInstall, "numpy", "numpy"][..2] == [EditableInstall, "numpy"];
  }

  /**
    Example: the keep test runs after stripping, so a padded "-e ." line is dropped
    like "-e ." itself, while repeated requirements are all kept.
  */
  lemma PaddedEditableInstallDropped()
    ensures Requirements(["  -e .  \n", "numpy\n", "numpy"]) == ["numpy", "numpy"]
  {
    var lines := ["  -e .  \n", "numpy\n", "numpy"];
    assert StripAll(lines) == [EditableInstall, "numpy", "numpy"] by {
      StripPaddedEditableInstall();
      StripNumpyLines();
    }
    KeepFilteredExample();
  }

  /** Stripping one more line appends its stripped form. */
  lemma StripAllExtend(lines: seq<string>, i: nat)
    requires i < |lines|
    ensures StripAll(lines[..i + 1]) == StripAll(lines[..i]) + [Strip(lines[i])]
    ensures KeepFiltered(StripAll(lines[..i + 1]))
            == KeepFiltered(StripAll(lines[..i])) + (if Keep(Strip(lines[i])) then [Strip(lines[i])] else [])
  {
  }

  /** What opening requirements.txt and calling readlines() produced. */
  datatype RequirementsFile =
    | Lines(lines: seq<string>)     // the file's lines, line terminators included
    | FileNotFound                  // FileNotFoundError: caught, the list stays empty
    | OSError(reason: string)       // any other error: not caught, propagates

  /** get_requirements: the loop that strips, filters and appends each line. */
  method GetRequirements(file: RequirementsFile) returns (r: Result<seq<string>, string>)
    ensures file.FileNotFound? ==> r == Success([])
    ensures file.OSError? ==> r == Failure(file.reason)
    ensures file.Lines? ==> r == Success(Requirements(file.lines))
  {
    var requirementList: seq<string> := [];
    match file {
      case FileNotFound =>
      case OSError(reason) =>
        return Failure(reason);
      case Lines(lines) =>
        for i := 0 to |lines|
          invariant requirementList == KeepFiltered(StripAll(lines[..i]))
        {
          var requirement := Strip(lines[i]);
          StripAllExtend(lines, i);
          if requirement != "" && requirement != EditableInstall {
            requirementList := requirementList + [requirement];
          }
        }
        assert lines[..|lines|] == lines;
    }
    return Success(requirementList);
  }
}
