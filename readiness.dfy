/**
  What the launcher looks for in the server's standard output while it starts:
  the readiness line "Done (<elapsed>)!", and the last non-blank line seen, which
  is reported when the output ends first.
 */
module Readiness {
  import opened Wrappers
  import opened PyStr

  /**
    A line as `readline()` hands it over before end of file: never empty, since it
    keeps its line break (or is the unterminated last line). Only EOF reads as "".
   */
  type RawLine = s: string | s != [] witness "\n"

  predicate OpensAt(line: string, i: int) {
    0 <= i && i + 6 <= |line| && line[i..i + 6] == "Done ("
  }

  predicate ClosesAt(line: string, j: int) {
    0 <= j && j + 2 <= |line| && line[j..j + 2] == ")!"
  }

  predicate NoLineFeed(line: string, from: int, to: int)
    requires 0 <= from <= to <= |line|
  {
    forall k | from <= k < to :: line[k] != '\n'
  }

  /**
    `re.search(r"Done \(.*\)!", line) is not None`: "Done (" and, later on the same
    line, ")!"; the `.*` between them may be anything but a line feed.
   */
  predicate HasDoneMarker(line: string) {
    exists i | 0 <= i < |line| && OpensAt(line, i) ::
      exists j | i + 6 <= j < |line| && ClosesAt(line, j) :: NoLineFeed(line, i + 6, j)
  }

  /** The stripped text of `raw` carries the readiness marker. */
  predicate IsReadyLine(raw: string) {
    HasDoneMarker(Strip(raw))
  }

  /** The index of the first line that announces readiness, if any. */
  function FirstReadyLine(lines: seq<RawLine>): Option<nat> {
    if lines == [] then None
    else if IsReadyLine(lines[0]) then Some(0)
    else
      match FirstReadyLine(lines[1..])
      case None => None
      case Some(k) => Some(k + 1)
  }

  /**
    The scan finds a line exactly when one announces readiness, and what it finds is the
    first such line.
   */
  lemma {:induction false} FirstReadyLineMeaning(lines: seq<RawLine>)
    ensures var r := FirstReadyLine(lines);
      && (r.Some? ==> r.value < |lines| && IsReadyLine(lines[r.value]))
      && (r.Some? ==> forall j | 0 <= j < r.value :: !IsReadyLine(lines[j]))
      && (r.None? <==> forall j | 0 <= j < |lines| :: !IsReadyLine(lines[j]))
  {
    if lines != [] && !IsReadyLine(lines[0]) {
      var rest := lines[1..];
      FirstReadyLineMeaning(rest);
      assert forall j | 1 <= j < |lines| :: lines[j] == rest[j - 1];
    }
  }

  /** Line `j` is the last line whose stripped text is not empty. */
  ghost predicate LastNonBlankAt(lines: seq<RawLine>, j: int) {
    && 0 <= j < |lines|
    && Strip(lines[j]) != ""
    && forall k | j < k < |lines| :: Strip(lines[k]) == ""
  }

  /** The last non-blank line in stripped form, or "" when every line is blank. */
  function LastNonBlank(lines: seq<RawLine>): string {
    if lines == [] then ""
    else if Strip(lines[|lines| - 1]) != "" then Strip(lines[|lines| - 1])
    else LastNonBlank(lines[..|lines| - 1])
  }

  /** What the failed launch reports is "" exactly when every line is blank. */
  lemma {:induction false} LastNonBlankEmpty(lines: seq<RawLine>)
    ensures LastNonBlank(lines) == "" <==> forall j | 0 <= j < |lines| :: Strip(lines[j]) == ""
  {
    if lines != [] && Strip(lines[|lines| - 1]) == "" {
      var front := lines[..|lines| - 1];
      LastNonBlankEmpty(front);
      assert forall j | 0 <= j < |front| :: front[j] == lines[j];
    }
  }

  /** Otherwise it is the stripped text of the last line that is not blank. */
  lemma {:induction false} LastNonBlankIsLast(lines: seq<RawLine>)
    requires LastNonBlank(lines) != ""
    ensures exists j :: LastNonBlankAt(lines, j) && LastNonBlank(lines) == Strip(lines[j])
  {
    var n := |lines| - 1;
    if Strip(lines[n]) != "" {
      assert LastNonBlankAt(lines, n) && LastNonBlank(lines) == Strip(lines[n]);
    } else {
      var front := lines[..n];
      LastNonBlankIsLast(front);
      var j :| LastNonBlankAt(front, j) && LastNonBlank(front) == Strip(front[j]);
      forall k | j < k < |lines|
        ensures Strip(lines[k]) == ""
      {
        if k < n {
          assert lines[k] == front[k];
        }
      }
      assert front[j] == lines[j];
    }
  }

  /**
    One step of the scan: after reading line `i`, the remembered line is the last
    non-blank line so far, and it carries the marker exactly when line `i` does.
   */
  lemma ScanStep(lines: seq<RawLine>, i: nat, last: string)
    requires i < |lines| && last == LastNonBlank(lines[..i]) && !HasDoneMarker(last)
    ensures var t := Strip(lines[i]);
      var next := if t != "" then t else last;
      && next == LastNonBlank(lines[..i + 1])
      && (HasDoneMarker(next) <==> IsReadyLine(lines[i]))
  {
    assert lines[..i + 1][..i] == lines[..i];
    assert !HasDoneMarker("");
  }

  /**
    The same step for the readiness test: when no line before `i` is ready, line `i`
    is the first ready line if it is ready, and otherwise none up to it is.
   */
  lemma {:induction false} ReadyStep(lines: seq<RawLine>, i: nat)
    requires i < |lines| && FirstReadyLine(lines[..i]) == None
    ensures IsReadyLine(lines[i]) ==> FirstReadyLine(lines) == Some(i)
    ensures !IsReadyLine(lines[i]) ==> FirstReadyLine(lines[..i + 1]) == None
  {
    if i == 0 {
      assert lines[..1] == [lines[0]] && lines[..1][1..] == [];
    } else {
      var tail := lines[1..];
      assert lines[..i][0] == lines[0] && lines[..i][1..] == tail[..i - 1];
      ReadyStep(tail, i - 1);
      assert tail[i - 1] == lines[i];
      assert lines[..i + 1][0] == lines[0] && lines[..i + 1][1..] == tail[..i];
    }
  }

  /** The scan stops at line `k` when it is ready and no earlier line is. */
  lemma {:induction false} FirstReadyAt(lines: seq<RawLine>, k: nat)
    requires k < |lines| && IsReadyLine(lines[k])
    requires forall j | 0 <= j < k :: !IsReadyLine(lines[j])
    ensures FirstReadyLine(lines) == Some(k)
  {
    if k > 0 {
      FirstReadyAt(lines[1..], k - 1);
    }
  }

  /** "Done (12.345s)!", as the server prints it, is the readiness marker. */
  lemma DoneLineIsReady()
    ensures IsReadyLine("Done (12.345s)!\n")
  {
    var line := "Done (12.345s)!";
    DoneLineStripped(line);
    assert "Done (12.345s)!\n" == line + "\n";
    assert OpensAt(line, 0) && ClosesAt(line, 13) && NoLineFeed(line, 6, 13);
  }

  lemma DoneLineStripped(line: string)
    requires line == "Done (12.345s)!"
    ensures Strip(line + "\n") == line
  {
    assert line + "\n" == "" + line + "\n";
    StripPadded("", line, "\n", IsSpace);
  }

  /** A server whose third line is the first to carry the marker is ready at that line,
      whatever it prints afterwards. */
  lemma ReadyOnThirdLine(first: RawLine, second: RawLine, ready: RawLine, later: seq<RawLine>)
    requires !IsReadyLine(first) && !IsReadyLine(second) && IsReadyLine(ready)
    ensures FirstReadyLine([first, second, ready] + later) == Some(2)
  {
    var lines: seq<RawLine> := [first, second, ready] + later;
    assert lines[0] == first && lines[1] == second && lines[2] == ready;
    FirstReadyAt(lines, 2);
  }

  /** Output that ends after two lines that do not announce readiness never does, and
      the failure reports the second line, or the first when the second is blank. */
  lemma EndsAfterTwoLines(first: RawLine, second: RawLine)
    requires !IsReadyLine(first) && !IsReadyLine(second)
    ensures FirstReadyLine([first, second]) == None
    ensures LastNonBlank([first, second])
            == if Strip(second) != "" then Strip(second) else Strip(first)
  {
    var lines: seq<RawLine> := [first, second];
    FirstReadyLineMeaning(lines);
    assert lines[..1] == [first] && lines[..1][..0] == [];
    assert LastNonBlank(lines[..1]) == if Strip(first) != "" then Strip(first) else LastNonBlank([]);
  }
}
