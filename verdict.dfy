/**
 * The result a poem validator returns, and the feedback messages both validators choose from.
 * Feedback is kept as a datatype so that the choice can be stated and proved about; Render
 * gives the exact text the user sees.
 */
module Verdict {
  import opened Wrappers
  import opened Text

  datatype Feedback =
    | Perfect                                           // the poem is complete and correct
    | FinishAll(lineCount: nat)                         // some line is written, not all of them
    | Begin                                             // nothing is written yet
    | TooMany(lineNumber: nat, count: int, expected: int)
    | NeedsMore(lineNumber: nat, count: int, expected: int)
    | KeepWriting                                       // no line-level issue could be named
    | GreatStructure                                    // counts match but a line is blank

  datatype ValidationResult = ValidationResult(
    isValid: bool,
    isComplete: bool,
    syllableCounts: seq<int>,
    feedback: string)

  /** The message text for a feedback choice, for a poem form named `poemType`. */
  function Render(f: Feedback, poemType: string): string {
    match f
    case Perfect => "Perfect " + poemType + "! You're a natural poet."
    case FinishAll(n) => "Great start! Finish all " + NatToString(n) + " lines."
    case Begin => "Write your " + poemType + "..."
    case TooMany(line, count, expected) =>
      "Line " + NatToString(line) + " has too many syllables (" + IntToString(count) + "/" + IntToString(expected) + ")"
    case NeedsMore(line, count, expected) =>
      "Line " + NatToString(line) + " needs more syllables (" + IntToString(count) + "/" + IntToString(expected) + ")"
    case KeepWriting => "Keep writing your " + poemType + "..."
    case GreatStructure => "Great syllable structure! Finish all three lines."
  }

  /**
   * The issue reported for line `i` (0-based) when its count differs from the expected one:
   * too many syllables, or too few on a line that is written; none otherwise.
   */
  predicate HasIssue(counts: seq<int>, expected: seq<int>, lines: seq<string>, i: nat)
    requires i < |counts| && i < |expected|
  {
    counts[i] != expected[i] &&
    (counts[i] > expected[i] || (counts[i] < expected[i] && i < |lines| && !IsBlank(lines[i])))
  }

  function IssueAt(counts: seq<int>, expected: seq<int>, i: nat): Feedback
    requires i < |counts| && i < |expected|
  {
    if counts[i] > expected[i] then TooMany(i + 1, counts[i], expected[i])
    else NeedsMore(i + 1, counts[i], expected[i])
  }

  /** The first issue `forEach` pushes, scanning lines from `i` on (`issues[0]`), if any. */
  function FirstIssue(counts: seq<int>, expected: seq<int>, lines: seq<string>, i: nat): Option<Feedback>
    requires |counts| == |expected| && i <= |counts|
    decreases |counts| - i
  {
    if i == |counts| then None
    else if HasIssue(counts, expected, lines, i) then Some(IssueAt(counts, expected, i))
    else FirstIssue(counts, expected, lines, i + 1)
  }

  /**
   * FirstIssue names the issue of the lowest-numbered line that has one, and finds nothing
   * exactly when no line from `i` on has an issue.
   */
  lemma {:induction false} FirstIssueIsFirst(counts: seq<int>, expected: seq<int>, lines: seq<string>, i: nat)
    requires |counts| == |expected| && i <= |counts|
    ensures FirstIssue(counts, expected, lines, i).None? <==>
              (forall j :: i <= j < |counts| ==> !HasIssue(counts, expected, lines, j))
    ensures FirstIssue(counts, expected, lines, i).Some? ==>
              exists j :: i <= j < |counts| && HasIssue(counts, expected, lines, j)
                && (forall k :: i <= k < j ==> !HasIssue(counts, expected, lines, k))
                && FirstIssue(counts, expected, lines, i).value == IssueAt(counts, expected, j)
    decreases |counts| - i
  {
    if i < |counts| {
      if HasIssue(counts, expected, lines, i) {
        assert FirstIssue(counts, expected, lines, i).value == IssueAt(counts, expected, i);
      } else {
        FirstIssueIsFirst(counts, expected, lines, i + 1);
        FirstIssueSkips(counts, expected, lines, i);
        if FirstIssue(counts, expected, lines, i + 1).Some? {
          var j :| i + 1 <= j < |counts| && HasIssue(counts, expected, lines, j)
                   && (forall k :: i + 1 <= k < j ==> !HasIssue(counts, expected, lines, k))
                   && FirstIssue(counts, expected, lines, i + 1).value == IssueAt(counts, expected, j);
          assert forall k :: i <= k < j ==> !HasIssue(counts, expected, lines, k);
        }
      }
    }
  }

  /** A line without an issue is passed over: the search goes on from the next line. */
  lemma FirstIssueSkips(counts: seq<int>, expected: seq<int>, lines: seq<string>, i: nat)
    requires |counts| == |expected| && i < |counts| && !HasIssue(counts, expected, lines, i)
    ensures FirstIssue(counts, expected, lines, i) == FirstIssue(counts, expected, lines, i + 1)
  {
  }
}
