/**
 * Maximal runs of characters in a string, as a global regular expression `X Y*` finds them:
 * scanning left to right, a run starts at the first character that satisfies `isStart` and
 * extends over every following character that satisfies `isCont`; the search resumes where the
 * run ended.
 */
module Runs {
  import opened Wrappers
  import opened Text

  /** A run `s[start..end]`. */
  datatype Span = Span(start: nat, end: nat)

  /** The first index from `p` on whose character satisfies `isStart`, or `|s|`. */
  function FirstFrom(s: string, p: nat, isStart: char -> bool): (r: nat)
    requires p <= |s|
    ensures p <= r <= |s|
    ensures forall k :: p <= k < r ==> !isStart(s[k])
    ensures r < |s| ==> isStart(s[r])
    decreases |s| - p
  {
    if p == |s| || isStart(s[p]) then p else FirstFrom(s, p + 1, isStart)
  }

  /** The end of the run of `isCont` characters that begins at `i`. */
  function RunEnd(s: string, i: nat, isCont: char -> bool): (r: nat)
    requires i <= |s|
    ensures i <= r <= |s|
    ensures forall k :: i <= k < r ==> isCont(s[k])
    ensures r == |s| || !isCont(s[r])
    decreases |s| - i
  {
    if i == |s| || !isCont(s[i]) then i else RunEnd(s, i + 1, isCont)
  }

  /** The run a search from `p` finds, if any: what one `exec` of the expression returns. */
  function NextRun(s: string, p: nat, isStart: char -> bool, isCont: char -> bool): (r: Option<Span>)
    requires p <= |s|
    ensures r.Some? ==> p <= r.value.start < r.value.end <= |s|
  {
    var q := FirstFrom(s, p, isStart);
    if q == |s| then None else Some(Span(q, RunEnd(s, q + 1, isCont)))
  }

  /** Every run from `p` on, left to right. */
  function RunsFrom(s: string, p: nat, isStart: char -> bool, isCont: char -> bool): (r: seq<Span>)
    requires p <= |s|
    ensures forall j :: 0 <= j < |r| ==> p <= r[j].start < r[j].end <= |s|
    ensures forall j :: 0 <= j < |r| ==> IsRun(s, r[j], isStart, isCont)
    decreases |s| - p
  {
    var q := FirstFrom(s, p, isStart);
    if q == |s| then []
    else
      var sp := Span(q, RunEnd(s, q + 1, isCont));
      var rest := RunsFrom(s, sp.end, isStart, isCont);
      var r := [sp] + rest;
      assert forall j :: 1 <= j < |r| ==> r[j] == rest[j - 1];
      r
  }

  /** `s[start..end]` is a run: it starts right and cannot be extended to the right. */
  predicate IsRun(s: string, sp: Span, isStart: char -> bool, isCont: char -> bool) {
    sp.start < sp.end <= |s| && isStart(s[sp.start])
    && (forall k :: sp.start < k < sp.end ==> isCont(s[k]))
    && (sp.end == |s| || !isCont(s[sp.end]))
  }

  /** The text of each span. */
  function Texts(s: string, spans: seq<Span>): (r: seq<string>)
    requires forall j :: 0 <= j < |spans| ==> spans[j].start <= spans[j].end <= |s|
    ensures |r| == |spans|
    ensures forall j :: 0 <= j < |r| ==> r[j] == s[spans[j].start..spans[j].end]
  {
    if spans == [] then []
    else
      var r := [s[spans[0].start..spans[0].end]] + Texts(s, spans[1..]);
      assert forall j :: 1 <= j < |r| ==> r[j] == Texts(s, spans[1..])[j - 1];
      r
  }

  /** A search from `p` that finds something finds the run starting at the first possible character. */
  lemma NextRunFinds(s: string, p: nat, isStart: char -> bool, isCont: char -> bool)
    requires p <= |s|
    ensures NextRun(s, p, isStart, isCont).Some? ==> IsRun(s, NextRun(s, p, isStart, isCont).value, isStart, isCont)
    ensures NextRun(s, p, isStart, isCont).None? <==> forall k :: p <= k < |s| ==> !isStart(s[k])
  {
  }

  /** Each search picks up the next run, and the scan goes on from its end. */
  lemma RunsFromStep(s: string, p: nat, isStart: char -> bool, isCont: char -> bool)
    requires p <= |s|
    ensures NextRun(s, p, isStart, isCont).None? ==> RunsFrom(s, p, isStart, isCont) == []
    ensures NextRun(s, p, isStart, isCont).Some? ==>
              RunsFrom(s, p, isStart, isCont)
              == [NextRun(s, p, isStart, isCont).value] + RunsFrom(s, NextRun(s, p, isStart, isCont).value.end, isStart, isCont)
    ensures NextRun(s, p, isStart, isCont).Some? ==>
              Texts(s, RunsFrom(s, p, isStart, isCont))
              == [s[NextRun(s, p, isStart, isCont).value.start..NextRun(s, p, isStart, isCont).value.end]]
                 + Texts(s, RunsFrom(s, NextRun(s, p, isStart, isCont).value.end, isStart, isCont))
  {
    var r := RunsFrom(s, p, isStart, isCont);
    if NextRun(s, p, isStart, isCont).Some? {
      var sp := NextRun(s, p, isStart, isCont).value;
      assert r[1..] == RunsFrom(s, sp.end, isStart, isCont);
    }
  }

  /** The scan misses nothing: every character from `p` on that could start a run lies inside one. */
  lemma {:induction false} RunsFromCover(s: string, p: nat, isStart: char -> bool, isCont: char -> bool, k: nat)
    requires p <= k < |s| && isStart(s[k])
    ensures exists j :: 0 <= j < |RunsFrom(s, p, isStart, isCont)| && RunsFrom(s, p, isStart, isCont)[j].start <= k < RunsFrom(s, p, isStart, isCont)[j].end
    decreases |s| - p
  {
    var r := RunsFrom(s, p, isStart, isCont);
    var q := FirstFrom(s, p, isStart);
    var sp := Span(q, RunEnd(s, q + 1, isCont));
    var rest := RunsFrom(s, sp.end, isStart, isCont);
    assert r == [sp] + rest;
    if k >= sp.end {
      RunsFromCover(s, sp.end, isStart, isCont, k);
      var j :| 0 <= j < |rest| && rest[j].start <= k < rest[j].end;
      assert r[j + 1] == rest[j];
      assert r[j + 1].start <= k < r[j + 1].end;
    } else {
      assert r[0].start <= k < r[0].end;
    }
  }

  /**
   * When a run starts with any character it may continue with, gluing the runs together gives
   * the input with every other character removed.
   */
  lemma {:induction false} RunsFromConcat(s: string, p: nat, isIn: char -> bool)
    requires p <= |s|
    ensures Concat(Texts(s, RunsFrom(s, p, isIn, isIn))) == Filter(s[p..], isIn)
    decreases |s| - p
  {
    var q := FirstFrom(s, p, isIn);
    if q == |s| {
      FilterSkip(s, p, q, isIn);
      assert s[q..] == [];
    } else {
      var e := RunEnd(s, q + 1, isIn);
      assert NextRun(s, p, isIn, isIn) == Some(Span(q, e));
      RunsFromStep(s, p, isIn, isIn);
      RunsFromConcat(s, e, isIn);
      forall k | q <= k < e ensures isIn(s[k]) {
        if k > q {
          assert q + 1 <= k < e;
        }
      }
      FilterStep(s, p, q, e, isIn);
      var ts := Texts(s, RunsFrom(s, p, isIn, isIn));
      var tail := Texts(s, RunsFrom(s, e, isIn, isIn));
      assert ts == [s[q..e]] + tail;
      assert ts[0] == s[q..e] && ts[1..] == tail;
    }
  }

  /** Filtering drops a stretch whose characters all fail the test. */
  lemma FilterSkip(s: string, p: nat, q: nat, isIn: char -> bool)
    requires p <= q <= |s|
    requires forall k :: p <= k < q ==> !isIn(s[k])
    ensures Filter(s[p..], isIn) == Filter(s[q..], isIn)
  {
    forall k | 0 <= k < q - p ensures !isIn(s[p..q][k]) {
      assert s[p..q][k] == s[p + k];
    }
    FilterNone(s[p..q], isIn);
    assert s[p..] == s[p..q] + s[q..];
    FilterAppend(s[p..q], s[q..], isIn);
  }

  /** Filtering keeps a stretch whose characters all pass the test. */
  lemma FilterStep(s: string, p: nat, q: nat, e: nat, isIn: char -> bool)
    requires p <= q <= e <= |s|
    requires forall k :: p <= k < q ==> !isIn(s[k])
    requires forall k :: q <= k < e ==> isIn(s[k])
    ensures Filter(s[p..], isIn) == s[q..e] + Filter(s[e..], isIn)
  {
    FilterSkip(s, p, q, isIn);
    forall k | 0 <= k < e - q ensures isIn(s[q..e][k]) {
      assert s[q..e][k] == s[q + k];
    }
    FilterAll(s[q..e], isIn);
    assert s[q..] == s[q..e] + s[e..];
    FilterAppend(s[q..e], s[e..], isIn);
  }

  lemma {:induction false} FilterNone(s: string, p: char -> bool)
    requires forall k :: 0 <= k < |s| ==> !p(s[k])
    ensures Filter(s, p) == []
  {
    if s != [] {
      FilterNone(s[1..], p);
    }
  }

  lemma {:induction false} FilterAll(s: string, p: char -> bool)
    requires forall k :: 0 <= k < |s| ==> p(s[k])
    ensures Filter(s, p) == s
  {
    if s != [] {
      FilterAll(s[1..], p);
    }
  }

  /** A character that cannot start a run is skipped: the scan from it is the scan from the next one. */
  lemma RunsFromSkip(s: string, i: nat, isStart: char -> bool, isCont: char -> bool)
    requires i < |s| && !isStart(s[i])
    ensures RunsFrom(s, i, isStart, isCont) == RunsFrom(s, i + 1, isStart, isCont)
  {
  }

  /** A stretch that starts a run and is ended by a non-continuing character (or the end) is the next run. */
  lemma RunsFromClose(s: string, q: nat, e: nat, isStart: char -> bool, isCont: char -> bool)
    requires q < e <= |s| && isStart(s[q])
    requires forall k :: q < k < e ==> isCont(s[k])
    requires e == |s| || !isCont(s[e])
    ensures RunsFrom(s, q, isStart, isCont) == [Span(q, e)] + RunsFrom(s, e, isStart, isCont)
  {
    RunEndAt(s, q + 1, e, isCont);
    RunsFromStep(s, q, isStart, isCont);
  }

  lemma {:induction false} RunEndAt(s: string, i: nat, e: nat, isCont: char -> bool)
    requires i <= e <= |s|
    requires forall k :: i <= k < e ==> isCont(s[k])
    requires e == |s| || !isCont(s[e])
    ensures RunEnd(s, i, isCont) == e
    decreases e - i
  {
    if i < e {
      RunEndAt(s, i + 1, e, isCont);
    }
  }

  /**
   * When runs start with any character they may continue with, a search from a boundary finds
   * a run preceded by a character outside the class (or at the start of the string).
   */
  lemma NextRunPreceded(s: string, p: nat, isIn: char -> bool)
    requires p <= |s| && NextRun(s, p, isIn, isIn).Some?
    requires p == 0 || p == |s| || !isIn(s[p - 1]) || !isIn(s[p])
    ensures NextRun(s, p, isIn, isIn).value.start == 0 || !isIn(s[NextRun(s, p, isIn, isIn).value.start - 1])
  {
  }

  /**
   * When runs start with any character they may continue with, each run is a maximal stretch of
   * the class: every character in it belongs, the characters just before and after do not, and
   * consecutive runs are separated by at least one character.
   */
  lemma RunsAreMaximal(s: string, isIn: char -> bool, j: nat)
    requires j < |RunsFrom(s, 0, isIn, isIn)|
    ensures forall i :: RunsFrom(s, 0, isIn, isIn)[j].start <= i < RunsFrom(s, 0, isIn, isIn)[j].end ==> isIn(s[i])
    ensures RunsFrom(s, 0, isIn, isIn)[j].start == 0 || !isIn(s[RunsFrom(s, 0, isIn, isIn)[j].start - 1])
    ensures RunsFrom(s, 0, isIn, isIn)[j].end == |s| || !isIn(s[RunsFrom(s, 0, isIn, isIn)[j].end])
    ensures j + 1 < |RunsFrom(s, 0, isIn, isIn)| ==> RunsFrom(s, 0, isIn, isIn)[j].end < RunsFrom(s, 0, isIn, isIn)[j + 1].start
  {
    var r := RunsFrom(s, 0, isIn, isIn);
    assert IsRun(s, r[j], isIn, isIn);
    RunPreceded(s, isIn, j);
    if j + 1 < |r| {
      RunsFromIndex(s, 0, isIn, isIn, j + 1);
      assert IsRun(s, r[j + 1], isIn, isIn);
    }
  }

  /** Each run is preceded by a character outside the class, or by the start of the string. */
  lemma RunPreceded(s: string, isIn: char -> bool, j: nat)
    requires j < |RunsFrom(s, 0, isIn, isIn)|
    ensures RunsFrom(s, 0, isIn, isIn)[j].start == 0 || !isIn(s[RunsFrom(s, 0, isIn, isIn)[j].start - 1])
  {
    var r := RunsFrom(s, 0, isIn, isIn);
    RunsFromIndex(s, 0, isIn, isIn, j);
    if j == 0 {
      assert NextRun(s, 0, isIn, isIn) == Some(r[0]);
      NextRunPreceded(s, 0, isIn);
    } else {
      var e := r[j - 1].end;
      assert IsRun(s, r[j - 1], isIn, isIn);
      assert e == |s| || !isIn(s[e]);
      assert NextRun(s, e, isIn, isIn) == Some(r[j]);
      NextRunPreceded(s, e, isIn);
    }
  }

  /** Run `j` is what a search from the end of run `j - 1` (from `p`, for the first) finds. */
  lemma {:induction false} RunsFromIndex(s: string, p: nat, isStart: char -> bool, isCont: char -> bool, j: nat)
    requires p <= |s| && j < |RunsFrom(s, p, isStart, isCont)|
    ensures j == 0 ==> NextRun(s, p, isStart, isCont) == Some(RunsFrom(s, p, isStart, isCont)[0])
    ensures j > 0 ==> NextRun(s, RunsFrom(s, p, isStart, isCont)[j - 1].end, isStart, isCont) == Some(RunsFrom(s, p, isStart, isCont)[j])
    decreases j
  {
    var e := RunsFromHead(s, p, isStart, isCont);
    if j > 1 {
      RunsFromTail(s, p, isStart, isCont, j);
      RunsFromTail(s, p, isStart, isCont, j - 1);
      RunsFromIndex(s, e, isStart, isCont, j - 1);
    } else if j == 1 {
      RunsFromTail(s, p, isStart, isCont, 1);
      RunsFromIndex(s, e, isStart, isCont, 0);
    }
  }

  /** The first run from `p` starts after characters that cannot start one; the scan resumes at its end `e`. */
  lemma RunsFromHead(s: string, p: nat, isStart: char -> bool, isCont: char -> bool) returns (e: nat)
    requires p <= |s| && |RunsFrom(s, p, isStart, isCont)| > 0
    ensures e == RunsFrom(s, p, isStart, isCont)[0].end
    ensures forall k :: p <= k < RunsFrom(s, p, isStart, isCont)[0].start ==> !isStart(s[k])
    ensures e == |s| || !isCont(s[e])
  {
    e := RunsFrom(s, p, isStart, isCont)[0].end;
  }

  /** Run `j` from `p` is run `j - 1` from the end of the first. */
  lemma RunsFromTail(s: string, p: nat, isStart: char -> bool, isCont: char -> bool, j: nat)
    requires p <= |s| && 0 < j < |RunsFrom(s, p, isStart, isCont)|
    ensures RunsFrom(s, p, isStart, isCont)[0].end <= |s|
    ensures j - 1 < |RunsFrom(s, RunsFrom(s, p, isStart, isCont)[0].end, isStart, isCont)|
    ensures RunsFrom(s, p, isStart, isCont)[j] == RunsFrom(s, RunsFrom(s, p, isStart, isCont)[0].end, isStart, isCont)[j - 1]
  {
  }

  /** Every maximal stretch of `isCont` characters begins with an `isStart` character. */
  predicate StretchesStartWith(s: string, isStart: char -> bool, isCont: char -> bool) {
    forall i: nat {:trigger StretchStart(s, isCont, i)} :: i < |s| && StretchStart(s, isCont, i) ==> isStart(s[i])
  }

  /** Position `i` begins a maximal stretch of `isCont` characters. */
  predicate StretchStart(s: string, isCont: char -> bool, i: nat)
    requires i < |s|
  {
    isCont(s[i]) && (i == 0 || !isCont(s[i - 1]))
  }

  /**
   * From the start of the string or a boundary of a stretch, the first `isCont` character is
   * the first `isStart` character, when stretches start with `isStart` and `isStart` implies `isCont`.
   */
  lemma {:induction false} FirstFromStretch(s: string, p: nat, isStart: char -> bool, isCont: char -> bool)
    requires forall c :: isStart(c) ==> isCont(c)
    requires StretchesStartWith(s, isStart, isCont) && p <= |s|
    requires p == 0 || p == |s| || !isCont(s[p]) || !isCont(s[p - 1])
    ensures FirstFrom(s, p, isCont) == FirstFrom(s, p, isStart)
    decreases |s| - p
  {
    if p == |s| {
    } else if isCont(s[p]) {
      assert StretchStart(s, isCont, p);
    } else {
      assert !isStart(s[p]);
      FirstFromStretch(s, p + 1, isStart, isCont);
    }
  }
}
