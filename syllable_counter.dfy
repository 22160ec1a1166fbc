/**
 * The client-side heuristic syllable counter: dictionary lookup for complete words and a
 * vowel-group heuristic for everything else, always exactly three lines, and the haiku validator
 * built on it. Word extraction is the one the hybrid counter uses.
 */
module SyllableCounter {
  import opened Wrappers
  import opened Text
  import opened Verdict
  import opened OnnxCounter

  // ---------------------------------------------------------------- the vowel-group heuristic

  /** A character of `'aeiouy'`. */
  predicate IsVowel(c: char) { c == 'a' || c == 'e' || c == 'i' || c == 'o' || c == 'u' || c == 'y' }

  /** `word.toLowerCase().replace(/[^a-z]/g, '')`: apostrophes and hyphens go too. */
  function Letters(word: string): (r: string)
    ensures forall i :: 0 <= i < |r| ==> IsAsciiLower(r[i])
  {
    Filter(LowerAll(word), IsAsciiLower)
  }

  /** Position `i` starts a vowel cluster: a vowel not preceded by a vowel. */
  predicate ClusterStart(s: string, i: nat)
    requires i < |s|
  {
    IsVowel(s[i]) && (i == 0 || !IsVowel(s[i - 1]))
  }

  /** The number of vowel clusters that start before position `n`. */
  function ClustersBelow(s: string, n: nat): (r: nat)
    requires n <= |s|
    ensures r <= n
  {
    if n == 0 then 0 else ClustersBelow(s, n - 1) + (if ClusterStart(s, n - 1) then 1 else 0)
  }

  function VowelClusters(s: string): nat { ClustersBelow(s, |s|) }

  /** The heuristic count: vowel clusters, one fewer for a silent final `e`, one more for `-le`, at least 1. */
  function HeuristicCount(word: string): (r: nat) {
    var c := Letters(word);
    if c == [] then 0
    else
      var g := VowelClusters(c);
      var afterSilentE := if EndsWith(c, "e") && g > 1 then g - 1 else g;
      var afterLe := if EndsWith(c, "le") && afterSilentE > 1 then afterSilentE + 1 else afterSilentE;
      if afterLe < 1 then 1 else afterLe
  }

  /** There are no clusters exactly when there is no vowel. */
  lemma {:induction false} ClustersBelowZero(s: string, n: nat)
    requires n <= |s|
    ensures ClustersBelow(s, n) == 0 <==> forall i :: 0 <= i < n ==> !IsVowel(s[i])
  {
    if n > 0 {
      ClustersBelowZero(s, n - 1);
    }
  }

  /** Every `e`-final word has a vowel cluster. */
  lemma EndsWithEHasCluster(c: string)
    requires EndsWith(c, "e")
    ensures VowelClusters(c) >= 1
  {
    assert c[|c| - 1] == "e"[0];
    ClustersBelowZero(c, |c|);
  }

  /**
   * A word without letters counts 0 and any other word at least 1. The count never exceeds the
   * number of vowel clusters (or 1) and falls at most one short of it. Without a final `e` it is
   * the cluster count; with a final `e` but no `-le`, one fewer; and with `-le` the two rules cancel
   * except for two-cluster words, which count 1 — so "table" counts one syllable.
   */
  lemma HeuristicCountMeaning(word: string)
    ensures var c := Letters(word);
            var g := VowelClusters(c);
            var r := HeuristicCount(word);
            && (r == 0 <==> c == [])
            && (c != [] ==> 1 <= r <= (if g < 1 then 1 else g) && r >= g - 1)
            && (c != [] && !EndsWith(c, "e") ==> r == (if g < 1 then 1 else g))
            && (EndsWith(c, "e") && !EndsWith(c, "le") ==> r == (if g < 2 then 1 else g - 1))
            && (EndsWith(c, "le") ==> r == (if g == 2 then 1 else g))
  {
    var c := Letters(word);
    if EndsWith(c, "le") {
      assert c[|c| - 2..] == "le";
      assert c[|c| - 1..] == "e";
    }
    if EndsWith(c, "e") {
      EndsWithEHasCluster(c);
    }
  }

  /** Worked example of HeuristicCountMeaning: the `-le` rule does not rescue "table", which counts one syllable. */
  lemma TableExample()
    ensures HeuristicCount("table") == 1
  {
    var w := "table";
    LettersOfLower(w);
    assert ClustersBelow(w, 1) == 0;
    assert ClustersBelow(w, 2) == 1;
    assert ClustersBelow(w, 3) == 1;
    assert ClustersBelow(w, 4) == 1;
    assert ClustersBelow(w, 5) == 2;
    assert w[|w| - 1..] == "e" && w[|w| - 2..] == "le";
  }

  /** Worked example of HeuristicCountMeaning: `y` is a vowel, and upper case is folded first. */
  lemma RhythmExample()
    ensures HeuristicCount("Rhythm") == 1
  {
    var w := "rhythm";
    assert LowerAll("Rhythm") == w;
    LettersOfLower(w);
    assert ClustersBelow(w, 1) == 0;
    assert ClustersBelow(w, 2) == 0;
    assert ClustersBelow(w, 3) == 1;
    assert ClustersBelow(w, 4) == 1;
    assert ClustersBelow(w, 5) == 1;
    assert ClustersBelow(w, 6) == 1;
    assert !EndsWith(w, "e");
  }

  lemma LettersOfLower(w: string)
    requires forall i :: 0 <= i < |w| ==> IsAsciiLower(w[i])
    ensures Letters(w) == w && LowerAll(w) == w
  {
    assert LowerAll(w) == w;
    FilterKeepsAll(w, IsAsciiLower);
  }

  /** `mlSyllableCount`: count the clusters in one pass, then apply the adjustments. */
  method MlSyllableCount(word: string) returns (r: nat)
    ensures r == HeuristicCount(word)
  {
    if |word| == 0 {
      return 0;
    }
    var cleanWord := Letters(word);
    if |cleanWord| == 0 {
      return 0;
    }
    var syllables := 0;
    var previousWasVowel := false;
    var i := 0;
    while i < |cleanWord|
      invariant 0 <= i <= |cleanWord|
      invariant syllables == ClustersBelow(cleanWord, i)
      invariant previousWasVowel == (i > 0 && IsVowel(cleanWord[i - 1]))
    {
      var isVowel := IsVowel(cleanWord[i]);
      if isVowel && !previousWasVowel {
        syllables := syllables + 1;
      }
      previousWasVowel := isVowel;
      i := i + 1;
    }
    if EndsWith(cleanWord, "e") && syllables > 1 {
      syllables := syllables - 1;
    }
    if EndsWith(cleanWord, "le") && syllables > 1 {
      syllables := syllables + 1;
    }
    r := if syllables < 1 then 1 else syllables;
  }

  // ---------------------------------------------------------------- words and lines

  /** `countWordSyllables`: the dictionary for a complete word it knows, the heuristic otherwise. */
  function CountWordSyllables(word: string, isComplete: bool, lexicon: map<string, int>): int {
    var clean := CleanWord(word);
    if |clean| == 0 then 0
    else if isComplete && clean in lexicon then lexicon[clean]
    else HeuristicCount(clean)
  }

  /**
   * A complete dictionary word counts its dictionary value; every other word counts by the
   * heuristic, which gives at least 1 unless the word is only apostrophes and hyphens. A single
   * letter outside the dictionary counts 1 with no rule of its own.
   */
  lemma CountWordSyllablesMeaning(word: string, isComplete: bool, lexicon: map<string, int>)
    ensures var clean := CleanWord(word);
            && (clean == [] ==> CountWordSyllables(word, isComplete, lexicon) == 0)
            && (clean != [] && isComplete && clean in lexicon ==> CountWordSyllables(word, isComplete, lexicon) == lexicon[clean])
            && (clean != [] && !(isComplete && clean in lexicon) ==>
                  CountWordSyllables(word, isComplete, lexicon) == HeuristicCount(clean) &&
                  (CountWordSyllables(word, isComplete, lexicon) >= 1 <==> exists i :: 0 <= i < |clean| && IsAsciiLower(clean[i])))
            && (|clean| == 1 && IsAsciiLower(clean[0]) && clean !in lexicon ==> CountWordSyllables(word, isComplete, lexicon) == 1)
  {
    var clean := CleanWord(word);
    LettersOfClean(clean);
    HeuristicPositive(clean);
    if |clean| == 1 && IsAsciiLower(clean[0]) {
      SingleLetterCount(clean);
    }
  }

  /** The heuristic gives at least 1 exactly when some letter survives cleaning. */
  lemma HeuristicPositive(clean: string)
    requires forall i :: 0 <= i < |clean| ==> IsWordLetter(clean[i])
    ensures HeuristicCount(clean) >= 1 <==> exists i :: 0 <= i < |clean| && IsAsciiLower(clean[i])
  {
    LettersOfClean(clean);
  }

  /** A single letter is one syllable. */
  lemma SingleLetterCount(c: string)
    requires |c| == 1 && IsAsciiLower(c[0])
    ensures HeuristicCount(c) == 1
  {
    LettersOfLower(c);
    assert ClustersBelow(c, 1) == (if ClusterStart(c, 0) then 1 else 0);
    assert !EndsWith(c, "le");
  }

  /** The letters of a cleaned word are its `a`-`z` characters; there are some exactly when one of them is a letter. */
  lemma LettersOfClean(clean: string)
    requires forall i :: 0 <= i < |clean| ==> IsWordLetter(clean[i])
    ensures Letters(clean) == [] <==> forall i :: 0 <= i < |clean| ==> !IsAsciiLower(clean[i])
  {
    assert LowerAll(clean) == clean;
    FilterEmpty(clean, IsAsciiLower);
  }

  lemma {:induction false} FilterEmpty(s: string, p: char -> bool)
    ensures Filter(s, p) == [] <==> forall i :: 0 <= i < |s| ==> !p(s[i])
  {
    if s != [] {
      FilterEmpty(s[1..], p);
      assert forall i :: 1 <= i < |s| ==> s[i] == s[1..][i - 1];
    }
  }

  /** What `countSyllables` returns: the number 0 for text without words, else the breakdown. */
  datatype CountResult = NoWords | Counted(breakdown: Breakdown)

  function Entries(ws: seq<WordToken>, lexicon: map<string, int>): (r: seq<WordCount>)
    ensures |r| == |ws|
  {
    seq(|ws|, i requires 0 <= i < |ws| => WordCount(ws[i].word, CountWordSyllables(ws[i].word, ws[i].isComplete, lexicon), ws[i].isComplete))
  }

  function CountSyllablesSpec(text: string, lexicon: map<string, int>): CountResult {
    var ws := ExtractWords(text);
    if ws == [] then NoWords
    else Counted(Breakdown(SumSyllables(Entries(ws, lexicon)), Entries(ws, lexicon)))
  }

  /** Totals add up per word: the total over a longer prefix adds the next word's count. */
  lemma SumSyllablesSnoc(ws: seq<WordCount>, w: WordCount)
    ensures SumSyllables(ws + [w]) == SumSyllables(ws) + w.syllables
  {
    assert (ws + [w])[..|ws|] == ws;
  }

  /** `countSyllables`: add up the words one at a time. */
  method CountSyllables(text: string, lexicon: map<string, int>) returns (r: CountResult)
    ensures r == CountSyllablesSpec(text, lexicon)
  {
    var words := ExtractWords(text);
    if |words| == 0 {
      return NoWords;
    }
    ghost var entries := Entries(words, lexicon);
    var totalSyllables := 0;
    var wordBreakdown: seq<WordCount> := [];
    var i := 0;
    while i < |words|
      invariant 0 <= i <= |words|
      invariant wordBreakdown == entries[..i]
      invariant totalSyllables == SumSyllables(wordBreakdown)
    {
      var w := words[i];
      var syllables := CountWordSyllables(w.word, w.isComplete, lexicon);
      assert entries[i] == WordCount(w.word, syllables, w.isComplete);
      PrefixSnoc(entries, i);
      SumSyllablesSnoc(wordBreakdown, WordCount(w.word, syllables, w.isComplete));
      totalSyllables := totalSyllables + syllables;
      wordBreakdown := wordBreakdown + [WordCount(w.word, syllables, w.isComplete)];
      i := i + 1;
    }
    assert entries[..i] == entries;
    r := Counted(Breakdown(totalSyllables, wordBreakdown));
  }

  /** `typeof result === 'object' ? result.total : result`. */
  function LineCount(line: string, lexicon: map<string, int>): int {
    match CountSyllablesSpec(Trim(line), lexicon)
    case NoWords => 0
    case Counted(b) => b.total
  }

  /** What `countHaikuSyllables` returns: exactly three counts, whatever the poem's length. */
  function HaikuCountsSpec(content: string, lexicon: map<string, int>): (r: seq<int>)
    ensures |r| == 3
  {
    if IsBlank(content) then [0, 0, 0]
    else
      var lines := SplitLines(content);
      seq(3, i requires 0 <= i < 3 => LineCount(LineAt(lines, i), lexicon))
  }

  lemma HaikuCountAt(content: string, lexicon: map<string, int>, i: nat)
    requires !IsBlank(content) && i < 3
    ensures HaikuCountsSpec(content, lexicon)[i] == LineCount(LineAt(SplitLines(content), i), lexicon)
  {
  }

  /** A blank or absent line counts 0. */
  lemma BlankLineCountsZero(line: string, lexicon: map<string, int>)
    requires IsBlank(line)
    ensures LineCount(line, lexicon) == 0
  {
    TrimProperties(line);
  }

  /** Count `i` is line `i`'s, trimmed; a line the poem does not have counts 0. */
  lemma HaikuCountsMeaning(content: string, lexicon: map<string, int>, i: nat)
    requires i < 3
    ensures HaikuCountsSpec(content, lexicon)[i] == LineCount(LineAt(SplitLines(content), i), lexicon)
  {
    if IsBlank(content) {
      BlankLinesOfBlank(content, i);
      BlankLineCountsZero(LineAt(SplitLines(content), i), lexicon);
    }
  }

  /** A line with a non-zero count exists in the poem and is written. */
  lemma CountedLineIsWritten(content: string, lexicon: map<string, int>, i: nat)
    requires i < 3 && HaikuCountsSpec(content, lexicon)[i] != 0
    ensures i < |SplitLines(content)| && !IsBlank(SplitLines(content)[i])
  {
    var lines := SplitLines(content);
    HaikuCountsMeaning(content, lexicon, i);
    if i >= |lines| || IsBlank(LineAt(lines, i)) {
      BlankLineCountsZero(LineAt(lines, i), lexicon);
    }
  }

  /** `countHaikuSyllables`: one trimmed line at a time, three times. */
  method CountHaikuSyllables(content: string, lexicon: map<string, int>) returns (r: seq<int>)
    ensures r == HaikuCountsSpec(content, lexicon)
  {
    if IsBlank(content) {
      return [0, 0, 0];
    }
    var lines := SplitLines(content);
    ghost var spec := HaikuCountsSpec(content, lexicon);
    var syllableCounts: seq<int> := [];
    var i := 0;
    while i < 3
      invariant 0 <= i <= 3
      invariant syllableCounts == spec[..i]
    {
      var line := LineAt(lines, i);
      var result := CountSyllables(Trim(line), lexicon);
      var count := match result case NoWords => 0 case Counted(b) => b.total;
      assert count == LineCount(line, lexicon);
      HaikuCountAt(content, lexicon, i);
      PrefixSnoc(spec, i);
      syllableCounts := syllableCounts + [count];
      i := i + 1;
    }
    assert spec[..3] == spec;
    r := syllableCounts;
  }

  // ---------------------------------------------------------------- judging a haiku

  const HaikuPattern: seq<int> := [5, 7, 5]

  /** The pure part of `validateHaiku`, from the counts on. */
  function HaikuFeedback(content: string, counts: seq<int>): Feedback
    requires |counts| == 3
  {
    var lines := FirstLines(content, 3);
    var isValid := counts == HaikuPattern;
    var allWritten := forall i :: 0 <= i < |lines| ==> !IsBlank(lines[i]);
    if allWritten && isValid then Perfect
    else if isValid && !allWritten then GreatStructure
    else
      match FirstIssue(counts, HaikuPattern, lines, 0)
      case Some(f) => f
      case None => KeepWriting
  }

  function Judge(content: string, counts: seq<int>): ValidationResult
    requires |counts| == 3
  {
    var lines := FirstLines(content, 3);
    var isValid := counts == HaikuPattern;
    var isComplete := (forall i :: 0 <= i < |lines| ==> !IsBlank(lines[i])) && isValid;
    ValidationResult(isValid, isComplete, counts, Render(HaikuFeedback(content, counts), "haiku"))
  }

  /** On the counts the counter produces, counts of 5, 7, 5 mean all three lines are written. */
  lemma ValidMeansWritten(content: string, lexicon: map<string, int>)
    requires HaikuCountsSpec(content, lexicon) == HaikuPattern
    ensures var lines := FirstLines(content, 3);
            |lines| == 3 && forall i :: 0 <= i < |lines| ==> !IsBlank(lines[i])
  {
    var lines := SplitLines(content);
    CountedLineIsWritten(content, lexicon, 0);
    CountedLineIsWritten(content, lexicon, 1);
    CountedLineIsWritten(content, lexicon, 2);
    FirstThreeWritten(lines);
    assert FirstLines(content, 3) == lines[..3];
  }

  lemma FirstThreeWritten(lines: seq<string>)
    requires |lines| >= 3 && !IsBlank(lines[0]) && !IsBlank(lines[1]) && !IsBlank(lines[2])
    ensures forall i :: 0 <= i < 3 ==> !IsBlank(lines[..3][i])
  {
  }

  /**
   * On the counts the counter produces, a haiku is valid exactly when its counts are 5, 7, 5, and
   * then it is also complete, because a line with syllables is a written line: the "great
   * syllable structure" message can never be chosen. An invalid haiku gets the first line-level
   * issue, or "keep writing" when every short line is blank.
   */
  lemma JudgeMeaning(content: string, lexicon: map<string, int>)
    ensures var counts := HaikuCountsSpec(content, lexicon);
            var v := Judge(content, counts);
            && (v.isValid <==> counts == [5, 7, 5])
            && v.isComplete == v.isValid
            && (HaikuFeedback(content, counts) == Perfect <==> v.isValid)
            && HaikuFeedback(content, counts) != GreatStructure
            && (!v.isValid ==>
                  HaikuFeedback(content, counts) ==
                    match FirstIssue(counts, HaikuPattern, FirstLines(content, 3), 0)
                    case Some(f) => f
                    case None => KeepWriting)
  {
    var counts := HaikuCountsSpec(content, lexicon);
    if counts == HaikuPattern {
      ValidMeansWritten(content, lexicon);
    } else {
      FirstIssueIsFirst(counts, HaikuPattern, FirstLines(content, 3), 0);
    }
  }

  /** `validateHaiku`. */
  method ValidateHaiku(content: string, lexicon: map<string, int>) returns (r: ValidationResult)
    ensures r == Judge(content, HaikuCountsSpec(content, lexicon))
  {
    var syllableCounts := CountHaikuSyllables(content, lexicon);
    r := Judge(content, syllableCounts);
  }
}
