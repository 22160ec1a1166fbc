/**
 * The text and timing logic around speech synthesis: pause tags between lines, the tokenizer
 * that numbers words and lines for highlighting, the grouping of per-character alignment into
 * words, the cursor walk that gives each token its start and end time, and the API-key format
 * test. Times are abstract integers; the network, the audio and the timers are not modelled.
 */
module SpeechText {
  import opened Wrappers
  import opened Text
  import opened Runs

  // ---------------------------------------------------------------------------------------
  // Pause breaks

  /** The SSML tag for a pause of `duration` seconds (`duration` as a template literal renders it). */
  function BreakTag(duration: string): string {
    "<break time=\"" + duration + "s\" />"
  }

  /** `addPauseBreaks`: every newline gets the break tag in front of it. */
  function AddPauseBreaks(text: string, duration: string): string {
    if text == [] then []
    else (if text[0] == '\n' then BreakTag(duration) + "\n" else [text[0]]) + AddPauseBreaks(text[1..], duration)
  }

  /** The inverse: a break tag that stands right before a newline is dropped. */
  function RemoveBreaks(s: string, duration: string): string
    decreases |s|
  {
    var tag := BreakTag(duration) + "\n";
    if s == [] then []
    else if StartsWith(s, tag) then "\n" + RemoveBreaks(s[|tag|..], duration)
    else [s[0]] + RemoveBreaks(s[1..], duration)
  }

  predicate NoNewline(s: string) {
    forall i :: 0 <= i < |s| ==> s[i] != '\n'
  }

  lemma TagHasNoNewline(duration: string)
    requires NoNewline(duration)
    ensures NoNewline(BreakTag(duration))
  {
    var tag := BreakTag(duration);
    forall i | 0 <= i < |tag| ensures tag[i] != '\n' {
      if 13 <= i < 13 + |duration| { assert tag[i] == duration[i - 13]; }
    }
  }

  /** A slice that lies inside the second part of a concatenation. */
  lemma SliceOfAppend(a: string, b: string, i: nat, j: nat)
    requires |a| <= i <= j <= |a| + |b|
    ensures (a + b)[i..j] == b[i - |a|..j - |a|]
  {
  }

  /** One step of AddPauseBreaks: the output for the first character, then the rest's. */
  lemma AddPauseBreaksCons(text: string, duration: string)
    requires text != []
    ensures AddPauseBreaks(text, duration) ==
              (if text[0] == '\n' then BreakTag(duration) + "\n" else [text[0]]) + AddPauseBreaks(text[1..], duration)
  {
  }

  /**
   * The step of NewlinesFollowTag on an output `head + rest`: a newline in the head is the one
   * after its tag, and a newline in the rest keeps the tag the rest puts before it.
   */
  lemma NewlineStep(head: string, rest: string, tag: string, y: nat, isBreak: bool)
    requires NoNewline(tag)
    requires isBreak ==> head == tag + "\n"
    requires !isBreak ==> |head| == 1 && head[0] != '\n'
    requires y < |head + rest| && (head + rest)[y] == '\n'
    requires y >= |head| ==> |tag| <= y - |head| && rest[y - |head| - |tag|..y - |head|] == tag
    ensures |tag| <= y && (head + rest)[y - |tag|..y] == tag
  {
    assert !isBreak ==> (head + rest)[0] == head[0];
    if y < |head| {
      assert isBreak;
      assert forall i :: 0 <= i < |tag| ==> (head + rest)[i] == tag[i];
      assert y == |tag|;
      assert (head + rest)[..|tag|] == tag;
    } else {
      SliceOfAppend(head, rest, y - |tag|, y);
    }
  }

  /** In the output every newline comes right after a break tag. */
  lemma {:induction false} NewlinesFollowTag(text: string, duration: string, y: nat)
    requires NoNewline(duration)
    requires y < |AddPauseBreaks(text, duration)| && AddPauseBreaks(text, duration)[y] == '\n'
    ensures |BreakTag(duration)| <= y
    ensures AddPauseBreaks(text, duration)[y - |BreakTag(duration)|..y] == BreakTag(duration)
  {
    var tag := BreakTag(duration);
    var rest := AddPauseBreaks(text[1..], duration);
    var head := if text[0] == '\n' then tag + "\n" else [text[0]];
    assert AddPauseBreaks(text, duration) == head + rest by {
      AddPauseBreaksCons(text, duration);
    }
    if y >= |head| {
      assert rest[y - |head|] == '\n' by {
        assert (head + rest)[y] == rest[y - |head|];
      }
      NewlinesFollowTag(text[1..], duration, y - |head|);
    }
    assert NoNewline(tag) by {
      TagHasNoNewline(duration);
    }
    NewlineStep(head, rest, tag, y, text[0] == '\n');
  }

  /** Removing the tags gives back the text the tags were added to. */
  lemma {:induction false} PauseBreaksRoundTrip(text: string, duration: string)
    requires NoNewline(duration)
    ensures RemoveBreaks(AddPauseBreaks(text, duration), duration) == text
  {
    if text != [] {
      var tag := BreakTag(duration) + "\n";
      var rest := AddPauseBreaks(text[1..], duration);
      PauseBreaksRoundTrip(text[1..], duration);
      if text[0] == '\n' {
        var out := tag + rest;
        assert StartsWith(out, tag);
        assert out[|tag|..] == rest;
      } else {
        var out := [text[0]] + rest;
        if StartsWith(out, tag) {
          assert out[|tag| - 1] == '\n';
          assert rest[|tag| - 2] == '\n';
          NewlinesFollowTag(text[1..], duration, |tag| - 2);
          assert false;
        }
        assert out[1..] == rest;
      }
    }
  }

  /** A text without line breaks is left as it is. */
  lemma {:induction false} PauseBreaksSingleLine(text: string, duration: string)
    requires NoNewline(text)
    ensures AddPauseBreaks(text, duration) == text
  {
    if text != [] {
      PauseBreaksSingleLine(text[1..], duration);
    }
  }

  // ---------------------------------------------------------------------------------------
  // Tokens for highlighting

  predicate IsAlnum(c: char) {
    IsAsciiLower(c) || IsAsciiUpper(c) || IsDigit(c)
  }

  /** The characters the timing walk treats as part of a word: alphanumerics, `'`, `’` and `-`. */
  predicate IsWordChar(c: char) {
    IsAlnum(c) || c == '\'' || c == '\U{2019}' || c == '-'
  }

  /** The tokenizer's continuation class as written: alphanumerics, `'` (listed twice) and `-`. */
  predicate IsTokenCharAsWritten(c: char) {
    IsAlnum(c) || c == '\'' || c == '-'
  }

  lemma WordCharsAreVisible(c: char)
    requires IsAlnum(c) || IsWordChar(c)
    ensures !IsSpace(c) && c != '\n'
  {
  }

  datatype Token = Token(word: string, wordIndex: nat, lineIndex: nat)

  /** A word the tokenizer can produce: non-empty, a letter or digit first, `cont` characters after. */
  predicate IsTokenWord(w: string, cont: char -> bool) {
    w != [] && IsAlnum(w[0]) && forall i :: 0 < i < |w| ==> cont(w[i])
  }

  /** The words one line holds: the matches of `[A-Za-z0-9][cont]*`, left to right. */
  function LineWords(line: string, cont: char -> bool): (r: seq<string>)
    ensures forall k :: 0 <= k < |r| ==> IsTokenWord(r[k], cont)
  {
    var spans := RunsFrom(line, 0, IsAlnum, cont);
    var r := Texts(line, spans);
    forall k | 0 <= k < |r| ensures IsTokenWord(r[k], cont) {
      RunIsWord(line, spans[k], cont);
    }
    r
  }

  lemma RunIsWord(line: string, sp: Span, cont: char -> bool)
    requires IsRun(line, sp, IsAlnum, cont)
    ensures IsTokenWord(line[sp.start..sp.end], cont)
  {
    var w := line[sp.start..sp.end];
    assert forall i :: 0 <= i < |w| ==> w[i] == line[sp.start + i];
  }

  /** Tokens for `words`, numbered from `first` on, all on line `line`. */
  function Numbered(words: seq<string>, first: nat, line: nat): (r: seq<Token>)
    ensures |r| == |words|
    ensures forall k :: 0 <= k < |r| ==> r[k] == Token(words[k], first + k, line)
  {
    seq(|words|, k requires 0 <= k < |words| => Token(words[k], first + k, line))
  }

  /**
   * The tokens of the first `n` lines: numbered 0, 1, 2, … in order, each on one of those lines,
   * each word non-empty, starting with a letter or digit and continuing with `cont` characters.
   */
  function TokensBefore(lines: seq<string>, n: nat, cont: char -> bool): (r: seq<Token>)
    requires n <= |lines|
    ensures forall k :: 0 <= k < |r| ==> r[k].wordIndex == k && r[k].lineIndex < n && IsTokenWord(r[k].word, cont)
  {
    if n == 0 then []
    else
      var before := TokensBefore(lines, n - 1, cont);
      var here := Numbered(LineWords(lines[n - 1], cont), |before|, n - 1);
      var r := before + here;
      forall k | 0 <= k < |r| ensures r[k].wordIndex == k && r[k].lineIndex < n && IsTokenWord(r[k].word, cont) {
        if k < |before| {
          assert r[k] == before[k];
        } else {
          var j := k - |before|;
          assert r[k] == here[j];
        }
      }
      r
  }

  /** What `tokenizeWithLines` returns, for a tokenizer that continues words with `cont`. */
  function TokenizeWith(text: string, cont: char -> bool): seq<Token> {
    var lines := SplitBy(text, IsNewline);
    TokensBefore(lines, |lines|, cont)
  }

  /** The tokens as the tokenizer is written. */
  function TokenizeAsWritten(text: string): seq<Token> {
    TokenizeWith(text, IsTokenCharAsWritten)
  }

  /** The tokens once words continue over the same characters the timing walk expects. */
  function Tokenize(text: string): seq<Token> {
    TokenizeWith(text, IsWordChar)
  }

  /** One step of TokensBefore: the tokens of the lines before, then those of line `n - 1`. */
  lemma TokensBeforeSnoc(lines: seq<string>, n: nat, cont: char -> bool)
    requires 0 < n <= |lines|
    ensures TokensBefore(lines, n, cont) ==
              TokensBefore(lines, n - 1, cont) + Numbered(LineWords(lines[n - 1], cont), |TokensBefore(lines, n - 1, cont)|, n - 1)
  {
  }

  /** Appending tokens of a line no earlier than any before them keeps line numbers ascending. */
  lemma LinesAppend(before: seq<Token>, here: seq<Token>, line: nat, j: nat, k: nat)
    requires j <= k < |before + here|
    requires forall i :: 0 <= i < |before| ==> before[i].lineIndex <= line
    requires forall i :: 0 <= i < |here| ==> here[i].lineIndex == line
    requires k < |before| ==> before[j].lineIndex <= before[k].lineIndex
    ensures (before + here)[j].lineIndex <= (before + here)[k].lineIndex
  {
    if k < |before| {
      assert (before + here)[j] == before[j] && (before + here)[k] == before[k];
    } else {
      assert (before + here)[k] == here[k - |before|];
      if j < |before| {
        assert (before + here)[j] == before[j];
      } else {
        assert (before + here)[j] == here[j - |before|];
      }
    }
  }

  /** Line numbers never decrease along the tokens. */
  lemma {:induction false} TokenLinesAscend(lines: seq<string>, n: nat, cont: char -> bool, j: nat, k: nat)
    requires n <= |lines| && j <= k < |TokensBefore(lines, n, cont)|
    ensures TokensBefore(lines, n, cont)[j].lineIndex <= TokensBefore(lines, n, cont)[k].lineIndex
  {
    var before := TokensBefore(lines, n - 1, cont);
    var here := Numbered(LineWords(lines[n - 1], cont), |before|, n - 1);
    TokensBeforeSnoc(lines, n, cont);
    if k < |before| {
      TokenLinesAscend(lines, n - 1, cont, j, k);
    }
    LinesAppend(before, here, n - 1, j, k);
  }

  /**
   * The tokenizer's promises, for the tokens of a whole text and any continuation class — the
   * program's and the corrected one alike: token `k` is numbered `k`, lies on one of the text's
   * lines, no earlier token lies on a later line, and its word starts with a letter or digit and
   * continues with `cont` characters, so holds no white space when `cont` admits none.
   */
  lemma TokenizeMeaning(text: string, cont: char -> bool, j: nat, k: nat)
    requires j <= k < |TokenizeWith(text, cont)|
    ensures TokenizeWith(text, cont)[k].wordIndex == k
    ensures TokenizeWith(text, cont)[k].lineIndex < |SplitBy(text, IsNewline)|
    ensures TokenizeWith(text, cont)[j].lineIndex <= TokenizeWith(text, cont)[k].lineIndex
    ensures IsTokenWord(TokenizeWith(text, cont)[k].word, cont)
    ensures (forall c :: cont(c) ==> !IsSpace(c)) ==>
              forall i :: 0 <= i < |TokenizeWith(text, cont)[k].word| ==> !IsSpace(TokenizeWith(text, cont)[k].word[i])
  {
    var lines := SplitBy(text, IsNewline);
    var tokens := TokensBefore(lines, |lines|, cont);
    TokenLinesAscend(lines, |lines|, cont, j, k);
    var w := tokens[k].word;
    assert IsTokenWord(w, cont);
    if forall c :: cont(c) ==> !IsSpace(c) {
      forall i | 0 <= i < |w| ensures !IsSpace(w[i]) {
        if i == 0 { WordCharsAreVisible(w[i]); }
      }
    }
  }

  /** Neither the program's continuation class nor the corrected one admits white space. */
  lemma ClassesAreVisible(c: char)
    ensures IsTokenCharAsWritten(c) ==> !IsSpace(c)
    ensures IsWordChar(c) ==> !IsSpace(c)
  {
    if IsTokenCharAsWritten(c) || IsWordChar(c) { WordCharsAreVisible(c); }
  }

  /** Every letter or digit of a line lies inside one of the line's words, which cannot be extended. */
  lemma LineWordsCover(line: string, cont: char -> bool, i: nat)
    requires i < |line| && IsAlnum(line[i])
    ensures exists j :: 0 <= j < |RunsFrom(line, 0, IsAlnum, cont)| &&
              RunsFrom(line, 0, IsAlnum, cont)[j].start <= i < RunsFrom(line, 0, IsAlnum, cont)[j].end
  {
    RunsFromCover(line, 0, IsAlnum, cont, i);
  }

  /** `tokenizeWithLines`: split on newlines, then run the word expression over each line. */
  method TokenizeWithLines(text: string) returns (tokens: seq<Token>)
    ensures tokens == TokenizeAsWritten(text)
  {
    var lines := SplitBy(text, IsNewline);
    tokens := [];
    var wordIndex := 0;
    var lineIndex := 0;
    while lineIndex < |lines|
      invariant 0 <= lineIndex <= |lines|
      invariant tokens == TokensBefore(lines, lineIndex, IsTokenCharAsWritten)
      invariant wordIndex == |tokens|
    {
      var lineTokens := TokenizeLine(lines[lineIndex], wordIndex, lineIndex);
      assert TokensBefore(lines, lineIndex + 1, IsTokenCharAsWritten) == tokens + lineTokens;
      tokens := tokens + lineTokens;
      wordIndex := wordIndex + |lineTokens|;
      lineIndex := lineIndex + 1;
    }
  }

  /**
   * The body of the per-line callback: `exec` the word expression until it finds nothing,
   * numbering the words from `first`.
   */
  method TokenizeLine(line: string, first: nat, lineIndex: nat) returns (tokens: seq<Token>)
    ensures tokens == Numbered(LineWords(line, IsTokenCharAsWritten), first, lineIndex)
  {
    tokens := [];
    var wordIndex := first;
    ghost var found: seq<string> := [];
    var lastIndex := 0;
    var m := NextRun(line, 0, IsAlnum, IsTokenCharAsWritten);
    while m.Some?
      invariant TokenizeState(line, first, lineIndex, lastIndex, found, tokens, wordIndex)
      invariant m == NextRun(line, lastIndex, IsAlnum, IsTokenCharAsWritten)
      decreases |line| - lastIndex
    {
      var word := line[m.value.start..m.value.end];
      TokenizeLineStep(line, first, lineIndex, lastIndex, m.value, found, tokens, wordIndex);
      // A match is never empty, so the `if (word)` guard always passes.
      tokens := tokens + [Token(word, wordIndex, lineIndex)];
      wordIndex := wordIndex + 1;
      found := found + [word];
      lastIndex := m.value.end;
      m := NextRun(line, lastIndex, IsAlnum, IsTokenCharAsWritten);
    }
    TokenizeLineEnd(line, first, lineIndex, lastIndex, found, tokens, wordIndex);
  }

  /**
   * The state of TokenizeLine's loop: the words `found` so far, followed by the words of the
   * runs from `lastIndex` on, are the line's words, and the tokens number the words found.
   */
  ghost predicate TokenizeState(line: string, first: nat, lineIndex: nat, lastIndex: nat, found: seq<string>,
                                tokens: seq<Token>, wordIndex: nat)
  {
    lastIndex <= |line|
    && LineWords(line, IsTokenCharAsWritten) == found + Texts(line, RunsFrom(line, lastIndex, IsAlnum, IsTokenCharAsWritten))
    && tokens == Numbered(found, first, lineIndex)
    && wordIndex == first + |found|
  }

  /** One `exec` of the loop in TokenizeLine: the word found moves from what remains to what was found. */
  lemma TokenizeLineStep(line: string, first: nat, lineIndex: nat, lastIndex: nat, sp: Span, found: seq<string>,
                         tokens: seq<Token>, wordIndex: nat)
    requires TokenizeState(line, first, lineIndex, lastIndex, found, tokens, wordIndex)
    requires NextRun(line, lastIndex, IsAlnum, IsTokenCharAsWritten) == Some(sp)
    ensures lastIndex < sp.end <= |line|
    ensures TokenizeState(line, first, lineIndex, sp.end, found + [line[sp.start..sp.end]],
                          tokens + [Token(line[sp.start..sp.end], wordIndex, lineIndex)], wordIndex + 1)
  {
    RunsFromStep(line, lastIndex, IsAlnum, IsTokenCharAsWritten);
    Regroup(found, line[sp.start..sp.end], Texts(line, RunsFrom(line, sp.end, IsAlnum, IsTokenCharAsWritten)));
    NumberedSnoc(found, line[sp.start..sp.end], first, lineIndex);
  }

  /** When the search finds nothing more, the words found are all the line's words. */
  lemma TokenizeLineEnd(line: string, first: nat, lineIndex: nat, lastIndex: nat, found: seq<string>,
                        tokens: seq<Token>, wordIndex: nat)
    requires TokenizeState(line, first, lineIndex, lastIndex, found, tokens, wordIndex)
    requires NextRun(line, lastIndex, IsAlnum, IsTokenCharAsWritten).None?
    ensures tokens == Numbered(LineWords(line, IsTokenCharAsWritten), first, lineIndex)
  {
    RunsFromStep(line, lastIndex, IsAlnum, IsTokenCharAsWritten);
    assert found + [] == found;
  }

  lemma NumberedSnoc(words: seq<string>, w: string, first: nat, line: nat)
    ensures Numbered(words + [w], first, line) == Numbered(words, first, line) + [Token(w, first + |words|, line)]
  {
  }

  lemma SnocAssoc<T>(a: seq<T>, b: seq<T>, x: T)
    ensures (a + b) + [x] == a + (b + [x])
  {
  }

  lemma Regroup<T>(a: seq<T>, x: T, b: seq<T>)
    ensures a + ([x] + b) == (a + [x]) + b
  {
  }

  // ---------------------------------------------------------------------------------------
  // API key format

  /**
   * `isValidApiKey`: the key must be a string (`None` stands for any other value), must not be
   * blank, and must start with `sk-` or be longer than 20 characters.
   */
  function IsValidApiKey(key: Option<string>): bool {
    key.Some? && Trim(key.value) != [] && (StartsWith(key.value, "sk-") || |key.value| > 20)
  }

  /**
   * A blank key is refused however long it is; a non-blank key is accepted exactly when it has
   * the `sk-` prefix or more than 20 characters; anything but a string is refused.
   */
  lemma ApiKeyMeaning(key: string)
    ensures IsBlank(key) ==> !IsValidApiKey(Some(key))
    ensures !IsBlank(key) ==> (IsValidApiKey(Some(key)) <==> StartsWith(key, "sk-") || |key| > 20)
    ensures !IsValidApiKey(None)
  {
    TrimProperties(key);
  }

  /** Worked examples of ApiKeyMeaning on three fixed keys; the general statement is ApiKeyMeaning. */
  lemma ApiKeyExamples()
    ensures IsValidApiKey(Some("sk-"))
    ensures !IsValidApiKey(Some("abc"))
    ensures IsValidApiKey(Some("abcdefghijklmnopqrstu"))
  {
    ApiKeyMeaning("sk-");
    assert !IsSpace("sk-"[0]);
    ApiKeyMeaning("abc");
    assert !IsSpace("abc"[0]);
    ApiKeyMeaning("abcdefghijklmnopqrstu");
    assert !IsSpace("abcdefghijklmnopqrstu"[0]);
  }

  // ---------------------------------------------------------------------------------------
  // Word alignment from character timings

  /**
   * The alignment the speech service returns: one entry per spoken character, with its start
   * and end time. A missing property is `None`. Times are kept as exact numbers.
   */
  datatype Alignment = Alignment(characters: Option<seq<char>>, startTimes: Option<seq<int>>, endTimes: Option<seq<int>>)

  /** A word with the time its first character starts and its last ends; `None` is `undefined`. */
  datatype AlignedWord = AlignedWord(word: string, startTime: Option<int>, endTime: Option<int>)

  /** What ends a word: white space (`c.trim() === ''`) or one of `. , ? ! ; :`. */
  predicate IsAlignSeparator(c: char) {
    IsSpace(c) || c == '.' || c == ',' || c == '?' || c == '!' || c == ';' || c == ':'
  }

  predicate InAlignedWord(c: char) {
    !IsAlignSeparator(c)
  }

  /** `times[i]`, or `undefined` past the end. */
  function TimeAt(times: seq<int>, i: nat): Option<int> {
    if i < |times| then Some(times[i]) else None
  }

  /** The error reading a property of a missing time array raises. */
  const MissingTimes := "Cannot read properties of undefined (reading 'length')"

  /** The word one span of `chars` forms. */
  function WordOf(chars: seq<char>, starts: seq<int>, ends: seq<int>, sp: Span): AlignedWord
    requires sp.start < sp.end <= |chars|
  {
    AlignedWord(chars[sp.start..sp.end], TimeAt(starts, sp.start), TimeAt(ends, sp.end - 1))
  }

  /** The maximal stretches of `chars` free of separators, in order. */
  function AlignSpans(chars: seq<char>): seq<Span> {
    RunsFrom(chars, 0, InAlignedWord, InAlignedWord)
  }

  function WordsOf(chars: seq<char>, starts: seq<int>, ends: seq<int>, spans: seq<Span>): (r: seq<AlignedWord>)
    requires forall j :: 0 <= j < |spans| ==> spans[j].start < spans[j].end <= |chars|
    ensures |r| == |spans|
    ensures forall j :: 0 <= j < |r| ==> r[j] == WordOf(chars, starts, ends, spans[j])
  {
    if spans == [] then []
    else
      var init := WordsOf(chars, starts, ends, spans[..|spans| - 1]);
      var r := init + [WordOf(chars, starts, ends, spans[|spans| - 1])];
      assert forall j :: 0 <= j < |init| ==> r[j] == init[j];
      r
  }

  lemma WordsOfSnoc(chars: seq<char>, starts: seq<int>, ends: seq<int>, spans: seq<Span>, sp: Span)
    requires forall j :: 0 <= j < |spans| ==> spans[j].start < spans[j].end <= |chars|
    requires sp.start < sp.end <= |chars|
    ensures WordsOf(chars, starts, ends, spans + [sp]) == WordsOf(chars, starts, ends, spans) + [WordOf(chars, starts, ends, sp)]
  {
    assert (spans + [sp])[..|spans|] == spans;
  }

  /**
   * What `parseWordAlignment` returns or raises: nothing without alignment or characters, a
   * failure when either time array is missing (the function reads their lengths before the
   * loop), and otherwise one word per maximal separator-free stretch of the characters.
   */
  function ParseSpec(alignment: Option<Alignment>): Result<seq<AlignedWord>> {
    if alignment.None? || alignment.value.characters.None? then Ok([])
    else if alignment.value.startTimes.None? || alignment.value.endTimes.None? then Err(MissingTimes)
    else
      var chars := alignment.value.characters.value;
      Ok(WordsOf(chars, alignment.value.startTimes.value, alignment.value.endTimes.value, AlignSpans(chars)))
  }

  /**
   * The parser's promises: every word is non-empty and free of separators, cannot be extended
   * on either side, the words appear in order, gluing them together gives the characters with
   * the separators removed, and each word carries the start time of its first character and
   * the end time of its last.
   */
  lemma ParseMeaning(chars: seq<char>, starts: seq<int>, ends: seq<int>, j: nat)
    requires j < |AlignSpans(chars)|
    ensures ParseSpec(Some(Alignment(Some(chars), Some(starts), Some(ends)))).Ok?
    ensures |ParseSpec(Some(Alignment(Some(chars), Some(starts), Some(ends)))).value| == |AlignSpans(chars)|
    ensures ParseSpec(Some(Alignment(Some(chars), Some(starts), Some(ends)))).value[j]
            == AlignedWord(chars[AlignSpans(chars)[j].start..AlignSpans(chars)[j].end],
                           TimeAt(starts, AlignSpans(chars)[j].start), TimeAt(ends, AlignSpans(chars)[j].end - 1))
    ensures forall i :: AlignSpans(chars)[j].start <= i < AlignSpans(chars)[j].end ==> InAlignedWord(chars[i])
    ensures AlignSpans(chars)[j].start == 0 || IsAlignSeparator(chars[AlignSpans(chars)[j].start - 1])
    ensures AlignSpans(chars)[j].end == |chars| || IsAlignSeparator(chars[AlignSpans(chars)[j].end])
    ensures j + 1 < |AlignSpans(chars)| ==> AlignSpans(chars)[j].end < AlignSpans(chars)[j + 1].start
  {
    ParseAt(chars, starts, ends, j);
    RunsAreMaximal(chars, InAlignedWord, j);
  }

  /** Word `j` of the parse is the text and times of run `j`. */
  lemma ParseAt(chars: seq<char>, starts: seq<int>, ends: seq<int>, j: nat)
    requires j < |AlignSpans(chars)|
    ensures ParseSpec(Some(Alignment(Some(chars), Some(starts), Some(ends)))).Ok?
    ensures |ParseSpec(Some(Alignment(Some(chars), Some(starts), Some(ends)))).value| == |AlignSpans(chars)|
    ensures ParseSpec(Some(Alignment(Some(chars), Some(starts), Some(ends)))).value[j]
            == AlignedWord(chars[AlignSpans(chars)[j].start..AlignSpans(chars)[j].end],
                           TimeAt(starts, AlignSpans(chars)[j].start), TimeAt(ends, AlignSpans(chars)[j].end - 1))
  {
    var spans := AlignSpans(chars);
    var v := ParseSpec(Some(Alignment(Some(chars), Some(starts), Some(ends)))).value;
    assert v == WordsOf(chars, starts, ends, spans);
    assert v[j] == WordOf(chars, starts, ends, spans[j]);
  }

  /** Nothing is lost but the separators: the words glued together are the other characters. */
  lemma ParseKeepsLetters(chars: seq<char>, starts: seq<int>, ends: seq<int>)
    ensures ParseSpec(Some(Alignment(Some(chars), Some(starts), Some(ends)))).Ok?
    ensures Concat(AlignedTexts(ParseSpec(Some(Alignment(Some(chars), Some(starts), Some(ends)))).value)) == Filter(chars, InAlignedWord)
  {
    var spans := AlignSpans(chars);
    assert ParseSpec(Some(Alignment(Some(chars), Some(starts), Some(ends)))) == Ok(WordsOf(chars, starts, ends, spans));
    assert AlignedTexts(WordsOf(chars, starts, ends, spans)) == Texts(chars, spans) by {
      TextsOfWords(chars, starts, ends, spans);
    }
    assert Concat(Texts(chars, spans)) == Filter(chars, InAlignedWord) by {
      RunsFromConcat(chars, 0, InAlignedWord);
      assert chars[0..] == chars;
    }
  }

  /** The words' texts are the spans' texts. */
  lemma TextsOfWords(chars: seq<char>, starts: seq<int>, ends: seq<int>, spans: seq<Span>)
    requires forall j :: 0 <= j < |spans| ==> spans[j].start < spans[j].end <= |chars|
    ensures AlignedTexts(WordsOf(chars, starts, ends, spans)) == Texts(chars, spans)
  {
    var a := AlignedTexts(WordsOf(chars, starts, ends, spans));
    var b := Texts(chars, spans);
    assert |a| == |b|;
    forall j | 0 <= j < |a| ensures a[j] == b[j] {
      assert WordsOf(chars, starts, ends, spans)[j] == WordOf(chars, starts, ends, spans[j]);
    }
  }

  /** The words' texts. */
  function AlignedTexts(words: seq<AlignedWord>): (r: seq<string>)
    ensures |r| == |words|
    ensures forall j :: 0 <= j < |r| ==> r[j] == words[j].word
  {
    seq(|words|, j requires 0 <= j < |words| => words[j].word)
  }

  /** Missing alignment data gives no words; a missing time array is a failure. */
  lemma ParseMissing(alignment: Option<Alignment>)
    ensures alignment.None? ==> ParseSpec(alignment) == Ok([])
    ensures alignment.Some? && alignment.value.characters.None? ==> ParseSpec(alignment) == Ok([])
    ensures alignment.Some? && alignment.value.characters.Some?
            && (alignment.value.startTimes.None? || alignment.value.endTimes.None?)
            ==> ParseSpec(alignment).Err?
  {
  }

  /**
   * `parseWordAlignment`: collect characters into the current word until a separator ends it,
   * remembering the start time of its first character and the end time of its latest.
   */
  method ParseWordAlignment(alignment: Option<Alignment>) returns (r: Result<seq<AlignedWord>>)
    ensures r == ParseSpec(alignment)
  {
    if alignment.None? || alignment.value.characters.None? {
      return Ok([]);
    }
    var characters := alignment.value.characters.value;
    if alignment.value.startTimes.None? || alignment.value.endTimes.None? {
      return Err(MissingTimes);
    }
    var words := CollectWords(characters, alignment.value.startTimes.value, alignment.value.endTimes.value);
    return Ok(words);
  }

  /** The loop of `parseWordAlignment`, once the time arrays are known to be there. */
  method CollectWords(characters: seq<char>, startTimes: seq<int>, endTimes: seq<int>) returns (words: seq<AlignedWord>)
    ensures words == WordsOf(characters, startTimes, endTimes, AlignSpans(characters))
  {
    words := [];
    var currentWord: string := [];
    var wordStartTime: Option<int> := None;
    var wordEndTime: Option<int> := None;
    ghost var done: seq<Span> := [];
    ghost var q: nat := 0;
    for i := 0 to |characters|
      invariant ParseInvariant(characters, startTimes, endTimes, i, q, done, words, currentWord, wordStartTime, wordEndTime)
    {
      var c := characters[i];
      if IsAlignSeparator(c) {
        if currentWord != [] {
          CloseAtSeparator(characters, startTimes, endTimes, i, q, done, words, currentWord, wordStartTime, wordEndTime);
          words := words + [AlignedWord(currentWord, wordStartTime, wordEndTime)];
          done := done + [Span(q, i)];
          currentWord := [];
          wordStartTime := None;
          wordEndTime := None;
        } else {
          SkipAtSeparator(characters, startTimes, endTimes, i, q, done, words, wordStartTime, wordEndTime);
        }
        q := i + 1;
      } else {
        LetterStep(characters, startTimes, endTimes, i, q, done, words, currentWord, wordStartTime, wordEndTime);
        if currentWord == [] {
          wordStartTime := TimeAt(startTimes, i);
        }
        currentWord := currentWord + [c];
        wordEndTime := TimeAt(endTimes, i);
      }
    }
    FinishWords(characters, startTimes, endTimes, q, done, words, currentWord, wordStartTime, wordEndTime);
    if currentWord != [] {
      words := words + [AlignedWord(currentWord, wordStartTime, wordEndTime)];
    }
  }

  /**
   * The state of ParseWordAlignment's loop before character `i`: `done` are the runs finished,
   * the current word is `characters[q..i]`, and the runs still to come start at `q`.
   */
  ghost predicate ParseInvariant(chars: seq<char>, starts: seq<int>, ends: seq<int>, i: nat, q: nat, done: seq<Span>,
                                 words: seq<AlignedWord>, currentWord: string, wordStartTime: Option<int>, wordEndTime: Option<int>)
  {
    q <= i <= |chars|
    && currentWord == chars[q..i]
    && (forall k :: q <= k < i ==> InAlignedWord(chars[k]))
    && (currentWord != [] ==> wordStartTime == TimeAt(starts, q) && wordEndTime == TimeAt(ends, i - 1))
    && (forall j :: 0 <= j < |done| ==> done[j].start < done[j].end <= |chars|)
    && AlignSpans(chars) == done + RunsFrom(chars, q, InAlignedWord, InAlignedWord)
    && words == WordsOf(chars, starts, ends, done)
  }

  /** A character that belongs to a word extends the current word, which keeps its start time. */
  lemma LetterStep(chars: seq<char>, starts: seq<int>, ends: seq<int>, i: nat, q: nat, done: seq<Span>,
                   words: seq<AlignedWord>, currentWord: string, wordStartTime: Option<int>, wordEndTime: Option<int>)
    requires i < |chars| && InAlignedWord(chars[i])
    requires ParseInvariant(chars, starts, ends, i, q, done, words, currentWord, wordStartTime, wordEndTime)
    ensures ParseInvariant(chars, starts, ends, i + 1, q, done, words, currentWord + [chars[i]],
                           if currentWord == [] then TimeAt(starts, i) else wordStartTime, TimeAt(ends, i))
  {
    assert chars[q..i + 1] == chars[q..i] + [chars[i]];
  }

  /** Closing the current word `[q, e)` moves its span from the runs still to come to the runs done. */
  lemma CloseWordStep(chars: seq<char>, starts: seq<int>, ends: seq<int>, done: seq<Span>, q: nat, e: nat)
    requires q < e <= |chars|
    requires forall k :: q <= k < e ==> InAlignedWord(chars[k])
    requires e == |chars| || !InAlignedWord(chars[e])
    requires forall j :: 0 <= j < |done| ==> done[j].start < done[j].end <= |chars|
    requires AlignSpans(chars) == done + RunsFrom(chars, q, InAlignedWord, InAlignedWord)
    ensures AlignSpans(chars) == (done + [Span(q, e)]) + RunsFrom(chars, e, InAlignedWord, InAlignedWord)
    ensures WordsOf(chars, starts, ends, done + [Span(q, e)])
            == WordsOf(chars, starts, ends, done) + [AlignedWord(chars[q..e], TimeAt(starts, q), TimeAt(ends, e - 1))]
  {
    RunsFromClose(chars, q, e, InAlignedWord, InAlignedWord);
    Regroup(done, Span(q, e), RunsFrom(chars, e, InAlignedWord, InAlignedWord));
    WordsOfSnoc(chars, starts, ends, done, Span(q, e));
  }

  /** A separator after a word closes it: its span joins the runs done. */
  lemma CloseAtSeparator(chars: seq<char>, starts: seq<int>, ends: seq<int>, i: nat, q: nat, done: seq<Span>,
                         words: seq<AlignedWord>, currentWord: string, wordStartTime: Option<int>, wordEndTime: Option<int>)
    requires i < |chars| && !InAlignedWord(chars[i]) && currentWord != []
    requires ParseInvariant(chars, starts, ends, i, q, done, words, currentWord, wordStartTime, wordEndTime)
    ensures ParseInvariant(chars, starts, ends, i + 1, i + 1, done + [Span(q, i)],
                           words + [AlignedWord(currentWord, wordStartTime, wordEndTime)], [], None, None)
  {
    assert q < i && currentWord == chars[q..i];
    assert wordStartTime == TimeAt(starts, q) && wordEndTime == TimeAt(ends, i - 1);
    CloseWordStep(chars, starts, ends, done, q, i);
    RunsFromSkip(chars, i, InAlignedWord, InAlignedWord);
    assert chars[i + 1..i + 1] == [];
  }

  /** A separator outside a word changes nothing but the position. */
  lemma SkipAtSeparator(chars: seq<char>, starts: seq<int>, ends: seq<int>, i: nat, q: nat, done: seq<Span>,
                        words: seq<AlignedWord>, wordStartTime: Option<int>, wordEndTime: Option<int>)
    requires i < |chars| && !InAlignedWord(chars[i])
    requires ParseInvariant(chars, starts, ends, i, q, done, words, [], wordStartTime, wordEndTime)
    ensures ParseInvariant(chars, starts, ends, i + 1, i + 1, done, words, [], wordStartTime, wordEndTime)
  {
    RunsFromSkip(chars, i, InAlignedWord, InAlignedWord);
  }

  /** After the last character, closing the word still open (if any) gives every word. */
  lemma FinishWords(chars: seq<char>, starts: seq<int>, ends: seq<int>, q: nat, done: seq<Span>,
                    words: seq<AlignedWord>, currentWord: string, wordStartTime: Option<int>, wordEndTime: Option<int>)
    requires ParseInvariant(chars, starts, ends, |chars|, q, done, words, currentWord, wordStartTime, wordEndTime)
    ensures currentWord == [] ==> words == WordsOf(chars, starts, ends, AlignSpans(chars))
    ensures currentWord != [] ==> words + [AlignedWord(currentWord, wordStartTime, wordEndTime)] == WordsOf(chars, starts, ends, AlignSpans(chars))
  {
    if currentWord != [] {
      assert q < |chars| && currentWord == chars[q..|chars|];
      assert wordStartTime == TimeAt(starts, q) && wordEndTime == TimeAt(ends, |chars| - 1);
      CloseWordStep(chars, starts, ends, done, q, |chars|);
      NoRunsAtEnd(chars, done + [Span(q, |chars|)]);
    } else {
      NoRunsAtEnd(chars, done);
    }
  }

  /** At the end of the characters every run is done. */
  lemma NoRunsAtEnd(chars: seq<char>, done: seq<Span>)
    requires AlignSpans(chars) == done + RunsFrom(chars, |chars|, InAlignedWord, InAlignedWord)
    ensures AlignSpans(chars) == done
  {
    assert RunsFrom(chars, |chars|, InAlignedWord, InAlignedWord) == [];
    assert done + [] == done;
  }

  // ---------------------------------------------------------------------------------------
  // Character timings mapped onto the tokens

  /** The timing data for the spoken text; a missing property is `None`. */
  datatype CharTiming = CharTiming(characters: Option<seq<char>>, startTimes: Option<seq<int>>, endTimes: Option<seq<int>>)

  /** A token with the time its word starts and ends, in milliseconds. */
  datatype WordTiming = WordTiming(word: string, startTime: int, endTime: int, wordIndex: nat, lineIndex: nat)

  /** Where the walk stops skipping from `i`: the first word character, or the end of the characters. */
  function SkipFrom(chars: seq<char>, i: nat): (r: nat)
    ensures i <= r
    ensures r < |chars| ==> IsWordChar(chars[r])
    decreases |chars| - i
  {
    if i >= |chars| || IsWordChar(chars[i]) then i else SkipFrom(chars, i + 1)
  }

  /** Every character the skip passes over is inside the characters and not a word character. */
  lemma {:induction false} SkipFromSkips(chars: seq<char>, i: nat, j: nat)
    requires i <= j < SkipFrom(chars, i)
    ensures j < |chars| && !IsWordChar(chars[j])
    decreases |chars| - i
  {
    if i < j {
      SkipFromSkips(chars, i + 1, j);
    }
  }

  /** Where the walk resumes before token `k`: just past the characters it gave token `k - 1`. */
  function ResumeAt(chars: seq<char>, tokens: seq<Token>, k: nat): nat
    requires k <= |tokens|
  {
    if k == 0 then 0 else SkipFrom(chars, ResumeAt(chars, tokens, k - 1)) + |tokens[k - 1].word|
  }

  /** The index the walk reads token `k`'s start time from. */
  function CursorAt(chars: seq<char>, tokens: seq<Token>, k: nat): nat
    requires k < |tokens|
  {
    SkipFrom(chars, ResumeAt(chars, tokens, k))
  }

  /** `times[i] * 1000`, or 0 when `i` is past the end of the times. */
  function Millis(times: seq<int>, i: int): int {
    if 0 <= i < |times| then times[i] * 1000 else 0
  }

  /** The timing the walk gives token `k`. */
  function TimingOf(chars: seq<char>, starts: seq<int>, ends: seq<int>, tokens: seq<Token>, k: nat): WordTiming
    requires k < |tokens|
  {
    var c := CursorAt(chars, tokens, k);
    WordTiming(tokens[k].word, Millis(starts, c), Millis(ends, c + |tokens[k].word| - 1), tokens[k].wordIndex, tokens[k].lineIndex)
  }

  /** The timings of the first `n` tokens. */
  function TimingsBefore(chars: seq<char>, starts: seq<int>, ends: seq<int>, tokens: seq<Token>, n: nat): (r: seq<WordTiming>)
    requires n <= |tokens|
    ensures |r| == n
    ensures forall j :: 0 <= j < n ==> r[j] == TimingOf(chars, starts, ends, tokens, j)
  {
    if n == 0 then [] else TimingsBefore(chars, starts, ends, tokens, n - 1) + [TimingOf(chars, starts, ends, tokens, n - 1)]
  }

  /**
   * What `mapCharTimingsToTokens` returns: nothing without timing data, tokens, characters or
   * either time array; otherwise one timing per token, in order.
   */
  function MapTimingsSpec(timing: Option<CharTiming>, tokens: seq<Token>): seq<WordTiming> {
    if timing.None? || tokens == [] then []
    else if timing.value.characters.None? || timing.value.startTimes.None? || timing.value.endTimes.None? then []
    else
      TimingsBefore(timing.value.characters.value, timing.value.startTimes.value, timing.value.endTimes.value, tokens, |tokens|)
  }

  /**
   * `mapCharTimingsToTokens`: for each token, skip the characters that cannot be part of a word,
   * read the start time at the cursor and the end time at the token's last character, then move
   * the cursor past the token's length. Tokens are assumed non-empty, as the tokenizer makes them.
   */
  method MapCharTimingsToTokens(timing: Option<CharTiming>, tokens: seq<Token>) returns (wordTimings: seq<WordTiming>)
    requires forall k :: 0 <= k < |tokens| ==> tokens[k].word != []
    ensures wordTimings == MapTimingsSpec(timing, tokens)
  {
    if timing.None? || |tokens| == 0 {
      return [];
    }
    if timing.value.characters.None? || timing.value.startTimes.None? || timing.value.endTimes.None? {
      return [];
    }
    var chars := timing.value.characters.value;
    var startTimes := timing.value.startTimes.value;
    var endTimes := timing.value.endTimes.value;
    wordTimings := [];
    var charIndex := 0;
    for k := 0 to |tokens|
      invariant charIndex == ResumeAt(chars, tokens, k)
      invariant wordTimings == TimingsBefore(chars, startTimes, endTimes, tokens, k)
    {
      var token := tokens[k];
      var wordLength := |token.word|;
      while charIndex < |chars| && !IsWordChar(chars[charIndex])
        invariant SkipFrom(chars, charIndex) == CursorAt(chars, tokens, k)
        decreases |chars| - charIndex
      {
        charIndex := charIndex + 1;
      }
      assert charIndex == CursorAt(chars, tokens, k);
      var wordStartTime := 0;
      var wordEndTime := 0;
      if charIndex < |startTimes| {
        wordStartTime := startTimes[charIndex] * 1000;
      }
      var wordEndCharIndex := charIndex + wordLength - 1;
      if wordEndCharIndex < |endTimes| {
        wordEndTime := endTimes[wordEndCharIndex] * 1000;
      }
      assert WordTiming(token.word, wordStartTime, wordEndTime, token.wordIndex, token.lineIndex)
             == TimingOf(chars, startTimes, endTimes, tokens, k);
      wordTimings := wordTimings + [WordTiming(token.word, wordStartTime, wordEndTime, token.wordIndex, token.lineIndex)];
      charIndex := charIndex + wordLength;
    }
  }

  /** Without timing data, tokens, characters or either time array there are no timings. */
  lemma MapTimingsMissing(timing: Option<CharTiming>, tokens: seq<Token>)
    ensures timing.None? || tokens == [] ==> MapTimingsSpec(timing, tokens) == []
    ensures timing.Some? && (timing.value.characters.None? || timing.value.startTimes.None? || timing.value.endTimes.None?)
            ==> MapTimingsSpec(timing, tokens) == []
  {
  }

  /**
   * One timing per token: the token's word and numbering are copied, the start time is read
   * at the first word character from where the walk resumed, and the end time `|word| - 1`
   * characters later; an index past the end of the times reads as 0.
   */
  lemma MapTimingsMeaning(chars: seq<char>, starts: seq<int>, ends: seq<int>, tokens: seq<Token>, k: nat)
    requires k < |tokens|
    ensures |MapTimingsSpec(Some(CharTiming(Some(chars), Some(starts), Some(ends))), tokens)| == |tokens|
    ensures MapTimingsSpec(Some(CharTiming(Some(chars), Some(starts), Some(ends))), tokens)[k]
            == WordTiming(tokens[k].word, Millis(starts, CursorAt(chars, tokens, k)),
                          Millis(ends, CursorAt(chars, tokens, k) + |tokens[k].word| - 1), tokens[k].wordIndex, tokens[k].lineIndex)
    ensures CursorAt(chars, tokens, k) < |chars| ==> IsWordChar(chars[CursorAt(chars, tokens, k)])
    ensures ResumeAt(chars, tokens, k) < CursorAt(chars, tokens, k) ==> CursorAt(chars, tokens, k) <= |chars|
    ensures forall i :: ResumeAt(chars, tokens, k) <= i < CursorAt(chars, tokens, k) ==> !IsWordChar(chars[i])
    ensures CursorAt(chars, tokens, k) >= |starts| ==> MapTimingsSpec(Some(CharTiming(Some(chars), Some(starts), Some(ends))), tokens)[k].startTime == 0
  {
    MapTimingsAt(chars, starts, ends, tokens, k);
    CursorSkips(chars, tokens, k);
  }

  /** Token `k`'s timing in the specification is the one the walk gives it. */
  lemma MapTimingsAt(chars: seq<char>, starts: seq<int>, ends: seq<int>, tokens: seq<Token>, k: nat)
    requires k < |tokens|
    ensures |MapTimingsSpec(Some(CharTiming(Some(chars), Some(starts), Some(ends))), tokens)| == |tokens|
    ensures MapTimingsSpec(Some(CharTiming(Some(chars), Some(starts), Some(ends))), tokens)[k] == TimingOf(chars, starts, ends, tokens, k)
  {
    var t := MapTimingsSpec(Some(CharTiming(Some(chars), Some(starts), Some(ends))), tokens);
    assert t == TimingsBefore(chars, starts, ends, tokens, |tokens|);
  }

  /** The cursor rests on a word character (or the end), past non-word characters only. */
  lemma CursorSkips(chars: seq<char>, tokens: seq<Token>, k: nat)
    requires k < |tokens|
    ensures CursorAt(chars, tokens, k) < |chars| ==> IsWordChar(chars[CursorAt(chars, tokens, k)])
    ensures ResumeAt(chars, tokens, k) < CursorAt(chars, tokens, k) ==> CursorAt(chars, tokens, k) <= |chars|
    ensures forall i :: ResumeAt(chars, tokens, k) <= i < CursorAt(chars, tokens, k) ==> !IsWordChar(chars[i])
  {
    var r := ResumeAt(chars, tokens, k);
    var c := SkipFrom(chars, r);
    assert CursorAt(chars, tokens, k) == c;
    assert c < |chars| ==> IsWordChar(chars[c]);
    if r < c {
      SkipFromSkips(chars, r, c - 1);
    }
    forall i | r <= i < c ensures !IsWordChar(chars[i]) {
      SkipFromSkips(chars, r, i);
    }
  }

  /** The walk never goes back: each token is read after the characters of the one before. */
  lemma CursorAdvances(chars: seq<char>, tokens: seq<Token>, k: nat)
    requires k + 1 < |tokens|
    ensures CursorAt(chars, tokens, k) + |tokens[k].word| <= CursorAt(chars, tokens, k + 1)
  {
  }

  // ---------------------------------------------------------------------------------------
  // Timings of a line read back against its own characters

  /** The word runs of a line, as the corrected tokenizer finds them. */
  function WordSpans(line: string): seq<Span> {
    RunsFrom(line, 0, IsAlnum, IsWordChar)
  }

  /** Every stretch of word characters begins with a letter or digit. */
  predicate RunsStartAlnum(text: string) {
    StretchesStartWith(text, IsAlnum, IsWordChar)
  }

  /** A one-line text holds the words of its single line, all on line 0. */
  lemma SingleLineTokens(text: string, cont: char -> bool)
    requires NoNewline(text)
    ensures TokenizeWith(text, cont) == Numbered(LineWords(text, cont), 0, 0)
  {
    SplitByNone(text, IsNewline);
    assert TokensBefore([text], 0, cont) == [];
  }

  /** Within the characters, the walk's skip finds the first word character. */
  lemma {:induction false} SkipIsFirstFrom(text: string, p: nat)
    requires p <= |text|
    ensures SkipFrom(text, p) == FirstFrom(text, p, IsWordChar)
    decreases |text| - p
  {
    if p < |text| && !IsWordChar(text[p]) {
      SkipIsFirstFrom(text, p + 1);
    }
  }

  /** From the start or a boundary, skipping to a word character finds the next letter or digit. */
  lemma SkipFindsRunStart(text: string, p: nat)
    requires RunsStartAlnum(text) && p <= |text|
    requires p == 0 || p == |text| || !IsWordChar(text[p])
    ensures SkipFrom(text, p) == FirstFrom(text, p, IsAlnum)
  {
    SkipIsFirstFrom(text, p);
    FirstFromStretch(text, p, IsAlnum, IsWordChar);
  }

  /**
   * For a one-line text whose word stretches start with a letter or digit, the walk over the
   * text's own characters puts token `k` exactly where the tokenizer found it.
   */
  lemma {:induction false} CursorFollowsRuns(text: string, tokens: seq<Token>, k: nat)
    requires RunsStartAlnum(text)
    requires |tokens| == |WordSpans(text)|
    requires forall j :: 0 <= j < |tokens| ==> tokens[j].word == text[WordSpans(text)[j].start..WordSpans(text)[j].end]
    requires k < |tokens|
    ensures CursorAt(text, tokens, k) == WordSpans(text)[k].start
    ensures ResumeAt(text, tokens, k + 1) == WordSpans(text)[k].end
    decreases k
  {
    var spans := WordSpans(text);
    RunsFromIndex(text, 0, IsAlnum, IsWordChar, k);
    assert tokens[k].word == text[spans[k].start..spans[k].end];
    if k == 0 {
      CursorStep(text, tokens, k, 0, spans[k]);
    } else {
      CursorFollowsRuns(text, tokens, k - 1);
      var e := spans[k - 1].end;
      assert IsRun(text, spans[k - 1], IsAlnum, IsWordChar);
      assert e == |text| || !IsWordChar(text[e]);
      CursorStep(text, tokens, k, e, spans[k]);
    }
  }

  /** The walk resuming at a boundary `p` lands on the run the tokenizer finds from `p`, and resumes after it. */
  lemma CursorStep(text: string, tokens: seq<Token>, k: nat, p: nat, sp: Span)
    requires RunsStartAlnum(text) && k < |tokens| && p <= |text|
    requires p == 0 || p == |text| || !IsWordChar(text[p])
    requires ResumeAt(text, tokens, k) == p
    requires NextRun(text, p, IsAlnum, IsWordChar) == Some(sp)
    requires tokens[k].word == text[sp.start..sp.end]
    ensures CursorAt(text, tokens, k) == sp.start
    ensures ResumeAt(text, tokens, k + 1) == sp.end
  {
    assert FirstFrom(text, p, IsAlnum) == sp.start;
    SkipFindsRunStart(text, p);
    assert CursorAt(text, tokens, k) == SkipFrom(text, p);
    assert |tokens[k].word| == sp.end - sp.start;
    assert ResumeAt(text, tokens, k + 1) == SkipFrom(text, p) + |tokens[k].word|;
  }

  /** The corrected tokenizer on a one-line text: one token per word run, numbered in order, on line 0. */
  lemma TokenizeSingleLine(text: string)
    requires NoNewline(text)
    ensures |Tokenize(text)| == |WordSpans(text)|
    ensures forall j :: 0 <= j < |Tokenize(text)| ==>
              Tokenize(text)[j] == Token(text[WordSpans(text)[j].start..WordSpans(text)[j].end], j, 0)
  {
    SingleLineTokens(text, IsWordChar);
  }

  /** Token `k` gets the times of the characters at its own run when the walk follows the runs. */
  lemma TimingsFollowRuns(text: string, starts: seq<int>, ends: seq<int>, tokens: seq<Token>, k: nat)
    requires RunsStartAlnum(text)
    requires |tokens| == |WordSpans(text)|
    requires forall j :: 0 <= j < |tokens| ==> tokens[j].word == text[WordSpans(text)[j].start..WordSpans(text)[j].end]
    requires k < |tokens|
    ensures MapTimingsSpec(Some(CharTiming(Some(text), Some(starts), Some(ends))), tokens)[k]
            == WordTiming(tokens[k].word, Millis(starts, WordSpans(text)[k].start), Millis(ends, WordSpans(text)[k].end - 1),
                          tokens[k].wordIndex, tokens[k].lineIndex)
  {
    var spans := WordSpans(text);
    var sp := spans[k];
    assert tokens[k].word == text[sp.start..sp.end];
    CursorFollowsRuns(text, tokens, k);
    MapTimingsMeaning(text, starts, ends, tokens, k);
  }

  /**
   * With the corrected tokenizer, reading a one-line text's timings against its own characters
   * gives every token the start time of its first character and the end time of its last.
   */
  lemma TimingsFollowText(text: string, starts: seq<int>, ends: seq<int>, k: nat)
    requires NoNewline(text) && RunsStartAlnum(text)
    requires k < |Tokenize(text)|
    ensures |Tokenize(text)| == |WordSpans(text)|
    ensures Tokenize(text)[k].word == text[WordSpans(text)[k].start..WordSpans(text)[k].end]
    ensures MapTimingsSpec(Some(CharTiming(Some(text), Some(starts), Some(ends))), Tokenize(text))[k]
            == WordTiming(Tokenize(text)[k].word, Millis(starts, WordSpans(text)[k].start), Millis(ends, WordSpans(text)[k].end - 1), k, 0)
  {
    TokenizeSingleLine(text);
    TimingsFollowRuns(text, starts, ends, Tokenize(text), k);
  }

  // ---------------------------------------------------------------------------------------
  // The curly apostrophe: the tokenizer and the timing walk disagree about `’`

  /** `t` is spelled like "don’t stop", character by character. */
  predicate SpelledDontStop(t: string) {
    |t| == 10 && t[0] == 'd' && t[1] == 'o' && t[2] == 'n' && t[3] == '\U{2019}' && t[4] == 't'
    && t[5] == ' ' && t[6] == 's' && t[7] == 't' && t[8] == 'o' && t[9] == 'p'
  }

  /** As written, the tokenizer finds "don", "t" and "stop" in "don’t stop". */
  lemma RunsAsWrittenOfDontStop(t: string)
    requires SpelledDontStop(t)
    ensures RunsFrom(t, 0, IsAlnum, IsTokenCharAsWritten) == [Span(0, 3), Span(4, 5), Span(6, 10)]
  {
    RunsFromClose(t, 6, 10, IsAlnum, IsTokenCharAsWritten);
    RunsFromSkip(t, 5, IsAlnum, IsTokenCharAsWritten);
    RunsFromClose(t, 4, 5, IsAlnum, IsTokenCharAsWritten);
    RunsFromSkip(t, 3, IsAlnum, IsTokenCharAsWritten);
    RunsFromClose(t, 0, 3, IsAlnum, IsTokenCharAsWritten);
  }

  /** The corrected tokenizer finds "don’t" and "stop". */
  lemma RunsOfDontStop(t: string)
    requires SpelledDontStop(t)
    ensures WordSpans(t) == [Span(0, 5), Span(6, 10)]
  {
    RunsFromClose(t, 6, 10, IsAlnum, IsWordChar);
    RunsFromSkip(t, 5, IsAlnum, IsWordChar);
    RunsFromClose(t, 0, 5, IsAlnum, IsWordChar);
  }

  /** The three tokens the tokenizer as written makes of "don’t stop". */
  lemma TokensAsWrittenOfDontStop(t: string)
    requires SpelledDontStop(t)
    ensures |TokenizeAsWritten(t)| == 3
    ensures |TokenizeAsWritten(t)[0].word| == 3 && |TokenizeAsWritten(t)[1].word| == 1
    ensures TokenizeAsWritten(t)[2] == Token(t[6..10], 2, 0)
  {
    assert NoNewline(t);
    SingleLineTokens(t, IsTokenCharAsWritten);
    RunsAsWrittenOfDontStop(t);
    var words := LineWords(t, IsTokenCharAsWritten);
    assert |words| == 3;
    assert words[0] == t[0..3] && words[1] == t[4..5] && words[2] == t[6..10];
  }

  /**
   * As written, the tokenizer ends a word at `’`, so "don’t stop" gives three tokens, while the
   * walk counts `’` as part of a word and falls behind by one character per split: "stop", whose
   * characters are at indices 6 to 9, is given the times at indices 4 and 7.
   */
  lemma WalkAsWrittenOfDontStop(t: string, starts: seq<int>, ends: seq<int>)
    requires SpelledDontStop(t)
    ensures |TokenizeAsWritten(t)| == 3
    ensures MapTimingsSpec(Some(CharTiming(Some(t), Some(starts), Some(ends))), TokenizeAsWritten(t))[2]
            == WordTiming(t[6..10], Millis(starts, 4), Millis(ends, 7), 2, 0)
  {
    TokensAsWrittenOfDontStop(t);
    var tokens := TokenizeAsWritten(t);
    MapTimingsAt(t, starts, ends, tokens, 2);
    assert SkipFrom(t, 0) == 0;
    assert ResumeAt(t, tokens, 1) == 3;
    assert SkipFrom(t, 3) == 3;
    assert ResumeAt(t, tokens, 2) == 4;
    assert SkipFrom(t, 4) == 4;
  }

  /** Every stretch of word characters in "don’t stop" starts with a letter. */
  lemma RunsStartAlnumOfDontStop(t: string)
    requires SpelledDontStop(t)
    ensures RunsStartAlnum(t)
  {
    forall i: nat | i < |t| && StretchStart(t, IsWordChar, i) ensures IsAlnum(t[i]) {
      assert i != 3 && i != 4 && i != 5;
    }
  }

  /**
   * With the corrected tokenizer "don’t" is one word, and "stop" gets the times of its own
   * characters: those at index 6 and index 9.
   */
  lemma WalkOfDontStop(t: string, starts: seq<int>, ends: seq<int>)
    requires SpelledDontStop(t)
    ensures |Tokenize(t)| == 2
    ensures Tokenize(t)[1].word == t[6..10]
    ensures MapTimingsSpec(Some(CharTiming(Some(t), Some(starts), Some(ends))), Tokenize(t))[1]
            == WordTiming(t[6..10], Millis(starts, 6), Millis(ends, 9), 1, 0)
  {
    assert NoNewline(t);
    RunsOfDontStop(t);
    RunsStartAlnumOfDontStop(t);
    TokenizeSingleLine(t);
    TimingsFollowText(t, starts, ends, 1);
  }
}
