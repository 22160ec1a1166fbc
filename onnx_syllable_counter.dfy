/**
 * The hybrid syllable counter: a pronouncing-dictionary lookup with a learned predictor as
 * fallback, a word extractor that knows whether the last word is still being typed, per-line
 * counting against a poem pattern, and the validator that judges a poem and picks its feedback.
 *
 * The dictionary is a `map<string, int>` argument. The predictor is an argument too: a function
 * from the one-hot input grid to the rounded model output, or to the failure it raised.
 */
module OnnxCounter {
  import opened Wrappers
  import opened Text
  import opened Verdict

  // ---------------------------------------------------------------- cleaning and encoding

  /** The characters a cleaned word keeps, `[a-z'-]`. */
  predicate IsWordLetter(c: char) {
    IsAsciiLower(c) || c == '\'' || c == '-'
  }

  /** `word.toLowerCase().replace(/[^a-z'-]/g, '')`. */
  function CleanWord(word: string): (r: string)
    ensures forall i :: 0 <= i < |r| ==> IsWordLetter(r[i])
  {
    Filter(LowerAll(word), IsWordLetter)
  }

  lemma {:induction false} FilterKeepsAll(s: string, p: char -> bool)
    requires forall i :: 0 <= i < |s| ==> p(s[i])
    ensures Filter(s, p) == s
  {
    if s != [] {
      FilterKeepsAll(s[1..], p);
    }
  }

  /** Cleaning is idempotent, so the predictor sees the same grid for a word and its cleaned form. */
  lemma CleanWordIdempotent(word: string)
    ensures CleanWord(CleanWord(word)) == CleanWord(word)
  {
    var c := CleanWord(word);
    assert LowerAll(c) == c;
    FilterKeepsAll(c, IsWordLetter);
  }

  /** The input geometry the model's metadata gives. */
  datatype Encoding = Encoding(maxWordLength: nat, alphabet: seq<char>, alphabetSize: nat)

  /** `alphabet.indexOf(c)`: the first position of `c`, or -1. */
  function IndexOf(alphabet: seq<char>, c: char): (r: int)
    ensures -1 <= r < |alphabet|
    ensures r >= 0 ==> alphabet[r] == c && forall j :: 0 <= j < r ==> alphabet[j] != c
    ensures r == -1 <==> c !in alphabet
  {
    if alphabet == [] then -1
    else if alphabet[0] == c then 0
    else
      var r := IndexOf(alphabet[1..], c);
      if r == -1 then -1 else r + 1
  }

  function Min(a: int, b: int): int { if a < b then a else b }

  /** Character `i` of `w` sets grid cell `k`: it is encoded, in the alphabet, and lands on `k`. */
  predicate HitAt(w: string, e: Encoding, i: int, k: int) {
    0 <= i < Min(|w|, e.maxWordLength) &&
    IndexOf(e.alphabet, w[i]) != -1 &&
    i * e.alphabetSize + IndexOf(e.alphabet, w[i]) == k
  }

  /** Some character before position `n` sets cell `k`. */
  predicate HitBefore(w: string, e: Encoding, n: int, k: int) {
    exists i :: 0 <= i < n && HitAt(w, e, i, k)
  }

  function GridSize(e: Encoding): nat { e.maxWordLength * e.alphabetSize }

  /**
   * The buffer after writing the first `n` characters of `w` into a zeroed grid: each encoded
   * character sets its cell to 1, and a write past the end of the grid is dropped.
   */
  function GridAfter(w: string, e: Encoding, n: nat): (r: seq<int>)
    requires n <= Min(|w|, e.maxWordLength)
    ensures |r| == GridSize(e)
  {
    if n == 0 then seq(GridSize(e), _ => 0)
    else
      var t := GridAfter(w, e, n - 1);
      var charIndex := IndexOf(e.alphabet, w[n - 1]);
      MulLe(0, n - 1, e.alphabetSize);
      if charIndex != -1 && (n - 1) * e.alphabetSize + charIndex < GridSize(e) then t[(n - 1) * e.alphabetSize + charIndex := 1]
      else t
  }

  /** The tensor `preprocessWord` builds. */
  function OneHot(w: string, e: Encoding): seq<int> {
    GridAfter(w, e, Min(|w|, e.maxWordLength))
  }

  /** Writing character `i` sets its cell when it is encoded and the cell is inside the grid. */
  lemma GridAfterStep(w: string, e: Encoding, i: nat, c: int)
    requires i < Min(|w|, e.maxWordLength) && c == IndexOf(e.alphabet, w[i])
    ensures i * e.alphabetSize >= 0
    ensures GridAfter(w, e, i + 1)
            == if c != -1 && i * e.alphabetSize + c < GridSize(e) then GridAfter(w, e, i)[i * e.alphabetSize + c := 1] else GridAfter(w, e, i)
  {
    MulLe(0, i, e.alphabetSize);
    assert i + 1 - 1 == i;
  }

  /** Cell `k` of the buffer is 1 exactly when one of the characters written sets it, and 0 otherwise. */
  lemma {:induction false} GridAfterCells(w: string, e: Encoding, n: nat, k: nat)
    requires n <= Min(|w|, e.maxWordLength) && k < GridSize(e)
    ensures GridAfter(w, e, n)[k] == if HitBefore(w, e, n, k) then 1 else 0
  {
    if n > 0 {
      GridAfterCells(w, e, n - 1, k);
      HitNext(w, e, n - 1, k, IndexOf(e.alphabet, w[n - 1]));
    }
  }

  function Encode(word: string, e: Encoding): seq<int> {
    OneHot(CleanWord(word), e)
  }

  lemma MulLe(a: nat, b: nat, c: nat)
    requires a <= b
    ensures a * c <= b * c
  {
    assert b * c == a * c + (b - a) * c;
  }

  /** Distinct characters' cells never collide when positions stay below the row size. */
  lemma RowStart(i: nat, j: nat, i': nat, j': nat, size: nat)
    requires j < size && j' < size
    requires i * size + j == i' * size + j'
    ensures i == i' && j == j'
  {
    if i < i' {
      MulLe(i + 1, i', size);
    } else if i' < i {
      MulLe(i' + 1, i, size);
    }
  }

  /**
   * With an alphabet that fits its declared size, the grid of a cleaned word `w` (`Encode` passes
   * `CleanWord(word)`) has one row per encoded character:
   * row `i` holds a single 1 at the character's alphabet position when it has one, and every
   * other cell, including every row past the word or past the maximum length, is 0.
   */
  lemma OneHotRows(w: string, e: Encoding, i: nat, j: nat)
    requires |e.alphabet| <= e.alphabetSize
    requires i < e.maxWordLength && j < e.alphabetSize
    ensures |OneHot(w, e)| == e.maxWordLength * e.alphabetSize
    ensures i * e.alphabetSize + j < |OneHot(w, e)|
    ensures OneHot(w, e)[i * e.alphabetSize + j] ==
              if i < |w| && IndexOf(e.alphabet, w[i]) == j then 1 else 0
  {
    CellBound(i, j, e.maxWordLength, e.alphabetSize);
    GridAfterCells(w, e, Min(|w|, e.maxWordLength), i * e.alphabetSize + j);
    HitCell(w, e, i, j);
  }

  /** Cell `(i, j)` is set exactly when character `i` is encoded and sits at position `j` of the alphabet. */
  lemma HitCell(w: string, e: Encoding, i: nat, j: nat)
    requires |e.alphabet| <= e.alphabetSize
    requires i < e.maxWordLength && j < e.alphabetSize
    ensures HitBefore(w, e, Min(|w|, e.maxWordLength), i * e.alphabetSize + j) <==> i < |w| && IndexOf(e.alphabet, w[i]) == j
  {
    var k := i * e.alphabetSize + j;
    var limit := Min(|w|, e.maxWordLength);
    if i < |w| && IndexOf(e.alphabet, w[i]) == j {
      assert HitAt(w, e, i, k);
    } else {
      forall i' | 0 <= i' < limit ensures !HitAt(w, e, i', k) {
        if HitAt(w, e, i', k) {
          RowStart(i, j, i', IndexOf(e.alphabet, w[i']), e.alphabetSize);
        }
      }
    }
  }

  lemma CellBound(i: nat, j: nat, rows: nat, size: nat)
    requires i < rows && j < size
    ensures i * size + j < rows * size
  {
    MulLe(i + 1, rows, size);
  }

  /** A character sets a cell before position `i + 1` when one did before `i`, or character `i` does. */
  lemma HitBeforeStep(w: string, e: Encoding, i: nat, k: int)
    ensures HitBefore(w, e, i + 1, k) <==> HitBefore(w, e, i, k) || HitAt(w, e, i, k)
  {
    if HitBefore(w, e, i + 1, k) {
      var i' :| 0 <= i' < i + 1 && HitAt(w, e, i', k);
      if i' < i { assert HitBefore(w, e, i, k); }
    }
    if HitBefore(w, e, i, k) {
      var i' :| 0 <= i' < i && HitAt(w, e, i', k);
      assert 0 <= i' < i + 1;
    }
  }

  /** `preprocessWord`: fill a zeroed buffer, then set one cell per encoded character. */
  method PreprocessWord(word: string, e: Encoding) returns (tensor: array<int>)
    ensures tensor.Length == GridSize(e)
    ensures tensor[..] == Encode(word, e)
  {
    var clean := CleanWord(word);
    var n := e.maxWordLength * e.alphabetSize;
    tensor := new int[n];
    for i := 0 to n
      invariant forall k :: 0 <= k < i ==> tensor[k] == 0
    {
      tensor[i] := 0;
    }
    assert tensor[..] == GridAfter(clean, e, 0);
    EncodeCharacters(clean, e, tensor);
  }

  /** The second loop of `preprocessWord`: one write per character of the cleaned word, up to the maximum length. */
  method EncodeCharacters(clean: string, e: Encoding, tensor: array<int>)
    modifies tensor
    requires tensor.Length == GridSize(e) && tensor[..] == GridAfter(clean, e, 0)
    ensures tensor[..] == OneHot(clean, e)
  {
    var n := tensor.Length;
    for i := 0 to Min(|clean|, e.maxWordLength)
      invariant tensor[..] == GridAfter(clean, e, i)
    {
      var charIndex := IndexOf(e.alphabet, clean[i]);
      GridAfterStep(clean, e, i, charIndex);
      ghost var before := tensor[..];
      if charIndex != -1 {
        var tensorIndex := i * e.alphabetSize + charIndex;
        // a typed array ignores a write past its end
        if tensorIndex < n {
          tensor[tensorIndex] := 1;
          assert tensor[..] == before[tensorIndex := 1];
        }
      }
    }
  }

  /** Position `i` of the cleaned word sets exactly the cell of its row and alphabet position. */
  lemma HitNext(w: string, e: Encoding, i: nat, k: int, charIndex: int)
    requires i < Min(|w|, e.maxWordLength) && charIndex == IndexOf(e.alphabet, w[i])
    ensures HitBefore(w, e, i + 1, k) <==> HitBefore(w, e, i, k) || (charIndex != -1 && k == i * e.alphabetSize + charIndex)
  {
    HitBeforeStep(w, e, i, k);
    assert HitAt(w, e, i, k) <==> charIndex != -1 && k == i * e.alphabetSize + charIndex;
  }

  // ---------------------------------------------------------------- the predictor

  /** What one model run gives: the rounded scalar output, or the message of the error raised. */
  datatype Inference = Rounded(value: int) | Failed(cause: string)

  /**
   * The pretrained model with its metadata. `infer` stands for initializing the shared session
   * when needed, running it on the grid and rounding the output; a failure to load gives
   * `Failed("ML model initialization failed")`, a missing output `Failed("ONNX model output not found")`.
   */
  datatype Predictor = Predictor(encoding: Encoding, infer: seq<int> -> Inference)

  function InferenceFailure(word: string, cause: string): string {
    "ML syllable counting failed for word \"" + word + "\": " + cause
  }

  /** `mlSyllableCount`: 0 for an empty word, else the rounded output clamped to at least 1. */
  function MlSyllableCount(word: string, p: Predictor): Result<int> {
    if word == [] then Ok(0)
    else match p.infer(Encode(word, p.encoding))
      case Rounded(n) => Ok(if n < 1 then 1 else n)
      case Failed(cause) => Err(InferenceFailure(word, cause))
  }

  /**
   * The empty word costs nothing; any other word fails exactly when inference fails, with the word
   * in the message, and otherwise counts max(1, rounded output), never less than one syllable.
   */
  lemma MlSyllableCountClamps(word: string, p: Predictor)
    ensures word == [] ==> MlSyllableCount(word, p) == Ok(0)
    ensures word != [] ==> (MlSyllableCount(word, p).Ok? <==> p.infer(Encode(word, p.encoding)).Rounded?)
    ensures word != [] && MlSyllableCount(word, p).Ok? ==>
              MlSyllableCount(word, p).value >= 1 &&
              MlSyllableCount(word, p).value >= p.infer(Encode(word, p.encoding)).value &&
              (MlSyllableCount(word, p).value == 1 || MlSyllableCount(word, p).value == p.infer(Encode(word, p.encoding)).value)
    ensures word != [] && MlSyllableCount(word, p).Err? ==>
              MlSyllableCount(word, p).message == InferenceFailure(word, p.infer(Encode(word, p.encoding)).cause)
  {
  }

  /** The model sees only the cleaned word: two words that clean alike get the same count. */
  lemma MlSyllableCountSeesCleanWord(a: string, b: string, p: Predictor)
    requires CleanWord(a) == CleanWord(b) && a != [] && b != []
    ensures MlSyllableCount(a, p).Ok? <==> MlSyllableCount(b, p).Ok?
    ensures MlSyllableCount(a, p).Ok? ==> MlSyllableCount(a, p) == MlSyllableCount(b, p)
  {
  }

  /**
   * The module's session flags. A caller that finds a load in flight waits for it to end and then
   * returns without error, whatever that load's outcome; the wait itself is not modelled, so that
   * call leaves the flags as they are.
   */
  class ModelSession {
    var isModelLoaded: bool
    var isModelLoading: bool

    constructor ()
      ensures !isModelLoaded && !isModelLoading
    {
      isModelLoaded := false;
      isModelLoading := false;
    }

    /** `initializeModel`; `created` says whether creating the inference session succeeds. */
    method InitializeModel(created: bool) returns (r: Result<()>)
      modifies this
      ensures old(isModelLoaded) || old(isModelLoading) ==>
                r == Ok(()) && isModelLoaded == old(isModelLoaded) && isModelLoading == old(isModelLoading)
      ensures !old(isModelLoaded) && !old(isModelLoading) ==>
                !isModelLoading && isModelLoaded == created &&
                r == if created then Ok(()) else Err("ML model initialization failed")
    {
      if isModelLoaded {
        return Ok(());
      }
      if isModelLoading {
        return Ok(());
      }
      isModelLoading := true;
      if created {
        isModelLoaded := true;
        r := Ok(());
      } else {
        r := Err("ML model initialization failed");
      }
      isModelLoading := false;
    }

    /** `initializeSyllableCounter`: whether initializing threw, as a boolean. */
    method InitializeSyllableCounter(created: bool) returns (ok: bool)
      modifies this
      ensures ok == (old(isModelLoaded) || old(isModelLoading) || created)
      ensures !old(isModelLoading) ==> !isModelLoading && isModelLoaded == (old(isModelLoaded) || created)
    {
      var r := InitializeModel(created);
      ok := r.Ok?;
    }
  }

  // ---------------------------------------------------------------- word extraction

  datatype WordToken = WordToken(word: string, isComplete: bool)

  /**
   * `/[\s\p{P}]$/.test(text)` as written. The regular expression has no `u` flag, so `\p` is the
   * letter `p` and the class holds white space and the four literal characters `p`, `{`, `P`, `}`.
   */
  predicate EndsCompleteAsWritten(text: string) {
    |text| > 0 && (IsSpace(text[|text| - 1]) || text[|text| - 1] in "p{P}")
  }

  /**
   * Punctuation, Unicode category P: its ASCII and Latin-1 members and the General Punctuation
   * ranges U+2010-U+2027 and U+2030-U+2043.
   */
  predicate IsPunctuation(c: char) {
    c in "!\"#%&'()*,-./:;?@[\\]_{}" || c in "\U{00A1}\U{00A7}\U{00AB}\U{00B6}\U{00B7}\U{00BB}\U{00BF}"
    || ('\U{2010}' <= c <= '\U{2027}') || ('\U{2030}' <= c <= '\U{2043}')
  }

  /** What the check evidently means: the text ends in white space or punctuation. */
  predicate EndsComplete(text: string) {
    |text| > 0 && (IsSpace(text[|text| - 1]) || IsPunctuation(text[|text| - 1]))
  }

  /**
   * The regular expression as written treats a final period as part of an unfinished word and a
   * final `p` as a word boundary; the intended test does the opposite on both.
   */
  lemma EndsCompleteFinding()
    ensures !EndsCompleteAsWritten("cat.") && EndsComplete("cat.")
    ensures EndsCompleteAsWritten("stop") && !EndsComplete("stop")
  {
    assert "cat."[3] == '.';
    assert "stop"[3] == 'p';
  }

  /** `text.toLowerCase().replace(/[^a-z\s'-]/g, ' ')`. */
  function CleanedText(text: string): (r: string)
    ensures |r| == |text|
  {
    seq(|text|, i requires 0 <= i < |text| =>
      if IsWordLetter(Lower(text[i])) || IsSpace(Lower(text[i])) then Lower(text[i]) else ' ')
  }

  predicate NotSpace(c: char) { !IsSpace(c) }

  /** `cleanedText.split(/\s+/).filter(word => word.trim().length > 0)`. */
  function SplitWords(text: string): seq<string> {
    NonBlankPieces(SplitBy(CleanedText(text), IsSpace))
  }

  /** The words of `text`, the last one marked complete when `endsComplete` says so. */
  function MarkWords(text: string, endsComplete: bool): seq<WordToken> {
    if IsBlank(text) then []
    else
      var words := SplitWords(text);
      if words == [] then []
      else if endsComplete then seq(|words|, i requires 0 <= i < |words| => WordToken(words[i], true))
      else seq(|words|, i requires 0 <= i < |words| => WordToken(words[i], i < |words| - 1))
  }

  /** `extractWordsWithBoundaries`, with the end-of-text test as the source writes it; every counter uses this one. */
  function ExtractWords(text: string): seq<WordToken> {
    MarkWords(text, EndsCompleteAsWritten(text))
  }

  /** `extractWordsWithBoundaries` with the end-of-text test its comment describes (white space or punctuation). */
  function ExtractWordsIntended(text: string): seq<WordToken> {
    MarkWords(text, EndsComplete(text))
  }

  /**
   * For text ending in a period, the source leaves its last word incomplete, so that word is sent
   * to the predictor even when the dictionary knows it; the intended test marks it complete.
   */
  lemma FinalPeriodFinding(text: string)
    requires !IsBlank(text) && SplitWords(text) != [] && text[|text| - 1] == '.'
    ensures var w := ExtractWords(text); w != [] && !w[|w| - 1].isComplete
    ensures var w := ExtractWordsIntended(text); w != [] && w[|w| - 1].isComplete
  {
  }

  lemma {:induction false} NonBlankPiecesProperties(pieces: seq<string>)
    requires forall k, i :: 0 <= k < |pieces| && 0 <= i < |pieces[k]| ==> !IsSpace(pieces[k][i])
    ensures forall k :: 0 <= k < |NonBlankPieces(pieces)| ==> NonBlankPieces(pieces)[k] != []
    ensures forall k, i :: 0 <= k < |NonBlankPieces(pieces)| && 0 <= i < |NonBlankPieces(pieces)[k]| ==>
              !IsSpace(NonBlankPieces(pieces)[k][i])
    ensures Concat(NonBlankPieces(pieces)) == Concat(pieces)
  {
    if pieces != [] {
      NonBlankPiecesProperties(pieces[1..]);
      assert Concat(pieces) == pieces[0] + Concat(pieces[1..]);
      if pieces[0] == [] {
        assert NonBlankPieces(pieces) == NonBlankPieces(pieces[1..]);
      } else {
        assert !IsSpace(pieces[0][0]);
        assert NonBlankPieces(pieces) == [pieces[0]] + NonBlankPieces(pieces[1..]);
        assert ([pieces[0]] + NonBlankPieces(pieces[1..]))[1..] == NonBlankPieces(pieces[1..]);
      }
    }
  }

  /** The non-space characters of the cleaned text are the text's cleaned letters, in order. */
  lemma {:induction false} CleanedTextLetters(text: string)
    ensures Filter(CleanedText(text), NotSpace) == CleanWord(text)
  {
    if text != [] {
      CleanedTextLetters(text[1..]);
      assert CleanedText(text) == [CleanedText(text)[0]] + CleanedText(text[1..]);
      assert LowerAll(text) == [Lower(text[0])] + LowerAll(text[1..]);
    }
  }

  /**
   * The extracted words are non-empty runs of `[a-z'-]` whose concatenation is the cleaned text:
   * digits, punctuation and other characters only separate words.
   */
  lemma SplitWordsProperties(text: string)
    ensures forall k :: 0 <= k < |SplitWords(text)| ==> SplitWords(text)[k] != []
    ensures forall k, i :: 0 <= k < |SplitWords(text)| && 0 <= i < |SplitWords(text)[k]| ==>
              IsWordLetter(SplitWords(text)[k][i])
    ensures Concat(SplitWords(text)) == CleanWord(text)
  {
    var cleaned := CleanedText(text);
    var pieces := SplitBy(cleaned, IsSpace);
    SplitByNoSeparator(cleaned, IsSpace);
    NonBlankPiecesProperties(pieces);
    SplitByConcat(cleaned, IsSpace, NotSpace);
    CleanedTextLetters(text);
    var words := SplitWords(text);
    forall k, i | 0 <= k < |words| && 0 <= i < |words[k]| ensures IsWordLetter(words[k][i]) {
      ConcatMember(words, k, i);
    }
  }

  /** A character of one piece is a character of the concatenation. */
  lemma {:induction false} ConcatMember(parts: seq<string>, k: nat, i: nat)
    requires k < |parts| && i < |parts[k]|
    ensures parts[k][i] in Concat(parts)
  {
    if k > 0 {
      ConcatMember(parts[1..], k - 1, i);
    }
  }

  /** No piece of a split holds a separator. */
  lemma {:induction false} SplitByNoSeparator(s: string, p: char -> bool)
    ensures forall k, i :: 0 <= k < |SplitBy(s, p)| && 0 <= i < |SplitBy(s, p)[k]| ==> !p(SplitBy(s, p)[k][i])
  {
    if s != [] {
      var rest := SplitBy(s[1..], p);
      SplitByNoSeparator(s[1..], p);
      if !p(s[0]) {
        var r := [[s[0]] + rest[0]] + rest[1..];
        forall k, i | 0 <= k < |r| && 0 <= i < |r[k]| ensures !p(r[k][i]) {
          if k == 0 && i > 0 { assert r[0][i] == rest[0][i - 1]; }
          if k > 0 { assert r[k] == rest[k]; }
        }
      }
    }
  }

  function Words(ws: seq<WordToken>): seq<string> {
    seq(|ws|, i requires 0 <= i < |ws| => ws[i].word)
  }

  /**
   * Blank text has no words. Otherwise the words are those of SplitWords, every word before the
   * last is complete, and the last is complete exactly when `endsComplete` says so.
   */
  lemma MarkWordsMeaning(text: string, endsComplete: bool)
    ensures IsBlank(text) ==> MarkWords(text, endsComplete) == []
    ensures !IsBlank(text) ==> Words(MarkWords(text, endsComplete)) == SplitWords(text)
    ensures forall i :: 0 <= i < |MarkWords(text, endsComplete)| - 1 ==> MarkWords(text, endsComplete)[i].isComplete
    ensures MarkWords(text, endsComplete) != [] ==>
              (MarkWords(text, endsComplete)[|MarkWords(text, endsComplete)| - 1].isComplete <==> endsComplete)
  {
  }

  /**
   * The program's extraction: blank text has no words, otherwise the words of SplitWords, every
   * word before the last complete, and the last complete exactly when the text ends in white
   * space or in one of the literal characters `p { P }` — so text ending in `.` leaves its last
   * word incomplete and text ending in `p` marks it complete.
   */
  lemma ExtractWordsCompleteness(text: string)
    ensures IsBlank(text) ==> ExtractWords(text) == []
    ensures !IsBlank(text) ==> Words(ExtractWords(text)) == SplitWords(text)
    ensures forall i :: 0 <= i < |ExtractWords(text)| - 1 ==> ExtractWords(text)[i].isComplete
    ensures ExtractWords(text) != [] ==>
              (ExtractWords(text)[|ExtractWords(text)| - 1].isComplete <==>
                 IsSpace(text[|text| - 1]) || text[|text| - 1] in "p{P}")
  {
    MarkWordsMeaning(text, EndsCompleteAsWritten(text));
  }

  /**
   * The corrected extraction: the same words and inner flags, and the last word complete exactly
   * when the text ends in white space or punctuation.
   */
  lemma ExtractWordsIntendedCompleteness(text: string)
    ensures IsBlank(text) ==> ExtractWordsIntended(text) == []
    ensures !IsBlank(text) ==> Words(ExtractWordsIntended(text)) == SplitWords(text)
    ensures forall i :: 0 <= i < |ExtractWordsIntended(text)| - 1 ==> ExtractWordsIntended(text)[i].isComplete
    ensures ExtractWordsIntended(text) != [] ==>
              (ExtractWordsIntended(text)[|ExtractWordsIntended(text)| - 1].isComplete <==>
                 IsSpace(text[|text| - 1]) || IsPunctuation(text[|text| - 1]))
  {
    MarkWordsMeaning(text, EndsComplete(text));
  }

  // ---------------------------------------------------------------- resolution and totals

  /** `countWordSyllables`: the resolution order for one word. */
  function CountWordSyllables(word: string, isComplete: bool, lexicon: map<string, int>, p: Predictor): Result<int> {
    var clean := CleanWord(word);
    if |clean| == 0 then Ok(0)
    else if isComplete then
      if |clean| == 1 then Ok(1)
      else if clean in lexicon then Ok(lexicon[clean])
      else MlSyllableCount(clean, p)
    else MlSyllableCount(clean, p)
  }

  /**
   * A word that cleans to nothing counts 0; a complete single letter counts 1; a complete
   * dictionary word counts its dictionary value whatever the predictor would say; everything
   * else — every incomplete word, even a dictionary word or a single letter — is predicted.
   */
  lemma ResolutionOrder(word: string, isComplete: bool, lexicon: map<string, int>, p: Predictor, q: Predictor)
    ensures CleanWord(word) == [] ==> CountWordSyllables(word, isComplete, lexicon, p) == Ok(0)
    ensures isComplete && |CleanWord(word)| == 1 ==> CountWordSyllables(word, isComplete, lexicon, p) == Ok(1)
    ensures isComplete && |CleanWord(word)| > 1 && CleanWord(word) in lexicon ==>
              CountWordSyllables(word, isComplete, lexicon, p) == Ok(lexicon[CleanWord(word)])
              && CountWordSyllables(word, isComplete, lexicon, p) == CountWordSyllables(word, isComplete, lexicon, q)
    ensures CleanWord(word) != [] && (!isComplete || (|CleanWord(word)| > 1 && CleanWord(word) !in lexicon)) ==>
              CountWordSyllables(word, isComplete, lexicon, p) == MlSyllableCount(CleanWord(word), p)
  {
  }

  datatype WordCount = WordCount(word: string, syllables: int, isComplete: bool)

  datatype Breakdown = Breakdown(total: int, words: seq<WordCount>)

  function SumSyllables(ws: seq<WordCount>): int {
    if ws == [] then 0 else SumSyllables(ws[..|ws| - 1]) + ws[|ws| - 1].syllables
  }

  /** One word's entry in the breakdown, or the error its count raised. */
  function WordEntry(w: WordToken, lexicon: map<string, int>, p: Predictor): Result<WordCount> {
    match CountWordSyllables(w.word, w.isComplete, lexicon, p)
    case Err(m) => Err(m)
    case Ok(n) => Ok(WordCount(w.word, n, w.isComplete))
  }

  function WordCounter(lexicon: map<string, int>, p: Predictor): WordToken -> Result<WordCount> {
    w => WordEntry(w, lexicon, p)
  }

  /** What `countSyllables` resolves to: a total and the per-word breakdown. */
  function CountSyllablesSpec(text: string, lexicon: map<string, int>, p: Predictor): Result<Breakdown> {
    var ws := ExtractWords(text);
    if ws == [] then Ok(Breakdown(0, []))
    else match Traverse(ws, WordCounter(lexicon, p))
      case Err(m) => Err(m)
      case Ok(counts) => Ok(Breakdown(SumSyllables(counts), counts))
  }

  /**
   * Counting text succeeds exactly when every extracted word resolves. The breakdown then lists
   * the words in order, each with its own count, and the total is their sum; on failure the error
   * is the first failing word's.
   */
  lemma CountSyllablesMeaning(text: string, lexicon: map<string, int>, p: Predictor)
    ensures var ws := ExtractWords(text);
            CountSyllablesSpec(text, lexicon, p).Ok? <==>
              forall i :: 0 <= i < |ws| ==> CountWordSyllables(ws[i].word, ws[i].isComplete, lexicon, p).Ok?
    ensures var ws := ExtractWords(text);
            var r := CountSyllablesSpec(text, lexicon, p);
            r.Ok? ==>
              |r.value.words| == |ws| && r.value.total == SumSyllables(r.value.words) &&
              forall i :: 0 <= i < |ws| ==>
                r.value.words[i] ==
                  WordCount(ws[i].word, CountWordSyllables(ws[i].word, ws[i].isComplete, lexicon, p).value, ws[i].isComplete)
    ensures var ws := ExtractWords(text);
            var r := CountSyllablesSpec(text, lexicon, p);
            r.Err? ==>
              exists j :: 0 <= j < |ws| && CountWordSyllables(ws[j].word, ws[j].isComplete, lexicon, p).Err? &&
                r.message == CountWordSyllables(ws[j].word, ws[j].isComplete, lexicon, p).message
  {
    var ws := ExtractWords(text);
    var f := WordCounter(lexicon, p);
    TraverseMeaning(ws, f);
    forall i | 0 <= i < |ws| ensures f(ws[i]).Ok? <==> CountWordSyllables(ws[i].word, ws[i].isComplete, lexicon, p).Ok? {
    }
  }

  /** `countSyllables`: resolve the words one at a time, adding up the total as it goes. */
  method CountSyllables(text: string, lexicon: map<string, int>, p: Predictor) returns (r: Result<Breakdown>)
    ensures r == CountSyllablesSpec(text, lexicon, p)
  {
    var words := ExtractWords(text);
    if |words| == 0 {
      return Ok(Breakdown(0, []));
    }
    var count := WordCounter(lexicon, p);
    var totalSyllables := 0;
    var wordBreakdown: seq<WordCount> := [];
    var i := 0;
    while i < |words|
      invariant 0 <= i <= |words|
      invariant Traverse(words[..i], count) == Ok(wordBreakdown)
      invariant totalSyllables == SumSyllables(wordBreakdown)
    {
      var w := words[i];
      var syllables := CountWordSyllables(w.word, w.isComplete, lexicon, p);
      if syllables.Err? {
        assert count(w) == Err(syllables.message);
        TraverseStopsAt(words, count, i);
        return Err(syllables.message);
      }
      var entry := WordCount(w.word, syllables.value, w.isComplete);
      assert count(w) == Ok(entry);
      BreakdownStep(words, i, count, wordBreakdown, entry);
      totalSyllables := totalSyllables + syllables.value;
      wordBreakdown := wordBreakdown + [entry];
      i := i + 1;
    }
    assert words[..i] == words;
    r := Ok(Breakdown(totalSyllables, wordBreakdown));
  }

  /** One more resolved word extends the breakdown by its entry and the total by its count. */
  lemma BreakdownStep(words: seq<WordToken>, i: nat, count: WordToken -> Result<WordCount>, done: seq<WordCount>, entry: WordCount)
    requires i < |words| && Traverse(words[..i], count) == Ok(done) && count(words[i]) == Ok(entry)
    ensures Traverse(words[..i + 1], count) == Ok(done + [entry])
    ensures SumSyllables(done + [entry]) == SumSyllables(done) + entry.syllables
  {
    TraverseSnoc(words[..i], words[i], count);
    PrefixSnoc(words, i);
    assert (done + [entry])[..|done|] == done;
  }

  // ---------------------------------------------------------------- lines of a poem

  /** `lines[i] || ''`: a line past the end of the poem reads as the empty string. */
  function LineAt(lines: seq<string>, i: nat): string {
    if i < |lines| then lines[i] else ""
  }

  /** The `n` lines the pattern reads, padded with empty lines when the poem is shorter. */
  function PatternLines(content: string, n: nat): (r: seq<string>)
    ensures |r| == n
  {
    var lines := SplitLines(content);
    seq(n, i requires 0 <= i < n => LineAt(lines, i))
  }

  /** The syllable total of one line, counted after trimming it. */
  function LineTotal(line: string, lexicon: map<string, int>, p: Predictor): Result<int> {
    match CountSyllablesSpec(Trim(line), lexicon, p)
    case Err(m) => Err(m)
    case Ok(b) => Ok(b.total)
  }

  function LineCounter(lexicon: map<string, int>, p: Predictor): string -> Result<int> {
    line => LineTotal(line, lexicon, p)
  }

  /** What `countHaikuSyllables` resolves to. */
  function PoemCountsSpec(content: string, expected: seq<int>, lexicon: map<string, int>, p: Predictor): (r: Result<seq<int>>)
    ensures r.Ok? ==> |r.value| == |expected|
  {
    if IsBlank(content) then Ok(seq(|expected|, _ => 0))
    else Traverse(PatternLines(content, |expected|), LineCounter(lexicon, p))
  }

  /** A blank or absent line counts 0 syllables, whatever the predictor. */
  lemma BlankLineCountsZero(line: string, lexicon: map<string, int>, p: Predictor)
    requires IsBlank(line)
    ensures LineTotal(line, lexicon, p) == Ok(0)
  {
    TrimProperties(line);
  }

  /**
   * There is one count per expected line, and count `i` is the total of line `i` of the poem,
   * trimmed, reading a missing line as empty; lines past the pattern are never read.
   */
  lemma PoemCountsMeaning(content: string, expected: seq<int>, lexicon: map<string, int>, p: Predictor)
    ensures PoemCountsSpec(content, expected, lexicon, p).Ok? ==>
              forall i :: 0 <= i < |expected| ==>
                LineTotal(LineAt(SplitLines(content), i), lexicon, p) ==
                  Ok(PoemCountsSpec(content, expected, lexicon, p).value[i])
  {
    var lines := SplitLines(content);
    if IsBlank(content) {
      forall i | 0 <= i < |expected| ensures LineTotal(LineAt(lines, i), lexicon, p) == Ok(0) {
        BlankLinesOfBlank(content, i);
        BlankLineCountsZero(LineAt(lines, i), lexicon, p);
      }
    } else {
      var f := LineCounter(lexicon, p);
      var padded := PatternLines(content, |expected|);
      TraverseMeaning(padded, f);
      forall i | 0 <= i < |expected| ensures f(padded[i]) == LineTotal(LineAt(lines, i), lexicon, p) {
      }
    }
  }

  /** A blank poem counts 0 on every line, and so does every line the poem does not have. */
  lemma PoemCountsPadding(content: string, expected: seq<int>, lexicon: map<string, int>, p: Predictor)
    ensures IsBlank(content) ==> PoemCountsSpec(content, expected, lexicon, p) == Ok(seq(|expected|, _ => 0))
    ensures PoemCountsSpec(content, expected, lexicon, p).Ok? ==>
              forall i :: |SplitLines(content)| <= i < |expected| ==> PoemCountsSpec(content, expected, lexicon, p).value[i] == 0
  {
    PoemCountsMeaning(content, expected, lexicon, p);
    BlankLineCountsZero("", lexicon, p);
  }

  /** Every line of blank text is blank. */
  lemma BlankLinesOfBlank(content: string, i: nat)
    requires IsBlank(content)
    ensures IsBlank(LineAt(SplitLines(content), i))
  {
    var parts := SplitBy(content, IsNewline);
    SplitByProperties(content, IsNewline, '\n');
    if i < |parts| {
      PieceOfBlankIsBlank(content, IsNewline, i);
    }
  }

  lemma {:induction false} PieceOfBlankIsBlank(s: string, p: char -> bool, k: nat)
    requires IsBlank(s) && k < |SplitBy(s, p)|
    ensures IsBlank(SplitBy(s, p)[k])
  {
    if s != [] {
      var rest := SplitBy(s[1..], p);
      if p(s[0]) {
        if k > 0 { PieceOfBlankIsBlank(s[1..], p, k - 1); }
      } else {
        if k == 0 {
          PieceOfBlankIsBlank(s[1..], p, 0);
        } else {
          PieceOfBlankIsBlank(s[1..], p, k);
        }
      }
    }
  }

  /** `countHaikuSyllables`: one trimmed line at a time, for as many lines as the pattern has. */
  method CountPoemSyllables(content: string, expected: seq<int>, lexicon: map<string, int>, p: Predictor)
    returns (r: Result<seq<int>>)
    ensures r == PoemCountsSpec(content, expected, lexicon, p)
  {
    if IsBlank(content) {
      return Ok(seq(|expected|, _ => 0));
    }
    var lines := SplitLines(content);
    ghost var padded := PatternLines(content, |expected|);
    var count := LineCounter(lexicon, p);
    var syllableCounts: seq<int> := [];
    var i := 0;
    while i < |expected|
      invariant 0 <= i <= |expected|
      invariant Traverse(padded[..i], count) == Ok(syllableCounts)
    {
      var line := LineAt(lines, i);
      assert line == padded[i];
      var result := CountSyllables(Trim(line), lexicon, p);
      if result.Err? {
        assert count(line) == Err(result.message);
        TraverseStopsAt(padded, count, i);
        return Err(result.message);
      }
      assert count(line) == Ok(result.value.total);
      TraverseSnoc(padded[..i], line, count);
      PrefixSnoc(padded, i);
      syllableCounts := syllableCounts + [result.value.total];
      i := i + 1;
    }
    assert padded[..i] == padded;
    r := Ok(syllableCounts);
  }

  // ---------------------------------------------------------------- judging a poem

  function Take<T>(s: seq<T>, n: nat): seq<T> {
    if n <= |s| then s[..n] else s
  }

  /** `content.split(/\r?\n/).slice(0, n)`. */
  function FirstLines(content: string, n: nat): seq<string> {
    Take(SplitLines(content), n)
  }

  /** All `n` lines are there and written: the slice has `n` entries and none is blank. */
  predicate HasAllRequiredLines(content: string, n: nat) {
    var lines := FirstLines(content, n);
    |lines| == n && forall i :: 0 <= i < |lines| ==> !IsBlank(lines[i])
  }

  predicate StructureMatches(counts: seq<int>, expected: seq<int>) {
    |counts| == |expected| && forall i :: 0 <= i < |counts| ==> counts[i] == expected[i]
  }

  predicate SomeLineWritten(lines: seq<string>) {
    exists i :: 0 <= i < |lines| && !IsBlank(lines[i])
  }

  /** The feedback `validateHaiku` chooses, in priority order. */
  function ChooseFeedback(content: string, counts: seq<int>, expected: seq<int>): Feedback
    requires |counts| == |expected|
  {
    var lines := FirstLines(content, |expected|);
    var hasAll := HasAllRequiredLines(content, |expected|);
    if hasAll && StructureMatches(counts, expected) then Perfect
    else if !hasAll then
      if SomeLineWritten(lines) then FinishAll(|expected|) else Begin
    else
      match FirstIssue(counts, expected, lines, 0)
      case Some(f) => f
      case None => KeepWriting
  }

  /** The pure part of `validateHaiku`, from the counts on. */
  function Judge(content: string, counts: seq<int>, expected: seq<int>, poemType: string): ValidationResult
    requires |counts| == |expected|
  {
    var isComplete := HasAllRequiredLines(content, |expected|) && StructureMatches(counts, expected);
    ValidationResult(isComplete, isComplete, counts, Render(ChooseFeedback(content, counts, expected), poemType))
  }

  /**
   * A poem is valid exactly when it is complete, and complete exactly when its first `n` lines all
   * exist and are written and every count equals the pattern's.
   */
  lemma JudgeValidity(content: string, counts: seq<int>, expected: seq<int>, poemType: string)
    requires |counts| == |expected|
    ensures Judge(content, counts, expected, poemType).isValid == Judge(content, counts, expected, poemType).isComplete
    ensures Judge(content, counts, expected, poemType).isComplete <==>
              |SplitLines(content)| >= |expected| &&
              (forall i :: 0 <= i < |expected| ==> !IsBlank(SplitLines(content)[i])) &&
              counts == expected
    ensures Judge(content, counts, expected, poemType).syllableCounts == counts
  {
    var lines := SplitLines(content);
    if |lines| >= |expected| {
      assert FirstLines(content, |expected|) == lines[..|expected|];
    }
  }

  /**
   * The feedback is the success message for a complete poem; for missing lines, "finish all n
   * lines" when some line is written and "write your poem" otherwise; and for a poem with every
   * line written but a wrong count, the issue of the first line whose count is off — so the
   * "keep writing" fallback is never chosen.
   */
  lemma FeedbackPriority(content: string, counts: seq<int>, expected: seq<int>)
    requires |counts| == |expected|
    ensures var f := ChooseFeedback(content, counts, expected);
            var hasAll := HasAllRequiredLines(content, |expected|);
            && (hasAll && counts == expected <==> f == Perfect)
            && (!hasAll ==> f == if SomeLineWritten(FirstLines(content, |expected|)) then FinishAll(|expected|) else Begin)
            && (hasAll && counts != expected ==>
                  exists j :: 0 <= j < |counts| && counts[j] != expected[j] &&
                    (forall k :: 0 <= k < j ==> counts[k] == expected[k]) &&
                    f == IssueAt(counts, expected, j))
            && f != KeepWriting
  {
    var lines := FirstLines(content, |expected|);
    var hasAll := HasAllRequiredLines(content, |expected|);
    FirstIssueIsFirst(counts, expected, lines, 0);
    if hasAll && counts != expected {
      // every line is written, so every mismatch is an issue
      forall j | 0 <= j < |counts| ensures HasIssue(counts, expected, lines, j) <==> counts[j] != expected[j] {
      }
      assert exists j :: 0 <= j < |counts| && counts[j] != expected[j];
    }
  }

  /** `validateHaiku`: count the lines against the pattern, then judge; a failed count fails the pass. */
  method ValidatePoem(content: string, expected: seq<int>, poemType: string, lexicon: map<string, int>, p: Predictor)
    returns (r: Result<ValidationResult>)
    ensures PoemCountsSpec(content, expected, lexicon, p).Err? ==> r == Err(PoemCountsSpec(content, expected, lexicon, p).message)
    ensures PoemCountsSpec(content, expected, lexicon, p).Ok? ==>
              r == Ok(Judge(content, PoemCountsSpec(content, expected, lexicon, p).value, expected, poemType))
  {
    var counts := CountPoemSyllables(content, expected, lexicon, p);
    if counts.Err? {
      return Err(counts.message);
    }
    r := Ok(Judge(content, counts.value, expected, poemType));
  }
}
