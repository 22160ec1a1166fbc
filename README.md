# Not a Haiku — a verified model of the app's core

Not a Haiku is a browser app for writing short poems. It counts syllables as you type and checks
each line against the form's pattern. It recognises which form a poem is, and keeps the poems in
an IndexedDB store with tags, status and statistics. It signs in to GitHub, syncs the poems with a
private gist, and reads poems aloud with word-by-word highlighting. This project models the logic
behind those features in Dafny and proves what that logic promises.

One module per source file, plus shared helpers:

- `PoemTypes` (`poem_types.dfy`) models `src/lib/poemTypes.js`. It holds:
  - the catalogue of seven forms and its keyed lookup;
  - form detection from the number of written lines, with its preference order.
- `Settings` (`settings.dfy`) models `src/lib/stores/settings.js`: the defaults, the focus preset, loading the
  saved copy over the defaults, and a `SettingsStore` class whose methods replace the value and write
  the saved copy.
- `Auth` (`auth.dfy`) models `src/lib/stores/auth.js`: the initial state, reading the saved state back,
  what is saved, and an `AuthStore` class with the loading, error, sign-in, sign-out and start-up
  transitions.
- `OnnxCounter` (`onnx_syllable_counter.dfy`) models `src/lib/onnx-syllable-counter.js`. It holds:
  - the word cleaner and the one-hot input buffer (an `array<int>` filled in place);
  - the counter, which tries the dictionary first and the learned predictor second;
  - word extraction, which knows whether the last word is still being typed, with the end-of-text test as the program writes it (see Findings);
  - per-line counting against a pattern, and the validator with its feedback choice;
  - a `ModelSession` class for the model's loading flags.
- `SyllableCounter` (`syllable_counter.dfy`) models `src/lib/syllable-counter.js`. It holds:
  - the vowel-cluster heuristic with its silent-`e` and `-le` rules;
  - dictionary-first counting;
  - the three-line haiku counter and validator.
- `Verdict` (`verdict.dfy`) holds the validation result and the feedback messages that both
  validators choose from.
- `HaikuDb` (`haiku_db.dfy`) models `src/lib/stores/haiku-db.js`:
  - the record, the patch that `create` and `update` spread over a record, the filters, the stable sort comparison and the statistics;
  - a `HaikuDatabase` class whose table stands for the object store;
  - a `HaikuStore` class that keeps the list subscribers see.
- `GitHubSync` (`github_sync.dfy`) models `src/lib/github-sync.js`:
  - finding the app's gist;
  - the pull's merge loop, as a specification function and as a method that writes through the database;
  - the push and its stamping loop;
  - `sync` and `getSyncStatus`, in a `GitHubSyncManager` class.
- `SpeechText` (`elevenlabs_tts.dfy`) models the text and timing logic of `src/lib/elevenlabs-tts.js`:
  - pause tags;
  - the line-aware tokenizer, with its word expression as the program writes it (see Findings);
  - grouping per-character alignment into words;
  - the cursor walk that times each token;
  - the API-key format test.
- The shared helpers:
  - `Text`: JavaScript white space, trimming, ASCII lowercasing, splitting, decimal rendering and string order.
  - `Runs`: the maximal runs a global `X Y*` regular expression finds.
  - `Ordering`: the ascending order of a set of strings.
  - `JsValues`: JSON values, truthiness and object spread.
  - `Wrappers`: `Option`, `Result` and an in-order loop of steps that can throw.

Code that mutates step by step is modelled as methods with loop invariants. Each such method is
proved equal to a specification function, and the properties are proved as lemmas about that
function. The stores are classes whose methods state their whole new state.

Some inputs are not computed by the model. The clock, the id generator, every reply from GitHub or
the speech service, the storage entries and the learned predictor are all parameters.

## Model

| member | source | states |
|---|---|---|
| PoemTypes.Lookup | src/lib/poemTypes.js:47-49 | a key finds a form exactly when some catalogue entry carries it, and the form found is that entry's |
| PoemTypes.GetPoemType | src/lib/poemTypes.js:47-49 | `getPoemType` finds a form exactly for the catalogue's keys, namely the form listed with the key |
| PoemTypes.CatalogKeys | src/lib/poemTypes.js:6-42 | the seven keys are distinct, and looking each one up gives back the form listed with it |
| PoemTypes.PreferenceCoversCatalog | src/lib/poemTypes.js:74 | the preference order names every key of the catalogue and nothing else, each once |
| PoemTypes.CatalogPatterns | src/lib/poemTypes.js:6-42 | every form expects at least one line and a positive syllable count on each |
| PoemTypes.CountingForms | src/lib/poemTypes.js:22-41 | the nonet counts down 9..1, the etheree up 1..10, and the descending etheree is the etheree reversed |
| PoemTypes.FirstPreferred | src/lib/poemTypes.js:76-80 | the key chosen is both preferred and matching, and there is none exactly when no preferred key matches |
| PoemTypes.MatchingTable | src/lib/poemTypes.js:61-67 | the forms with n lines, in catalogue order: 3 haiku; 5 tanka, cinquain; 6 shadorma; 9 nonet; 10 both etherees; otherwise none |
| PoemTypes.DetectPoemType | src/lib/poemTypes.js:56-84 | the method (blank test, line filter, preference loop, first-match fallback) returns the detection function's answer |
| PoemTypes.FindPreferred | src/lib/poemTypes.js:76-80 | the preference loop returns the first preferred key that matches, or nothing |
| PoemTypes.DetectMeaning | src/lib/poemTypes.js:56-84 | detection always names a catalogue form; blank text is a haiku; a form with as many lines as the written lines wins when one exists, haiku otherwise; the answer for 3, 5, 6, 9 and 10 lines |
| PoemTypes.FormLengths | src/lib/poemTypes.js:61-67 | only 3, 5, 6, 9 and 10 lines are the length of some form |
| PoemTypes.DetectedForm | src/lib/poemTypes.js:61-84 | the form detected for n lines is a catalogue key and has n lines whenever some form has n lines |
| PoemTypes.DetectByCountTable | src/lib/poemTypes.js:61-84 | the answer for each line count: tanka before cinquain, ascending etheree before descending, haiku when nothing matches |
| PoemTypes.FirstPreferredAt | src/lib/poemTypes.js:76-80 | the preference walk stops at the first preferred key that matches |
| Settings.FocusSettings | src/lib/stores/settings.js:18-35 | the focus preset holds every default setting; it takes the focus values where they are given and the defaults elsewhere |
| Settings.Preset | src/lib/stores/settings.js:32-35 | `presets[name]`: the defaults for `default`, the focus settings for `focus`, nothing for any other name |
| Settings.Base | src/lib/stores/settings.js:91 | the preset's settings hold every default key, and an unknown name falls back to the defaults |
| Settings.LoadSettings | src/lib/stores/settings.js:37-51 | the settings read at start-up hold every default key; every saved property overrides its default; no other key appears; nothing saved, or a read or parse error, gives the defaults |
| Settings.ReloadPersisted | src/lib/stores/settings.js:37-64 | a saved value that holds every setting reads back as itself |
| Settings.ApplyPreset | src/lib/stores/settings.js:90-101 | `preset` becomes the name; `poemType` keeps its current value and stays unset when unset; the preset's other values win; settings the preset lacks keep their value; no other key appears |
| Settings.ApplyPresetIdempotent | src/lib/stores/settings.js:90-101 | applying the same preset twice is applying it once |
| Settings.ApplyPresetKeepsKeys | src/lib/stores/settings.js:90-101 | settings that hold every default key still do after a preset is applied |
| Settings.SettingsStore.constructor | src/lib/stores/settings.js:66-68 | the store starts with the settings read from storage and does not write the stored copy |
| Settings.SettingsStore.Set | src/lib/stores/settings.js:73-76 | `set(v)` holds `v` and saves it |
| Settings.SettingsStore.Update | src/lib/stores/settings.js:78-82 | `update(f)` holds and saves what `f` makes of the current value |
| Settings.SettingsStore.Reset | src/lib/stores/settings.js:83-87 | `reset()` holds and saves the defaults, which then read back as the defaults |
| Settings.SettingsStore.ApplyPresetNamed | src/lib/stores/settings.js:90-101 | `applyPreset(name)` holds and saves the current settings with the preset applied; when they held every setting, the saved copy reads back as the new value |
| Auth.LoadAuthState | src/lib/stores/auth.js:27-49 | outside a browser, with nothing saved, an unreadable entry or a saved non-object, the initial state; otherwise every saved property except loading and error is kept over the initial state; every initial key is present; loading is false and error null; no other key appears |
| Auth.Saved | src/lib/stores/auth.js:55-65 | what is saved is exactly the state's sign-in flag, token and user, as far as the state has them |
| Auth.WithLoading | src/lib/stores/auth.js:84-88 | `setLoading(b)` sets loading to b; starting clears the error, ending keeps it; nothing else changes |
| Auth.WithError | src/lib/stores/auth.js:94-98 | `setError(e)` records e, ends loading, and changes nothing else |
| Auth.WithUser | src/lib/stores/auth.js:105-113 | `setUser` signs in with that token and user, not loading and without error; other keys keep their values |
| Auth.InitialSignedOut | src/lib/stores/auth.js:15-21 | the initial state does not pass the start-up sign-in test |
| Auth.SignInReloads | src/lib/stores/auth.js:27-69 | after `setUser`, reading the saved entry back gives the initial state with exactly the sign-in flag, token and user of the sign-in |
| Auth.SavedSignIn | src/lib/stores/auth.js:55-65 | a sign-in saves exactly its three persistent fields |
| Auth.SignInPassesCheck | src/lib/stores/auth.js:137-140 | a sign-in with a non-empty token and a user passes the start-up test after a reload |
| Auth.AuthStore.constructor | src/lib/stores/auth.js:74-75 | the store starts from the state read back from storage |
| Auth.AuthStore.SetLoading | src/lib/stores/auth.js:84-88 | the state becomes the loading update and the saved entry is untouched |
| Auth.AuthStore.SetError | src/lib/stores/auth.js:94-98 | the state becomes the error update and the saved entry is untouched |
| Auth.AuthStore.SetUser | src/lib/stores/auth.js:105-116 | the state becomes the sign-in; in a browser its persistent fields are saved and read back as the sign-in; outside one nothing is saved |
| Auth.AuthStore.SignOut | src/lib/stores/auth.js:121-132 | the state becomes the initial state, and in a browser the saved entry is removed, so a reload also starts signed out |
| Auth.AuthStore.Init | src/lib/stores/auth.js:137-173 | without a saved sign-in nothing changes; with one, an accepted token keeps the state read back, a rejected one removes the saved entry (in a browser) and signs out, and a failed request signs out and keeps the entry |
| OnnxCounter.CleanWord | src/lib/onnx-syllable-counter.js:67 | a cleaned word holds only lower-case ASCII letters, apostrophes and hyphens |
| OnnxCounter.CleanWordIdempotent | src/lib/onnx-syllable-counter.js:106-110 | cleaning twice is cleaning once, so the grid built from the cleaned word is the grid of the word |
| OnnxCounter.IndexOf | src/lib/onnx-syllable-counter.js:83 | `indexOf` gives the first position of the character in the alphabet, or -1 exactly when it is absent |
| OnnxCounter.GridAfter | src/lib/onnx-syllable-counter.js:73-89 | the buffer always has `max_word_length * alphabet_size` cells |
| OnnxCounter.GridAfterCells | src/lib/onnx-syllable-counter.js:81-89 | after the first n characters are written, a cell is 1 exactly when one of them sets it and 0 otherwise |
| OnnxCounter.OneHotRows | src/lib/onnx-syllable-counter.js:66-92 | with an alphabet that fits its size, row i of the grid holds a single 1 at character i's alphabet position, and every other cell (rows past the word or past the maximum length included) is 0 |
| OnnxCounter.HitCell | src/lib/onnx-syllable-counter.js:81-89 | cell (i, j) is set exactly when character i is encoded at alphabet position j |
| OnnxCounter.PreprocessWord | src/lib/onnx-syllable-counter.js:66-92 | the zero-fill loop and the encoding loop leave the typed array equal to the grid of the cleaned word |
| OnnxCounter.EncodeCharacters | src/lib/onnx-syllable-counter.js:81-89 | writing one cell per encoded character, up to the maximum length, into the zeroed buffer gives the one-hot grid |
| OnnxCounter.MlSyllableCountClamps | src/lib/onnx-syllable-counter.js:97-148 | the empty word counts 0; another word fails exactly when inference fails, with the word in the message; otherwise it counts max(1, rounded output) |
| OnnxCounter.MlSyllableCountSeesCleanWord | src/lib/onnx-syllable-counter.js:106-110 | two words that clean alike get the same outcome from the predictor |
| OnnxCounter.ModelSession.constructor | src/lib/onnx-syllable-counter.js:18-20 | the session starts neither loaded nor loading |
| OnnxCounter.ModelSession.InitializeModel | src/lib/onnx-syllable-counter.js:31-61 | a loaded session, or one already loading, returns without change; otherwise the load ends with the loading flag cleared, loaded exactly when the session was created, and the initialization error when it was not |
| OnnxCounter.ModelSession.InitializeSyllableCounter | src/lib/onnx-syllable-counter.js:320-328 | the result is whether initialization did not throw, and the flags are as the initialization left them |
| OnnxCounter.EndsCompleteFinding | src/lib/onnx-syllable-counter.js:164 | the regular expression as written treats text ending in `.` as unfinished and text ending in `p` as finished; the intended test does the opposite |
| OnnxCounter.FinalPeriodFinding | src/lib/onnx-syllable-counter.js:154-175 | for text ending in a period, the program's extraction marks the last word incomplete and the corrected extraction marks it complete |
| OnnxCounter.CleanedText | src/lib/onnx-syllable-counter.js:158 | cleaning keeps the text's length (each character either kept lower-cased or replaced by a space) |
| OnnxCounter.SplitWordsProperties | src/lib/onnx-syllable-counter.js:158-159 | the words are non-empty runs of `[a-z'-]` whose concatenation is the cleaned word: every other character only separates words |
| OnnxCounter.MarkWordsMeaning | src/lib/onnx-syllable-counter.js:154-175 | for either end-of-text test: blank text has no words; otherwise the words are the split words, every word but the last is complete, and the last is complete exactly when the test passes |
| OnnxCounter.ExtractWordsCompleteness | src/lib/onnx-syllable-counter.js:154-175 | the program's extraction, which every counter uses: blank text has no words; otherwise the split words, every word but the last complete, and the last complete exactly when the text ends in white space or in one of the literal characters `p`, `{`, `P`, `}` (the class at line 164 as written) |
| OnnxCounter.ExtractWordsIntendedCompleteness | src/lib/onnx-syllable-counter.js:163-164 | the corrected half of the first finding: the same words and inner flags, with the last word complete exactly when the text ends in white space or punctuation |
| OnnxCounter.ResolutionOrder | src/lib/onnx-syllable-counter.js:180-214 | a word cleaning to nothing counts 0; a complete single letter counts 1; a complete dictionary word counts its dictionary value whatever the predictor; every other word, incomplete dictionary words included, is predicted |
| OnnxCounter.CountSyllablesMeaning | src/lib/onnx-syllable-counter.js:219-237 | counting succeeds exactly when every word resolves; the breakdown then lists each word in order with its own count and the total is their sum; otherwise the error is that of a failing word |
| OnnxCounter.CountSyllables | src/lib/onnx-syllable-counter.js:219-237 | the loop that adds up the total and pushes each word's entry returns the specification's breakdown or its first error |
| OnnxCounter.PatternLines | src/lib/onnx-syllable-counter.js:248-252 | the pattern reads exactly as many lines as it has counts, reading a missing line as empty |
| OnnxCounter.PoemCountsSpec | src/lib/onnx-syllable-counter.js:242-261 | a successful count has one entry per expected line |
| OnnxCounter.BlankLineCountsZero | src/lib/onnx-syllable-counter.js:252-254 | a blank or missing line counts 0 syllables, whatever the predictor |
| OnnxCounter.PoemCountsMeaning | src/lib/onnx-syllable-counter.js:242-261 | count i is the total of line i of the poem, trimmed, with a missing line read as empty |
| OnnxCounter.PoemCountsPadding | src/lib/onnx-syllable-counter.js:242-255 | a blank poem counts 0 on every line, and so does every line past the end of the poem |
| OnnxCounter.CountPoemSyllables | src/lib/onnx-syllable-counter.js:242-261 | the per-line loop returns the specification's counts or the first line's error |
| OnnxCounter.JudgeValidity | src/lib/onnx-syllable-counter.js:266-280 | valid is complete, and complete means the poem has at least as many lines as the pattern, those are all written, and every count equals the pattern's |
| OnnxCounter.FeedbackPriority | src/lib/onnx-syllable-counter.js:282-307 | the success message exactly for a complete poem; for missing lines "finish all" when one is written and "write your" otherwise; with every line written, the issue of the first line whose count is off; the "keep writing" fallback is never chosen |
| OnnxCounter.ValidatePoem | src/lib/onnx-syllable-counter.js:266-315 | a failed count fails validation with its error; otherwise the result is the judgement of the counts |
| Verdict.FirstIssueIsFirst | src/lib/onnx-syllable-counter.js:294-306 | the feedback issue reported is that of the lowest-numbered line that has one, and none is found exactly when no line has one |
| Verdict.FirstIssueSkips | src/lib/onnx-syllable-counter.js:295-305 | a line without an issue is passed over |
| Wrappers.Traverse | src/lib/onnx-syllable-counter.js:227-231 | a loop of awaited steps that all succeed gives one value per element |
| Wrappers.TraverseMeaning | src/lib/onnx-syllable-counter.js:227-231 | the loop succeeds exactly when every step does, then holds each step's value in order; otherwise its error is that of the first failing step |
| Wrappers.TraverseSnoc | src/lib/onnx-syllable-counter.js:227-231 | one more successful step appends its value |
| Wrappers.TraverseStopsAt | src/lib/onnx-syllable-counter.js:227-231 | when the steps before i succeed and step i fails, the loop fails with i's error |
| SyllableCounter.Letters | src/lib/syllable-counter.js:15 | the cleaned word holds only lower-case ASCII letters |
| SyllableCounter.ClustersBelow | src/lib/syllable-counter.js:22-34 | there are never more clusters than characters scanned |
| SyllableCounter.ClustersBelowZero | src/lib/syllable-counter.js:22-34 | no cluster starts exactly when no vowel is scanned |
| SyllableCounter.EndsWithEHasCluster | src/lib/syllable-counter.js:24-37 | a word ending in `e` has at least one vowel cluster |
| SyllableCounter.HeuristicCountMeaning | src/lib/syllable-counter.js:12-47 | 0 exactly for a word without letters, otherwise at least 1; at most the cluster count and at least one less; the cluster count without a final `e`, one fewer with it, and with `-le` the two rules cancel except for two-cluster words, which count 1 |
| SyllableCounter.TableExample | src/lib/syllable-counter.js:36-43 | worked example of HeuristicCountMeaning: "table" counts one syllable: the silent-e rule brings it to 1 and the `-le` rule then does not apply |
| SyllableCounter.RhythmExample | src/lib/syllable-counter.js:15-24 | worked example of HeuristicCountMeaning: "Rhythm" counts one syllable: upper case is folded and `y` is a vowel |
| SyllableCounter.MlSyllableCount | src/lib/syllable-counter.js:12-47 | the one-pass cluster loop with its two adjustments returns the heuristic count |
| SyllableCounter.CountWordSyllablesMeaning | src/lib/syllable-counter.js:78-95 | a complete dictionary word counts its dictionary value; every other word counts by the heuristic, which is at least 1 exactly when a letter survives; a single letter outside the dictionary counts 1 without a rule of its own |
| SyllableCounter.HeuristicPositive | src/lib/syllable-counter.js:13-46 | on a cleaned word the heuristic gives at least 1 exactly when some `a`-`z` letter is present |
| SyllableCounter.SingleLetterCount | src/lib/syllable-counter.js:12-47 | a single letter counts one syllable |
| SyllableCounter.Entries | src/lib/syllable-counter.js:108-112 | one breakdown entry per word |
| SyllableCounter.SumSyllablesSnoc | src/lib/syllable-counter.js:110 | the total over one more word adds that word's count |
| SyllableCounter.CountSyllables | src/lib/syllable-counter.js:100-118 | the loop that adds up and pushes each word's entry returns the specification's result: 0 for no words, else the total and breakdown |
| SyllableCounter.HaikuCountsSpec | src/lib/syllable-counter.js:123-138 | exactly three counts, whatever the poem's length |
| SyllableCounter.HaikuCountAt | src/lib/syllable-counter.js:131-135 | for a non-blank poem, count i is the count of line i |
| SyllableCounter.BlankLineCountsZero | src/lib/syllable-counter.js:132-134 | a blank or missing line counts 0 |
| SyllableCounter.HaikuCountsMeaning | src/lib/syllable-counter.js:123-138 | count i is that of line i of the poem, trimmed, with a missing line counting 0 |
| SyllableCounter.CountedLineIsWritten | src/lib/syllable-counter.js:123-138 | a line with a non-zero count exists in the poem and is written |
| SyllableCounter.CountHaikuSyllables | src/lib/syllable-counter.js:123-138 | the three-line loop returns the specification's counts |
| SyllableCounter.ValidMeansWritten | src/lib/syllable-counter.js:143-150 | on the counter's counts, counts of 5, 7, 5 mean the first three lines exist and are written |
| SyllableCounter.FirstThreeWritten | src/lib/syllable-counter.js:146-150 | three written lines remain written in the first-three slice |
| SyllableCounter.JudgeMeaning | src/lib/syllable-counter.js:143-180 | valid exactly when the counts are 5, 7, 5, and then also complete, so the "great syllable structure" message is never chosen; an invalid haiku gets the first line-level issue, or "keep writing" |
| SyllableCounter.ValidateHaiku | src/lib/syllable-counter.js:143-180 | the result is the judgement of the counter's counts |
| HaikuDb.OverlayFields | src/lib/stores/haiku-db.js:159-161 | spreading every field of a record over another gives that record, and spreading no fields changes nothing |
| HaikuDb.NewRecord | src/lib/stores/haiku-db.js:94-105 | the created record takes each field the caller passed, and otherwise the generated id, `now` for both timestamps, status `todo`, no tags and `null` analysis, sync time and gist id |
| HaikuDb.Updated | src/lib/stores/haiku-db.js:159-164 | the updated record keeps the stored id and is stamped `now`; every other field comes from the updates where they carry it and from the stored record where they do not |
| HaikuDb.RecordsAt | src/lib/stores/haiku-db.js:220-227 | the records read are those stored under the keys, one per key, in key order |
| HaikuDb.ListedMeaning | src/lib/stores/haiku-db.js:220-227 | reading the whole store gives each stored record exactly once, no others, in strictly ascending order of id |
| HaikuDb.ListedHas | src/lib/stores/haiku-db.js:220-227 | when the keys are exactly the stored ids, the records read are exactly the stored records |
| HaikuDb.ListedAscends | src/lib/stores/haiku-db.js:220-227 | strictly ascending keys give records with distinct ids in ascending order of id |
| HaikuDb.Keep | src/lib/stores/haiku-db.js:230-247 | a filter keeps exactly the records it admits and never lengthens the list |
| HaikuDb.KeepDistinct | src/lib/stores/haiku-db.js:230-247 | filtering a list whose ids are distinct leaves ids distinct |
| HaikuDb.FilteredMeaning | src/lib/stores/haiku-db.js:230-247 | the status, tag and search filters together keep exactly the records that pass every filter switched on: the status matches, every requested tag is present, the lowercased query occurs in the lowercased title, text or commentary |
| HaikuDb.CompareAntisymmetric | src/lib/stores/haiku-db.js:250-270 | swapping the two records negates the sort comparison, for every sort field and order |
| HaikuDb.CompareTransitive | src/lib/stores/haiku-db.js:250-270 | the sort comparison is transitive, for every sort field and order |
| HaikuDb.Insert | src/lib/stores/haiku-db.js:251-269 | inserting a record gives the list with that record added, nothing lost |
| HaikuDb.InsertSorted | src/lib/stores/haiku-db.js:251-269 | inserting into a sorted list keeps it sorted |
| HaikuDb.ConsSorted | src/lib/stores/haiku-db.js:251-269 | a record that comes no later than every record of a sorted list can go in front of it |
| HaikuDb.SortRecords | src/lib/stores/haiku-db.js:251-269 | sorting is a permutation of the records |
| HaikuDb.SortRecordsSorted | src/lib/stores/haiku-db.js:250-270 | the sorted list is in order by the comparison: by the field given (titles lowercased), reversed for `desc`, and newest `updatedAt` first when no field is given |
| HaikuDb.InsertDistinct | src/lib/stores/haiku-db.js:251-269 | inserting a record whose id is new into a list of distinct ids keeps ids distinct |
| HaikuDb.ConsDistinct | src/lib/stores/haiku-db.js:251-269 | a record whose id is new can go in front of a list of distinct ids |
| HaikuDb.SortDistinct | src/lib/stores/haiku-db.js:251-269 | sorting keeps ids distinct |
| HaikuDb.GetAllMeaning | src/lib/stores/haiku-db.js:214-275 | `getAll` gives exactly the stored records that pass the filters, each once, sorted by the comparison, and no more records than are stored |
| HaikuDb.GetAllEverything | src/lib/stores/haiku-db.js:214-275 | with no options `getAll` gives every stored record, as many as are stored |
| HaikuDb.NoCounts | src/lib/stores/haiku-db.js:314-318 | a status tally whose entries are all zero counts zero for every status |
| HaikuDb.Bump | src/lib/stores/haiku-db.js:324 | counting a record adds one to its status's count, and to the total, and leaves every other status's count and the existing entries' order alone |
| HaikuDb.HaikuDatabase.constructor | src/lib/stores/haiku-db.js:28-31 | a new database has no records |
| HaikuDb.HaikuDatabase.Create | src/lib/stores/haiku-db.js:91-120 | an id already stored fails with the store's error message and changes nothing; otherwise the new record is stored under its id and returned, and nothing else changes |
| HaikuDb.HaikuDatabase.Get | src/lib/stores/haiku-db.js:127-143 | the record stored under the id, or `null` exactly when there is none |
| HaikuDb.HaikuDatabase.Update | src/lib/stores/haiku-db.js:151-179 | an id not stored fails with "Haiku with id … not found" and changes nothing; otherwise the updated record replaces the stored one and is returned |
| HaikuDb.HaikuDatabase.Delete | src/lib/stores/haiku-db.js:186-202 | the record under the id is removed, when there is one, and nothing else changes |
| HaikuDb.HaikuDatabase.Clear | src/lib/stores/haiku-db.js:336-352 | no record is left |
| HaikuDb.HaikuDatabase.GetAll | src/lib/stores/haiku-db.js:214-275 | the records that pass the filters, each once, and sorted by the comparison |
| HaikuDb.HaikuDatabase.Search | src/lib/stores/haiku-db.js:282-288 | a blank query lists everything; any other query lists exactly the records mentioning its lowercased form |
| HaikuDb.HaikuDatabase.GetAllTags | src/lib/stores/haiku-db.js:294-303 | every tag of some stored record, each once, in strictly ascending order, and no other |
| HaikuDb.HaikuDatabase.GetStats | src/lib/stores/haiku-db.js:309-330 | the total is the number of records; the counts by status add up to it and give each status's tally; `todo`, `in_progress` and `done` come first; analyzed and synced count the records with an analysis and with a sync time |
| HaikuDb.CollectTags | src/lib/stores/haiku-db.js:296-300 | the set holds exactly the tags of the records |
| HaikuDb.AddTags | src/lib/stores/haiku-db.js:299 | the set gains exactly the record's tags |
| HaikuDb.CountStats | src/lib/stores/haiku-db.js:312-327 | the counting loop's totals match the tallies over the records listed |
| HaikuDb.Without | src/lib/stores/haiku-db.js:415 | the list keeps exactly the records with another id |
| HaikuDb.Replace | src/lib/stores/haiku-db.js:401 | the list keeps its length, and each record with the id becomes the updated one while every other stays where it was |
| HaikuDb.ReplaceOthers | src/lib/stores/haiku-db.js:401 | replacing the records with an id leaves the records with other ids as they were, in order |
| HaikuDb.WithoutIdempotent | src/lib/stores/haiku-db.js:415 | removing an id a second time changes nothing |
| HaikuDb.HaikuStore.constructor | src/lib/stores/haiku-db.js:362 | the list starts empty |
| HaikuDb.HaikuStore.Load | src/lib/stores/haiku-db.js:370-379 | the list becomes, and the call returns, what `getAll` gives for the options |
| HaikuDb.HaikuStore.Create | src/lib/stores/haiku-db.js:384-393 | a created record is stored and goes in front of the list; a failure changes neither |
| HaikuDb.HaikuStore.Update | src/lib/stores/haiku-db.js:398-407 | on success the stored record changes and every listed record with the id becomes the updated one; a failure changes neither |
| HaikuDb.HaikuStore.Delete | src/lib/stores/haiku-db.js:412-420 | the record leaves the store and the list |
| HaikuDb.HaikuStore.Search | src/lib/stores/haiku-db.js:425-434 | the list becomes the search result: everything for a blank query, the matching records otherwise |
| HaikuDb.HaikuStore.GetStats | src/lib/stores/haiku-db.js:439-446 | the database's statistics unchanged: the total is the number of records, the status counts add up to it and match each status's tally, the first three entries are `todo`, `in_progress` and `done`, and the analyzed and synced counts are the database's |
| HaikuDb.HaikuStore.GetAllTags | src/lib/stores/haiku-db.js:451-458 | the database's tags, each once, ascending |
| HaikuDb.HaikuStore.Clear | src/lib/stores/haiku-db.js:463-471 | the store and the list are emptied |
| GitHubSync.FirstHaikuGist | src/lib/github-sync.js:71-74 | no gist exactly when none in the listing has the app's description and file; otherwise the first one that does |
| GitHubSync.Imported | src/lib/github-sync.js:244-248 | importing creates the remote record unchanged, the generated id overridden by the remote one, except for the gist's sync time and id |
| GitHubSync.Refreshed | src/lib/github-sync.js:252-256 | refreshing stores the remote record under the local id, with the gist's sync time and id, stamped with the time of the pull |
| GitHubSync.MergeAll | src/lib/github-sync.js:239-258 | the two counters together never exceed the number of remote records, and the table stays keyed by id |
| GitHubSync.MergeStopsAtFailure | src/lib/github-sync.js:239-274 | once a write of the loop has thrown, the remaining remote records change nothing |
| GitHubSync.Expected | src/lib/github-sync.js:239-258 | the independent reading of the merge holds exactly the snapshot's ids and the remote ids, and leaves the records no remote record names untouched |
| GitHubSync.ExpectedResolves | src/lib/github-sync.js:239-258 | with distinct remote ids, each remote id holds what its own record resolves to against the snapshot |
| GitHubSync.MergeMeaning | src/lib/github-sync.js:239-258 | with distinct remote ids the loop never throws, leaves the independent reading's table, and counts the new and the strictly newer records |
| GitHubSync.MergeOutcome | src/lib/github-sync.js:239-258 | with distinct remote ids: no write throws; the table holds the snapshot's ids and the remote ids; each remote id holds its record imported, refreshed when strictly newer, or the local record kept; other records are untouched; `imported` counts the new ids and `updated` the strictly newer records |
| GitHubSync.DistinctPrefix | src/lib/github-sync.js:239 | a prefix of remote records with distinct ids has distinct ids |
| GitHubSync.NotEarlier | src/lib/github-sync.js:239 | with distinct ids the last remote id is not among the earlier ones |
| GitHubSync.MergeStepResolves | src/lib/github-sync.js:240-258 | one turn for an id that still holds its snapshot record stores what that record resolves to and bumps the right counter |
| GitHubSync.MergeNothingNewer | src/lib/github-sync.js:242-250 | remote records that are all known and none strictly newer change nothing and count nothing |
| GitHubSync.ById | src/lib/github-sync.js:233 | every listed record's id is a key, and each key holds a listed record with that id |
| GitHubSync.ByIdOfListing | src/lib/github-sync.js:232-233 | keying the full listing by id gives back the stored table |
| GitHubSync.PullSpec | src/lib/github-sync.js:202-276 | signed out fails with "Not authenticated with GitHub" and no gist reports "No haiku gist found on GitHub", both changing nothing; the sync time is recorded exactly when the counts are reported, and then the message gives them and they add up to at most the remote records; the table changes only after the gist's file was parsed |
| GitHubSync.Stamped | src/lib/github-sync.js:175-178 | the record after the push's update carries the push's time as `updatedAt` and `syncedAt`, and the gist's id |
| GitHubSync.StampAll | src/lib/github-sync.js:172-180 | every record, and no other id, is stamped with the push's time and the gist's id, and the table stays keyed by id |
| GitHubSync.WriteFor | src/lib/github-sync.js:160-169 | the write carries exactly the listed records; it updates the found gist, by its id, exactly when one was found, and creates one otherwise |
| GitHubSync.PushSpec | src/lib/github-sync.js:150-196 | signed out fails with "Not authenticated with GitHub" and writes nothing; a signed-in push sends the listed records to the found or a new gist; success records the sync time, reports "Successfully synced N haikus to GitHub" with the gist's id and stamps every record; a failure changes no record |
| GitHubSync.PushMeaning | src/lib/github-sync.js:157-187 | a push sends every stored record and no other; on success the message counts them all and every record, and no other id, carries the push's time and the gist's id |
| GitHubSync.PullAfterPush | src/lib/github-sync.js:202-276 | pulling back what a push wrote changes nothing and counts nothing, as long as no record was updated after the push's clock reading |
| GitHubSync.SyncedAtMost | src/lib/github-sync.js:320-326 | the synced count never exceeds the number of records, so `unsynced` is never negative |
| GitHubSync.GitHubSyncManager.constructor | src/lib/github-sync.js:16-19 | no sync has happened yet |
| GitHubSync.GitHubSyncManager.Pull | src/lib/github-sync.js:202-276 | the outcome and the new table are those of the pull's specification, and the sync time is recorded exactly when the pull completed |
| GitHubSync.GitHubSyncManager.MergeRemotes | src/lib/github-sync.js:239-258 | the loop leaves the table, counters and error of the merge's specification |
| GitHubSync.GitHubSyncManager.Push | src/lib/github-sync.js:150-196 | the outcome, the write sent and the new table are those of the push's specification, and the sync time is recorded exactly on success |
| GitHubSync.GitHubSyncManager.StampEach | src/lib/github-sync.js:172-180 | updating every listed record leaves every stored record stamped with the time and the gist's id |
| GitHubSync.GitHubSyncManager.Sync | src/lib/github-sync.js:282-311 | signed out fails without changes; a failed pull is returned as it is; otherwise the push runs on the pulled table, a failed push is returned as it is, and success reports "Sync completed successfully" |
| GitHubSync.GitHubSyncManager.GetSyncStatus | src/lib/github-sync.js:317-330 | the record count, how many are synced and how many not (adding up to the count), whether a gist was found and its id when it has one, and the last sync time |
| SpeechText.NewlinesFollowTag | src/lib/elevenlabs-tts.js:13-17 | in the output every newline comes right after the break tag |
| SpeechText.PauseBreaksRoundTrip | src/lib/elevenlabs-tts.js:13-17 | removing the tag in front of each newline gives back the original text, so nothing else was changed |
| SpeechText.PauseBreaksSingleLine | src/lib/elevenlabs-tts.js:13-17 | a text without newlines is left as it is |
| SpeechText.TagHasNoNewline | src/lib/elevenlabs-tts.js:16 | the break tag holds no newline when the pause duration holds none |
| SpeechText.ApiKeyMeaning | src/lib/elevenlabs-tts.js:975-979 | a blank key is refused even when long; a non-blank key is accepted exactly when it starts with `sk-` or is longer than 20 characters; a value that is not a string is refused |
| SpeechText.ApiKeyExamples | src/lib/elevenlabs-tts.js:975-979 | worked example of ApiKeyMeaning: `sk-` is accepted, `abc` refused, and a 21-letter key accepted |
| SpeechText.LineWords | src/lib/elevenlabs-tts.js:205-214 | every word found on a line is non-empty, starts with a letter or digit and continues with word characters only |
| SpeechText.Numbered | src/lib/elevenlabs-tts.js:210 | one token per word, numbered on from `first`, all on the given line |
| SpeechText.TokensBefore | src/lib/elevenlabs-tts.js:199-214 | the tokens of the first lines are numbered 0, 1, 2, … in order, each on one of those lines, each a well-formed word |
| SpeechText.TokenLinesAscend | src/lib/elevenlabs-tts.js:201-214 | line numbers never decrease along the tokens |
| SpeechText.TokenizeMeaning | src/lib/elevenlabs-tts.js:195-214 | for any continuation class, the program's among them: token `k` has word index `k`, a line index below the number of `\n`-separated lines and no smaller than any earlier token's, and a word starting with a letter or digit and continuing with the class's characters, so holding no white space when the class admits none |
| SpeechText.ClassesAreVisible | src/lib/elevenlabs-tts.js:205 | neither the program's class `[A-Za-z0-9''\-]` nor the walk's word characters admit white space |
| SpeechText.LineWordsCover | src/lib/elevenlabs-tts.js:205-207 | every letter or digit of a line lies inside one of its words |
| SpeechText.TokenizeWithLines | src/lib/elevenlabs-tts.js:192-222 | the loop over the lines produces exactly the tokens of the tokenizer as written, whose words continue over letters, digits, `'` and `-` but not `’` |
| SpeechText.TokenizeLine | src/lib/elevenlabs-tts.js:205-214 | the `exec` loop of `[A-Za-z0-9][A-Za-z0-9''\-]*` over one line yields its matches in order, numbered on from the running index, all on that line |
| SpeechText.TokenizeLineStep | src/lib/elevenlabs-tts.js:207-213 | one match moves the search position strictly forward and adds the next word as the next token |
| SpeechText.TokenizeLineEnd | src/lib/elevenlabs-tts.js:207 | when no match is left, the tokens found are all the line's words |
| SpeechText.WordsOf | src/lib/elevenlabs-tts.js:152-177 | one word per span, each the span's characters with the start time of its first and the end time of its last character |
| SpeechText.ParseMeaning | src/lib/elevenlabs-tts.js:141-181 | the words are exactly the maximal separator-free runs: each non-empty, none extendable on either side, in order, each with its first character's start time and last character's end time |
| SpeechText.ParseAt | src/lib/elevenlabs-tts.js:163-167 | word `j` is run `j`'s characters with its first start time and last end time |
| SpeechText.ParseKeepsLetters | src/lib/elevenlabs-tts.js:146-169 | gluing the words together gives the characters with the separators removed |
| SpeechText.AlignedTexts | src/lib/elevenlabs-tts.js:153 | the words' texts, one per word, in order |
| SpeechText.ParseMissing | src/lib/elevenlabs-tts.js:125-137 | no alignment, or no characters, gives no words; characters without either time array make the call throw |
| SpeechText.ParseWordAlignment | src/lib/elevenlabs-tts.js:124-182 | the function gives exactly the parse's specification |
| SpeechText.CollectWords | src/lib/elevenlabs-tts.js:141-181 | the loop and the final flush give one word per maximal separator-free run |
| SpeechText.LetterStep | src/lib/elevenlabs-tts.js:162-168 | a word character extends the current word, which keeps its start time and takes the character's end time |
| SpeechText.CloseWordStep | src/lib/elevenlabs-tts.js:151-156 | closing the current word moves its run to the words done |
| SpeechText.CloseAtSeparator | src/lib/elevenlabs-tts.js:149-161 | a separator after a word pushes the word and resets the current word and times |
| SpeechText.SkipAtSeparator | src/lib/elevenlabs-tts.js:149-151 | a separator outside a word changes nothing but the position |
| SpeechText.FinishWords | src/lib/elevenlabs-tts.js:172-179 | after the last character, flushing the open word, if any, gives every word |
| SpeechText.NoRunsAtEnd | src/lib/elevenlabs-tts.js:146 | at the end of the characters every run is done |
| SpeechText.SkipFrom | src/lib/elevenlabs-tts.js:759-762 | the skip never goes back and stops on a word character or at the end |
| SpeechText.SkipFromSkips | src/lib/elevenlabs-tts.js:759-762 | every character skipped is inside the characters and not a word character |
| SpeechText.TimingsBefore | src/lib/elevenlabs-tts.js:754-796 | one timing per token so far, each the one the walk gives it |
| SpeechText.MapCharTimingsToTokens | src/lib/elevenlabs-tts.js:712-800 | the function gives exactly the timing walk's specification |
| SpeechText.MapTimingsMissing | src/lib/elevenlabs-tts.js:721-738 | no timing, no tokens, or a missing character or time array gives no timings |
| SpeechText.MapTimingsMeaning | src/lib/elevenlabs-tts.js:754-796 | one timing per token, copying its word and indices; the start time is read at the cursor, which rests on a word character (or the end) after skipping only non-word characters, the end time `|word| - 1` characters later; an index past the times gives 0 |
| SpeechText.MapTimingsAt | src/lib/elevenlabs-tts.js:764-792 | token `k`'s timing is the one the walk gives it |
| SpeechText.CursorSkips | src/lib/elevenlabs-tts.js:759-762 | the cursor rests on a word character or the end, having skipped non-word characters only |
| SpeechText.CursorAdvances | src/lib/elevenlabs-tts.js:795 | the cursor only moves forward: each token is read after the characters given to the one before |
| SpeechText.SingleLineTokens | src/lib/elevenlabs-tts.js:195-214 | a one-line text's tokens are its words numbered from 0, all on line 0 |
| SpeechText.SkipFindsRunStart | src/lib/elevenlabs-tts.js:759-762 | from the start or a word boundary, the walk's skip finds the same place the tokenizer's next match starts |
| SpeechText.CursorStep | src/lib/elevenlabs-tts.js:754-796 | a walk resuming at a boundary reads the token from its own run and resumes right after it |
| SpeechText.TokenizeSingleLine | src/lib/elevenlabs-tts.js:205-214 | a one-line text gives one token per word run, numbered in order, on line 0 |
| SpeechText.TimingsFollowRuns | src/lib/elevenlabs-tts.js:754-796 | when the tokens are the text's word runs, each token gets the times of its own first and last character |
| SpeechText.TimingsFollowText | src/lib/elevenlabs-tts.js:712-800 | tokenizing a one-line text and walking its own characters gives every token the start time of its first character and the end time of its last |
| SpeechText.RunsAsWrittenOfDontStop | src/lib/elevenlabs-tts.js:205 | as written, the word expression finds "don", "t" and "stop" in "don’t stop" |
| SpeechText.RunsOfDontStop | src/lib/elevenlabs-tts.js:751 | with `’` as a word character, "don’t stop" holds the two words "don’t" and "stop" |
| SpeechText.TokensAsWrittenOfDontStop | src/lib/elevenlabs-tts.js:192-222 | as written, "don’t stop" gives three tokens |
| SpeechText.WalkAsWrittenOfDontStop | src/lib/elevenlabs-tts.js:751-795 | as written, the walk falls one character behind: "stop" (characters 6 to 9) gets the times at 4 and 7 |
| SpeechText.RunsStartAlnumOfDontStop | src/lib/elevenlabs-tts.js:751 | every stretch of word characters in "don’t stop" starts with a letter |
| SpeechText.WalkOfDontStop | src/lib/elevenlabs-tts.js:751-795 | with the corrected expression, "don’t stop" gives two tokens and "stop" gets the times at 6 and 9 |
| Text.Lower | src/lib/stores/haiku-db.js:241-245 | an upper-case ASCII letter becomes lower-case, every other character is kept |
| Text.LowerAll | src/lib/stores/haiku-db.js:241-245 | lowercasing keeps the length and lowercases each character |
| Text.TrimStart | src/lib/syllable-counter.js:133 | dropping leading white space leaves a suffix that starts with a non-space, after only white space |
| Text.TrimEnd | src/lib/syllable-counter.js:133 | dropping trailing white space leaves a prefix that ends with a non-space, before only white space |
| Text.TrimProperties | src/lib/stores/haiku-db.js:283 | trimming gives the empty string exactly for a blank string, and otherwise starts and ends with a non-space |
| Text.Filter | src/lib/elevenlabs-tts.js:149 | the kept characters all pass the test and are no more than the input |
| Text.FilterAppend | src/lib/elevenlabs-tts.js:146-169 | filtering a concatenation filters each part |
| Text.ConcatAppend | src/lib/elevenlabs-tts.js:146-181 | gluing two lists of pieces is gluing each |
| Text.SplitBy | src/lib/elevenlabs-tts.js:195 | splitting always gives at least one piece |
| Text.SplitByNone | src/lib/elevenlabs-tts.js:195 | a string with no separator splits into itself |
| Text.SplitByProperties | src/lib/elevenlabs-tts.js:195 | no piece holds the separator, and joining the pieces with it gives back the string |
| Text.SplitByConcat | src/lib/elevenlabs-tts.js:195 | the pieces glued together are the string without its separators |
| Text.NonBlankPieces | src/lib/syllable-counter.js:57 | the pieces kept are none blank and no more than the input's |
| Text.SplitLines | src/lib/syllable-counter.js:128 | splitting on `\r?\n` gives as many lines as there are newlines plus one |
| Text.NatToString | src/lib/github-sync.js:184-188 | a count renders as at least one decimal digit |
| Text.NatToStringRoundTrip | src/lib/github-sync.js:263-267 | reading the digits back gives the number, so distinct counts render differently |
| Text.CompareText | src/lib/stores/haiku-db.js:262-263 | the string comparison is -1, 0 or 1, and 0 exactly for equal strings |
| Text.CompareTextAntisymmetric | src/lib/stores/haiku-db.js:262-263 | swapping the strings negates the comparison |
| Text.CompareTextTransitive | src/lib/stores/haiku-db.js:262-263 | the string order is transitive |
| Ordering.LeastExists | src/lib/stores/haiku-db.js:302 | a non-empty set of strings has a least element |
| Ordering.LeastUnique | src/lib/stores/haiku-db.js:302 | it has only one |
| Ordering.Least | src/lib/stores/haiku-db.js:302 | the least element of a non-empty set |
| Ordering.ConsAscending | src/lib/stores/haiku-db.js:302 | a smaller first element keeps an ascending list ascending |
| Ordering.Ascending | src/lib/stores/haiku-db.js:302 | sorting a set gives its elements, each once, in strictly ascending order |
| Ordering.AscendingUnique | src/lib/stores/haiku-db.js:302 | any strictly ascending list of exactly the set's elements is that sorted list |
| JsValues.IndexNamesDistinct | src/lib/stores/settings.js:44 | distinct indices have distinct property names |
| JsValues.Indexed | src/lib/stores/settings.js:44 | spreading a list gives each element under its decimal index and nothing else |
| JsValues.Characters | src/lib/stores/settings.js:44 | a string spreads one character per index |
| JsValues.OwnFields | src/lib/stores/settings.js:44 | spreading gives an object's own fields, an array's elements or a string's characters under their indices, and nothing for `null`, booleans and numbers |
| Runs.FirstFrom | src/lib/elevenlabs-tts.js:207 | the search stops at the first character that can start a word, or at the end |
| Runs.RunEnd | src/lib/elevenlabs-tts.js:205 | a word ends at the first character that cannot continue it, or at the end |
| Runs.NextRun | src/lib/elevenlabs-tts.js:207 | a match lies at or after the search position and is non-empty |
| Runs.RunsFrom | src/lib/elevenlabs-tts.js:207 | every match lies after the start position and is a well-formed run |
| Runs.Texts | src/lib/elevenlabs-tts.js:208 | the text of each match, in order |
| Runs.NextRunFinds | src/lib/elevenlabs-tts.js:207 | a match is found exactly when some character can start a word, and it is a run |
| Runs.RunsFromStep | src/lib/elevenlabs-tts.js:207 | each search picks up the next match and resumes from its end |
| Runs.RunsFromCover | src/lib/elevenlabs-tts.js:207 | every character that can start a word lies inside some match |
| Runs.RunsFromConcat | src/lib/elevenlabs-tts.js:146-181 | the matches of a class glued together are the characters of that class |
| Runs.FilterSkip | src/lib/elevenlabs-tts.js:149 | characters outside the class add nothing |
| Runs.FilterStep | src/lib/elevenlabs-tts.js:162-168 | a stretch of the class is kept as it is |
| Runs.FilterNone | src/lib/elevenlabs-tts.js:149 | a string with no character of the class keeps nothing |
| Runs.FilterAll | src/lib/elevenlabs-tts.js:162-168 | a string made only of the class is kept whole |
| Runs.RunsFromSkip | src/lib/elevenlabs-tts.js:149-151 | a character that cannot start a run is skipped |
| Runs.RunsFromClose | src/lib/elevenlabs-tts.js:151-156 | a stretch ended by a character that cannot continue it is the next run |
| Runs.RunEndAt | src/lib/elevenlabs-tts.js:205 | a run ends exactly where the continuing characters stop |
| Runs.NextRunPreceded | src/lib/elevenlabs-tts.js:149 | a search from a boundary finds a run preceded by a character outside the class |
| Runs.RunsAreMaximal | src/lib/elevenlabs-tts.js:146-169 | each run is a maximal stretch of the class: all its characters belong, the characters around it do not, and consecutive runs are apart |
| Runs.RunPreceded | src/lib/elevenlabs-tts.js:146-169 | each run is preceded by the start or by a character outside the class |
| Runs.RunsFromIndex | src/lib/elevenlabs-tts.js:207 | match `j` is what a search from the end of match `j - 1` finds |
| Runs.RunsFromHead | src/lib/elevenlabs-tts.js:207 | the first match comes after characters that cannot start one, and its end cannot continue it |
| Runs.RunsFromTail | src/lib/elevenlabs-tts.js:207 | match `j` is match `j - 1` of the search resumed after the first |
| Runs.FirstFromStretch | src/lib/elevenlabs-tts.js:759-762 | when every stretch of word characters starts with a letter or digit, skipping to a word character finds a word start |

## Left out

- I/O of every kind is replaced by parameters:
  - the network (`fetch`, the GitHub API, the speech service and its SDK);
  - IndexedDB;
  - `localStorage`;
  - `Date.now`, `Math.random` and the generated ids.
  
  Each reply, clock reading and id is an argument of the operation that receives it.
- Audio playback, base64 decoding, highlighting timers and the streaming speech functions of
  `src/lib/elevenlabs-tts.js` are left out. They are I/O and timing, with no logic beyond what is modelled.
- `convertLineToWordTiming` and `convertToWordTiming` in `src/lib/elevenlabs-tts.js` are not
  modelled. They are legacy helpers that nothing in the app calls.
- `src/lib/github-models.js`, `src/lib/auth/github.js`, the OAuth routes, `src/lib/theme.js` and
  `src/lib/config/environment.js` are not part of this model.
- Logging, `performance.now()` timing and the verbose-log flag are left out. They change no result, with one exception: the log call in `parseWordAlignment` (src/lib/elevenlabs-tts.js:133-138) reads the lengths of the time arrays and so throws when either is missing. `SpeechText.ParseMissing` models that throw.
- Concurrency is not modelled:
  - `Promise.all` over the push's updates is modelled as one update after another;
  - the polling wait of a second caller while the ONNX model loads is not modelled (`OnnxCounter.ModelSession.InitializeModel` returns at once);
  - the asynchronous steps of every operation run in program order.
- The ONNX runtime session is not modelled. The predictor is a function argument from the input grid to a rounded count or an error. Floating-point outputs and `Math.round` are left to that function.
- The float typed array of the input grid is an `array<int>` holding 0 and 1.
- Times are modelled as integers throughout. This covers the speech timings in seconds, which are
  multiplied by 1000, and JSON numbers, which are `JNum(int)`.
- Text.Lower and `OnnxCounter.CleanWord`: lowercasing covers ASCII only. Other characters keep
  their case, although JavaScript's `toLowerCase` would map them.
- OnnxCounter.IsPunctuation covers ASCII, Latin-1 and the General Punctuation ranges of Unicode
  category P, not the whole category.
- Text.CompareText compares by Unicode code point. JavaScript compares UTF-16 code units, which
  differs only for characters outside the Basic Multilingual Plane.
- SpeechText.TokenizeWithLines and `SpeechText.TokenizeLine` leave out the `if (word)` test. A
  match of the expression is never empty, so it never fails.
- SpeechText.MapCharTimingsToTokens requires non-empty tokens, as the tokenizer makes them. An empty token would read `endTimes[-1]`, giving `NaN`, which integer times cannot express.
- SpeechText.TimingsFollowText is proved for one-line text only. For text with several lines the spoken characters also hold the break tags, which the model does not relate to the tokens.
- SpeechText.AddPauseBreaks takes the pause duration as the string a template literal renders it to, `"1"` by default.
- PoemTypes.Lookup and `PoemTypes.GetPoemType` find nothing for the names `Object.prototype` inherits (`toString` and the like). The source's `poemTypes[key]` returns an inherited function for those, which is truthy.
- Settings.Preset: only `default` and `focus` name a preset. The names `Object.prototype` inherits (`toString` and the like) are not modelled.
- Settings.SettingsStore: a storage write that throws, or a missing `window`, is not modelled. The model always writes the saved copy.
- Auth.AuthStore.Init gives the state after the token check. The intermediate `isLoading: true` state is left out.
- HaikuDb.Haiku has only the documented fields. The record spread of `create` and `update` is modelled over those fields.
- HaikuDb.Compare sorts only by `title`, `createdAt` and `updatedAt`. Any other field compares all records equal.
- Failures of IndexedDB's open and its requests, and the browser check in `init`, are not modelled. The one request error modelled is the key conflict of `create`.
- The format of `generateId` is not modelled. GitHub sync's imports override that id with the remote record's.
- GitHubSync.GitHubSyncManager.GetSyncStatus leaves out the error path of its `try`. Its steps cannot throw in the model.
- GitHubSync.GitHubSyncManager.Pull assumes the remote records are well formed. Parsing of malformed records is not modelled beyond the parse failure.
- GitHubSync.GitHubSyncManager.Pull and `GitHubSync.GitHubSyncManager.Push` read the clock once per operation.
- GitHubSync.WriteFor leaves out the `syncedAt` field of the gist's payload.

## Findings

| source | as written | input that shows it | evidently intended | confidence | as-written member | corrected member |
|---|---|---|---|---|---|---|
| src/lib/onnx-syllable-counter.js:164 | `/[\s\p{P}]$/` has no `u` flag. So `\p{P}` is the four characters `p`, `{`, `P`, `}`, not the punctuation category (the same expression is at src/lib/syllable-counter.js:62) | `"cat."` leaves its last word unfinished, and `"stop"` counts as finished | a final white space or punctuation character finishes the last word | not executed | OnnxCounter.FinalPeriodFinding | OnnxCounter.ExtractWordsIntendedCompleteness |
| src/lib/elevenlabs-tts.js:205 | the tokenizer's class `[A-Za-z0-9''\-]` lists the ASCII apostrophe twice and leaves out `’`. The timing walk at line 751 counts `’` as a word character | `"don’t stop"` tokenizes as `don`, `t`, `stop`. The walk then gives `stop` (characters 6–9) the times of characters 4 and 7 | the tokenizer continues words over `’` as the walk does, so each token is timed by its own characters | not executed | SpeechText.WalkAsWrittenOfDontStop | SpeechText.TimingsFollowText |

The operations follow the program as written. The word counters extract words with the end-of-text test of line 164: `OnnxCounter.ExtractWords`, whose meaning `OnnxCounter.ExtractWordsCompleteness` states; the corrected extraction is `OnnxCounter.ExtractWordsIntended`. `SpeechText.TokenizeWithLines` returns `SpeechText.TokenizeAsWritten`. The corrected `SpeechText.Tokenize` is what `SpeechText.TimingsFollowText` is proved for. The lemmas about counting are stated over the program's extraction. The tokenizer's lemmas hold for any continuation class.
