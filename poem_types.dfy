/**
 * The catalogue of poem forms, keyed lookup, and the detection of a poem's form from the
 * number of written lines it has.
 */
module PoemTypes {
  import opened Wrappers
  import opened Text

  datatype PoemType = PoemType(name: string, description: string, syllables: seq<nat>)

  /** An entry of the catalogue object: its key and the form stored under it. */
  datatype Entry = Entry(key: string, form: PoemType)

  const Haiku := PoemType("Haiku", "Traditional Japanese", [5, 7, 5])
  const Tanka := PoemType("Tanka", "Extended haiku", [5, 7, 5, 7, 7])
  const Cinquain := PoemType("Cinquain", "American - Adelaide Crapsey", [2, 4, 6, 8, 2])
  const Nonet := PoemType("Nonet", "Descending syllable count", [9, 8, 7, 6, 5, 4, 3, 2, 1])
  const Shadorma := PoemType("Shadorma", "Spanish origin", [3, 5, 3, 3, 7, 5])
  const Etheree := PoemType("Etheree", "Ascending syllable count", [1, 2, 3, 4, 5, 6, 7, 8, 9, 10])
  const EthereeDesc := PoemType("Etheree", "Descending syllable count", [10, 9, 8, 7, 6, 5, 4, 3, 2, 1])

  /** The catalogue, in the order its entries are listed. */
  const Entries: seq<Entry> := [
    Entry("haiku", Haiku), Entry("tanka", Tanka), Entry("cinquain", Cinquain), Entry("nonet", Nonet),
    Entry("shadorma", Shadorma), Entry("etheree", Etheree), Entry("etheree_desc", EthereeDesc)
  ]

  /** The order detection prefers when several forms have the same number of lines. */
  const PreferenceOrder: seq<string> := ["haiku", "tanka", "cinquain", "shadorma", "nonet", "etheree", "etheree_desc"]

  predicate IsKey(key: string) {
    exists i :: 0 <= i < |Entries| && Entries[i].key == key
  }

  function Lookup(entries: seq<Entry>, key: string): (r: Option<PoemType>)
    ensures r.Some? <==> exists i :: 0 <= i < |entries| && entries[i].key == key
    ensures r.Some? ==> exists i :: 0 <= i < |entries| && entries[i].key == key && entries[i].form == r.value
  {
    if entries == [] then None
    else if entries[0].key == key then Some(entries[0].form)
    else
      var r := Lookup(entries[1..], key);
      assert forall i :: 1 <= i < |entries| ==> entries[i] == entries[1..][i - 1];
      r
  }

  /** `getPoemType`: the form stored under `key`, or nothing for a key the catalogue lacks. */
  function GetPoemType(key: string): (r: Option<PoemType>)
    ensures r.Some? <==> IsKey(key)
    ensures r.Some? ==> exists i :: 0 <= i < |Entries| && Entries[i] == Entry(key, r.value)
  {
    Lookup(Entries, key)
  }

  /** No key of the catalogue is listed twice. */
  predicate DistinctKeys(entries: seq<Entry>) {
    forall i, j :: 0 <= i < j < |entries| ==> entries[i].key != entries[j].key
  }

  /** With distinct keys, looking up an entry's key finds that entry's form. */
  lemma {:induction false} LookupFinds(entries: seq<Entry>, i: nat)
    requires DistinctKeys(entries) && i < |entries|
    ensures Lookup(entries, entries[i].key) == Some(entries[i].form)
  {
    if i > 0 {
      assert entries[0].key != entries[i].key;
      assert entries[1..][i - 1] == entries[i];
      assert DistinctKeys(entries[1..]) by {
        forall a, b | 0 <= a < b < |entries[1..]| ensures entries[1..][a].key != entries[1..][b].key {
          assert entries[1..][a] == entries[a + 1] && entries[1..][b] == entries[b + 1];
        }
      }
      LookupFinds(entries[1..], i - 1);
    }
  }

  /** The keys of the catalogue are distinct, so each of them names the form listed with it. */
  lemma CatalogKeys()
    ensures DistinctKeys(Entries)
    ensures forall i :: 0 <= i < |Entries| ==> GetPoemType(Entries[i].key) == Some(Entries[i].form)
  {
    forall i, j | 0 <= i < j < |Entries| ensures Entries[i].key != Entries[j].key {
      assert Entries[i].key[0] != Entries[j].key[0] || |Entries[i].key| != |Entries[j].key|;
    }
    forall i | 0 <= i < |Entries| ensures GetPoemType(Entries[i].key) == Some(Entries[i].form) {
      LookupFinds(Entries, i);
    }
  }

  /** The preference order names every key of the catalogue, each once. */
  lemma PreferenceCoversCatalog()
    ensures |PreferenceOrder| == |Entries|
    ensures forall k :: k in PreferenceOrder <==> IsKey(k)
  {
    var e := Entries;
    assert e[0].key == "haiku" && e[1].key == "tanka" && e[2].key == "cinquain" && e[3].key == "nonet";
    assert e[4].key == "shadorma" && e[5].key == "etheree" && e[6].key == "etheree_desc";
    forall k ensures k in PreferenceOrder <==> IsKey(k) {
      if IsKey(k) {
        var i :| 0 <= i < |Entries| && Entries[i].key == k;
        assert i in {0, 1, 2, 3, 4, 5, 6};
      }
    }
  }

  /** Every form expects at least one line, and a positive count on each. */
  lemma CatalogPatterns()
    ensures forall i :: 0 <= i < |Entries| ==> |Entries[i].form.syllables| > 0
    ensures forall i, j :: 0 <= i < |Entries| && 0 <= j < |Entries[i].form.syllables| ==> Entries[i].form.syllables[j] > 0
  {
  }

  /**
   * The nonet descends from 9 and the etheree ascends to 10 one syllable a line, and the
   * descending etheree is the etheree reversed.
   */
  lemma CountingForms()
    ensures GetPoemType("nonet") == Some(Nonet)
    ensures GetPoemType("etheree") == Some(Etheree)
    ensures GetPoemType("etheree_desc") == Some(EthereeDesc)
    ensures |Nonet.syllables| == 9 && forall i :: 0 <= i < 9 ==> Nonet.syllables[i] == 9 - i
    ensures |Etheree.syllables| == 10 && forall i :: 0 <= i < 10 ==> Etheree.syllables[i] == i + 1
    ensures |EthereeDesc.syllables| == 10 && forall i :: 0 <= i < 10 ==> EthereeDesc.syllables[i] == Etheree.syllables[9 - i]
  {
    CatalogKeys();
    assert Entries[3] == Entry("nonet", Nonet) && Entries[5] == Entry("etheree", Etheree);
    assert Entries[6] == Entry("etheree_desc", EthereeDesc);
  }

  /** `content.split('\n').filter(line => line.trim().length > 0).length`. */
  function WrittenLineCount(content: string): nat {
    |NonBlankPieces(SplitBy(content, IsNewline))|
  }

  /** The form stored under `key` has `n` lines. */
  predicate HasLines(key: string, n: nat) {
    exists i :: 0 <= i < |Entries| && Entries[i].key == key && |Entries[i].form.syllables| == n
  }

  /** `Object.entries(poemTypes).filter(...)`: the keys, in catalogue order, of the forms with `n` lines. */
  function Matching(entries: seq<Entry>, n: nat): seq<string> {
    if entries == [] then []
    else (if |entries[0].form.syllables| == n then [entries[0].key] else []) + Matching(entries[1..], n)
  }

  /** The first of `prefs` that is among `matching`. */
  function FirstPreferred(prefs: seq<string>, matching: seq<string>): (r: Option<string>)
    ensures r.Some? ==> r.value in prefs && r.value in matching
    ensures r.None? <==> forall k :: k in prefs ==> k !in matching
  {
    if prefs == [] then None
    else if prefs[0] in matching then Some(prefs[0])
    else FirstPreferred(prefs[1..], matching)
  }

  /** What `detectPoemType` returns for a text with `n` written lines. */
  function DetectByCount(n: nat): string {
    Choose(Matching(Entries, n))
  }

  /** The preferred key among `matching`, `'haiku'` when nothing matches. */
  function Choose(matching: seq<string>): string {
    if matching == [] then "haiku"
    else match FirstPreferred(PreferenceOrder, matching)
      case Some(k) => k
      case None => matching[0]
  }

  /** What `detectPoemType` returns. */
  function DetectSpec(content: string): string {
    if IsBlank(content) then "haiku" else DetectByCount(WrittenLineCount(content))
  }

  /** The forms with `n` lines, in catalogue order. */
  lemma MatchingTable(n: nat)
    ensures Matching(Entries, n) == match n
      case 3 => ["haiku"]
      case 5 => ["tanka", "cinquain"]
      case 6 => ["shadorma"]
      case 9 => ["nonet"]
      case 10 => ["etheree", "etheree_desc"]
      case _ => []
  {
    var e := Entries;
    assert e[6..] == [Entry("etheree_desc", EthereeDesc)];
    assert Matching(e[6..], n) == (if n == 10 then ["etheree_desc"] else []) by {
      assert e[6..][1..] == [];
    }
    assert e[5..] == [e[5]] + e[6..];
    assert Matching(e[5..], n) == (if n == 10 then ["etheree", "etheree_desc"] else []) by {
      assert e[5..][1..] == e[6..];
    }
    assert Matching(e[4..], n) == (if n == 6 then ["shadorma"] else Matching(e[5..], n)) by {
      assert e[4..][1..] == e[5..];
    }
    assert Matching(e[3..], n) == (if n == 9 then ["nonet"] else Matching(e[4..], n)) by {
      assert e[3..][1..] == e[4..];
    }
    assert Matching(e[2..], n) == (if n == 5 then ["cinquain"] else Matching(e[3..], n)) by {
      assert e[2..][1..] == e[3..];
    }
    assert Matching(e[1..], n) == (if n == 5 then ["tanka", "cinquain"] else Matching(e[2..], n)) by {
      assert e[1..][1..] == e[2..];
    }
    assert Matching(e, n) == (if n == 3 then ["haiku"] else Matching(e[1..], n));
  }

  /** `detectPoemType`: filter the catalogue by line count, then walk the preference order. */
  method DetectPoemType(content: string) returns (key: string)
    ensures key == DetectSpec(content)
  {
    if IsBlank(content) {
      return "haiku";
    }
    var lineCount := WrittenLineCount(content);
    var matchingTypes := Matching(Entries, lineCount);
    if |matchingTypes| == 0 {
      return "haiku";
    }
    var preferred := FindPreferred(PreferenceOrder, matchingTypes);
    key := if preferred.Some? then preferred.value else matchingTypes[0];
  }

  /** The loop of `detectPoemType`: the first key in preference order that matches. */
  method FindPreferred(prefs: seq<string>, matching: seq<string>) returns (r: Option<string>)
    ensures r == FirstPreferred(prefs, matching)
  {
    var i := 0;
    while i < |prefs|
      invariant 0 <= i <= |prefs|
      invariant FirstPreferred(prefs, matching) == FirstPreferred(prefs[i..], matching)
    {
      assert prefs[i..][0] == prefs[i] && prefs[i..][1..] == prefs[i + 1..];
      if prefs[i] in matching {
        return Some(prefs[i]);
      }
      i := i + 1;
    }
    return None;
  }

  /**
   * Detection always names a form of the catalogue. Blank text is a haiku. Otherwise, when some
   * form has as many lines as the text has written lines, the form detected has that many; the
   * choice among equals prefers tanka to cinquain and the ascending etheree to the descending one;
   * and when none has, the answer falls back to haiku.
   */
  lemma DetectMeaning(content: string)
    ensures IsKey(DetectSpec(content))
    ensures IsBlank(content) ==> DetectSpec(content) == "haiku"
    ensures var n := WrittenLineCount(content);
            !IsBlank(content) && (exists k :: HasLines(k, n)) ==> HasLines(DetectSpec(content), n)
    ensures var n := WrittenLineCount(content);
            !IsBlank(content) && (forall k :: !HasLines(k, n)) ==> DetectSpec(content) == "haiku"
    ensures !IsBlank(content) ==>
              DetectSpec(content) == match WrittenLineCount(content)
                case 3 => "haiku"
                case 5 => "tanka"
                case 6 => "shadorma"
                case 9 => "nonet"
                case 10 => "etheree"
                case _ => "haiku"
  {
    if IsBlank(content) {
      assert Entries[0].key == "haiku";
    } else {
      var n := WrittenLineCount(content);
      DetectByCountTable(n);
      DetectedForm(n);
    }
  }

  /** Only 3, 5, 6, 9 and 10 lines are the length of some form. */
  lemma FormLengths(n: nat)
    ensures (exists k :: HasLines(k, n)) ==> n in {3, 5, 6, 9, 10}
  {
    if exists k :: HasLines(k, n) {
      var k :| HasLines(k, n);
      var i :| 0 <= i < |Entries| && Entries[i].key == k && |Entries[i].form.syllables| == n;
      assert i in {0, 1, 2, 3, 4, 5, 6};
    }
  }

  /** The form detected for `n` lines is a key of the catalogue, and has `n` lines whenever some form has. */
  lemma DetectedForm(n: nat)
    ensures IsKey(DetectByCount(n))
    ensures (exists k :: HasLines(k, n)) <==> n in {3, 5, 6, 9, 10}
    ensures n in {3, 5, 6, 9, 10} ==> HasLines(DetectByCount(n), n)
  {
    DetectByCountTable(n);
    FormLengths(n);
    var e := Entries;
    if n == 3 {
      assert HasLines("haiku", 3) by {
        assert e[0].key == "haiku" && |e[0].form.syllables| == 3;
      }
    } else if n == 5 {
      assert HasLines("tanka", 5) by {
        assert e[1].key == "tanka" && |e[1].form.syllables| == 5;
      }
    } else if n == 6 {
      assert HasLines("shadorma", 6) by {
        assert e[4].key == "shadorma" && |e[4].form.syllables| == 6;
      }
    } else if n == 9 {
      assert HasLines("nonet", 9) by {
        assert e[3].key == "nonet" && |e[3].form.syllables| == 9;
      }
    } else if n == 10 {
      assert HasLines("etheree", 10) by {
        assert e[5].key == "etheree" && |e[5].form.syllables| == 10;
      }
    } else {
      assert e[0].key == "haiku";
    }
  }

  /** The form detected for each number of written lines. */
  lemma DetectByCountTable(n: nat)
    ensures DetectByCount(n) == match n
      case 3 => "haiku"
      case 5 => "tanka"
      case 6 => "shadorma"
      case 9 => "nonet"
      case 10 => "etheree"
      case _ => "haiku"
    ensures Matching(Entries, n) != [] ==> FirstPreferred(PreferenceOrder, Matching(Entries, n)).Some?
  {
    MatchingTable(n);
    var po := PreferenceOrder;
    if n == 3 {
      FirstPreferredAt(po, ["haiku"], 0);
    } else if n == 5 {
      FirstPreferredAt(po, ["tanka", "cinquain"], 1);
    } else if n == 6 {
      FirstPreferredAt(po, ["shadorma"], 3);
    } else if n == 9 {
      FirstPreferredAt(po, ["nonet"], 4);
    } else if n == 10 {
      FirstPreferredAt(po, ["etheree", "etheree_desc"], 5);
    }
  }

  /** The preference walk stops at the first preferred key that matches. */
  lemma {:induction false} FirstPreferredAt(prefs: seq<string>, matching: seq<string>, i: nat)
    requires i < |prefs| && prefs[i] in matching
    requires forall j :: 0 <= j < i ==> prefs[j] !in matching
    ensures FirstPreferred(prefs, matching) == Some(prefs[i])
  {
    if i > 0 {
      assert prefs[1..][i - 1] == prefs[i];
      assert forall j :: 0 <= j < i - 1 ==> prefs[1..][j] == prefs[j + 1];
      FirstPreferredAt(prefs[1..], matching, i - 1);
    }
  }
}
