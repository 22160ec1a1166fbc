// The poem record store: IndexedDB's object store becomes a table in memory keyed by id, the
// clock and the id generator become arguments, and the reactive wrapper keeps a list of records.
module HaikuDb {
  import opened Wrappers
  import opened Text
  import opened Ordering

  /** The analysis a record may carry. */
  datatype Analysis = Analysis(rating: int, commentary: string, suggestedTags: seq<string>)

  /** A stored poem record. `None` is JavaScript's `null`. */
  datatype Haiku = Haiku(
    id: string, title: string, lines: seq<string>, text: string, tags: seq<string>, status: string,
    createdAt: int, updatedAt: int, analysis: Option<Analysis>, syncedAt: Option<int>, gistId: Option<string>)

  /**
   * The fields a caller passes to `create` or `update`: `None` leaves a field out, and for the
   * nullable fields `Some(None)` sets it to `null`.
   */
  datatype Patch = Patch(
    id: Option<string>, title: Option<string>, lines: Option<seq<string>>, text: Option<string>,
    tags: Option<seq<string>>, status: Option<string>, createdAt: Option<int>, updatedAt: Option<int>,
    analysis: Option<Option<Analysis>>, syncedAt: Option<Option<int>>, gistId: Option<Option<string>>)

  const NoFields: Patch := Patch(None, None, None, None, None, None, None, None, None, None, None)

  function Or<T>(o: Option<T>, d: T): T {
    if o.Some? then o.value else d
  }

  /** `{...h, ...p}`: each field `p` carries replaces the record's. */
  function Overlay(h: Haiku, p: Patch): Haiku {
    Haiku(Or(p.id, h.id), Or(p.title, h.title), Or(p.lines, h.lines), Or(p.text, h.text), Or(p.tags, h.tags),
          Or(p.status, h.status), Or(p.createdAt, h.createdAt), Or(p.updatedAt, h.updatedAt),
          Or(p.analysis, h.analysis), Or(p.syncedAt, h.syncedAt), Or(p.gistId, h.gistId))
  }

  /** Every field of a record, as a patch: `{...h}`. */
  function FieldsOf(h: Haiku): Patch {
    Patch(Some(h.id), Some(h.title), Some(h.lines), Some(h.text), Some(h.tags), Some(h.status), Some(h.createdAt),
          Some(h.updatedAt), Some(h.analysis), Some(h.syncedAt), Some(h.gistId))
  }

  /** Spreading all of a record's fields over another record gives that record. */
  lemma OverlayFields(g: Haiku, h: Haiku)
    ensures Overlay(g, FieldsOf(h)) == h
    ensures Overlay(h, NoFields) == h
  {
  }

  /** The argument of `create` leaves out `id` and the timestamps, but carries the poem itself. */
  predicate IsNewData(data: Patch) {
    data.title.Some? && data.lines.Some? && data.text.Some?
  }

  /**
   * The record `create` stores: a generated id, both timestamps `now`, status `"todo"`, no tags,
   * no analysis, never synced, and then every field the caller passed, `id` included.
   */
  function NewRecord(data: Patch, freshId: string, now: int): (h: Haiku)
    requires IsNewData(data)
    ensures h.title == data.title.value && h.lines == data.lines.value && h.text == data.text.value
    ensures h.id == (if data.id.Some? then data.id.value else freshId)
    ensures h.createdAt == (if data.createdAt.Some? then data.createdAt.value else now)
    ensures h.updatedAt == (if data.updatedAt.Some? then data.updatedAt.value else now)
    ensures h.status == (if data.status.Some? then data.status.value else "todo")
    ensures h.tags == (if data.tags.Some? then data.tags.value else [])
    ensures data.analysis.None? ==> h.analysis.None?
    ensures data.syncedAt.None? ==> h.syncedAt.None?
    ensures data.gistId.None? ==> h.gistId.None?
  {
    Overlay(Haiku(freshId, "", [], "", [], "todo", now, now, None, None, None), data)
  }

  /** The record `update` stores: the existing one overlaid with the updates, keeping its id, stamped `now`. */
  function Updated(existing: Haiku, updates: Patch, now: int): (h: Haiku)
    ensures h.id == existing.id && h.updatedAt == now
    ensures Overlay(existing, updates.(id := None, updatedAt := None)) == h.(updatedAt := existing.updatedAt)
  {
    Overlay(existing, updates).(id := existing.id, updatedAt := now)
  }

  /** Every record is stored under its own id. */
  predicate ValidTable(table: map<string, Haiku>) {
    forall id :: id in table ==> table[id].id == id
  }

  /** No two entries share an id. */
  predicate DistinctIds(hs: seq<Haiku>) {
    forall i, j :: 0 <= i < j < |hs| ==> hs[i].id != hs[j].id
  }

  // ---------------------------------------------------------------------------------------
  // The records in key order

  /** The records stored under `keys`, in that order. */
  function RecordsAt(table: map<string, Haiku>, keys: seq<string>): (r: seq<Haiku>)
    requires forall k :: k in keys ==> k in table
    ensures |r| == |keys|
    ensures forall i :: 0 <= i < |keys| ==> r[i] == table[keys[i]]
  {
    if keys == [] then []
    else
      var r := [table[keys[0]]] + RecordsAt(table, keys[1..]);
      assert forall i :: 1 <= i < |keys| ==> keys[i] == keys[1..][i - 1];
      r
  }

  /** What the object store's `getAll` returns: every record, in ascending order of id. */
  function Listed(table: map<string, Haiku>): seq<Haiku> {
    RecordsAt(table, Ascending(table.Keys))
  }

  /** The listing holds each stored record once, in ascending order of id. */
  lemma ListedMeaning(table: map<string, Haiku>)
    requires ValidTable(table)
    ensures |Listed(table)| == |table|
    ensures forall h :: h in Listed(table) <==> h in table.Values
    ensures DistinctIds(Listed(table))
    ensures forall i, j :: 0 <= i < j < |Listed(table)| ==> CompareText(Listed(table)[i].id, Listed(table)[j].id) < 0
  {
    var keys := Ascending(table.Keys);
    assert |table.Keys| == |table|;
    ListedHas(table, keys);
    ListedAscends(table, keys);
  }

  lemma ListedHas(table: map<string, Haiku>, keys: seq<string>)
    requires forall k :: k in keys <==> k in table
    ensures forall h :: h in RecordsAt(table, keys) <==> h in table.Values
  {
    var r := RecordsAt(table, keys);
    forall h | h in r ensures h in table.Values {
      var i :| 0 <= i < |r| && r[i] == h;
      assert keys[i] in table;
    }
    forall h | h in table.Values ensures h in r {
      var k :| k in table && table[k] == h;
      assert k in keys;
      var i :| 0 <= i < |keys| && keys[i] == k;
      assert r[i] == h;
    }
  }

  lemma ListedAscends(table: map<string, Haiku>, keys: seq<string>)
    requires ValidTable(table) && StrictlyAscending(keys)
    requires forall k :: k in keys ==> k in table
    ensures DistinctIds(RecordsAt(table, keys))
    ensures forall i, j :: 0 <= i < j < |keys| ==> CompareText(RecordsAt(table, keys)[i].id, RecordsAt(table, keys)[j].id) < 0
  {
    var r := RecordsAt(table, keys);
    forall i, j | 0 <= i < j < |r| ensures CompareText(r[i].id, r[j].id) < 0 && r[i].id != r[j].id {
      assert keys[i] in table && keys[j] in table;
      assert r[i].id == keys[i] && r[j].id == keys[j];
    }
  }

  // ---------------------------------------------------------------------------------------
  // getAll: filters and sorting

  /** The fields `getAll` can sort by; `Missing` is a name no record has, whose values are all `undefined`. */
  datatype SortField = Title | CreatedAt | UpdatedAt | Missing

  /** The options of `getAll`; `None` leaves an option out. */
  datatype Query = Query(status: Option<string>, tags: Option<seq<string>>, sortBy: Option<SortField>,
                         sortOrder: Option<string>, search: Option<string>)

  const NoQuery: Query := Query(None, None, None, None, None)

  /** A status filter applies only when given and non-empty. */
  predicate FiltersStatus(q: Query) { q.status.Some? && q.status.value != "" }

  /** A tag filter applies only when given and non-empty. */
  predicate FiltersTags(q: Query) { q.tags.Some? && |q.tags.value| > 0 }

  /** A search applies only when given and non-empty. */
  predicate Searches(q: Query) { q.search.Some? && q.search.value != "" }

  /** `h.analysis?.commentary || ''`. */
  function Commentary(h: Haiku): string {
    if h.analysis.Some? then h.analysis.value.commentary else ""
  }

  /** The text lowercased contains the (already lowercased) needle in the title, the text or the commentary. */
  predicate Mentions(h: Haiku, needle: string) {
    Contains(LowerAll(h.title), needle) || Contains(LowerAll(h.text), needle) || Contains(LowerAll(Commentary(h)), needle)
  }

  /** One of `getAll`'s filters. */
  datatype Filter = WithStatus(status: string) | WithTags(tags: seq<string>) | Mentioning(needle: string)

  predicate Admits(f: Filter, h: Haiku) {
    match f
    case WithStatus(s) => h.status == s
    case WithTags(ts) => forall t :: t in ts ==> t in h.tags
    case Mentioning(needle) => Mentions(h, needle)
  }

  /** `hs.filter(...)`: the records the filter admits, in order. */
  function Keep(hs: seq<Haiku>, f: Filter): (r: seq<Haiku>)
    ensures forall h :: h in r <==> h in hs && Admits(f, h)
    ensures |r| <= |hs|
  {
    if hs == [] then []
    else
      assert forall h :: h in hs <==> h == hs[0] || h in hs[1..];
      (if Admits(f, hs[0]) then [hs[0]] else []) + Keep(hs[1..], f)
  }

  /** Filtering records with distinct ids keeps them distinct. */
  lemma {:induction false} KeepDistinct(hs: seq<Haiku>, f: Filter)
    requires DistinctIds(hs)
    ensures DistinctIds(Keep(hs, f))
  {
    if hs != [] {
      var rest := hs[1..];
      assert DistinctIds(rest) by {
        forall i, j | 0 <= i < j < |rest| ensures rest[i].id != rest[j].id {
          assert rest[i] == hs[i + 1] && rest[j] == hs[j + 1];
        }
      }
      KeepDistinct(rest, f);
      var t := Keep(rest, f);
      if Admits(f, hs[0]) {
        forall y | y in t ensures y.id != hs[0].id {
          var j :| 0 <= j < |rest| && rest[j] == y;
          assert hs[j + 1] == y;
        }
        ConsDistinct(hs[0], t);
      }
    }
  }

  /** `h` passes every filter the options switch on. */
  predicate Passes(h: Haiku, q: Query) {
    (FiltersStatus(q) ==> h.status == q.status.value)
    && (FiltersTags(q) ==> forall t :: t in q.tags.value ==> t in h.tags)
    && (Searches(q) ==> Mentions(h, LowerAll(q.search.value)))
  }

  function Sign(x: int): int {
    if x < 0 then -1 else if x > 0 then 1 else 0
  }

  /** The comparison `getAll` sorts with, as -1, 0 or 1: by the field, strings lowercased; `'desc'` flips it; no field sorts newest first. */
  function Compare(q: Query, a: Haiku, b: Haiku): int {
    if q.sortBy.None? then Sign(b.updatedAt - a.updatedAt)
    else
      var c := match q.sortBy.value
        case Title => CompareText(LowerAll(a.title), LowerAll(b.title))
        case CreatedAt => Sign(a.createdAt - b.createdAt)
        case UpdatedAt => Sign(a.updatedAt - b.updatedAt)
        case Missing => 0;
      if q.sortOrder == Some("desc") then -c else c
  }

  /** The comparison is antisymmetric. */
  lemma CompareAntisymmetric(q: Query, a: Haiku, b: Haiku)
    ensures Compare(q, a, b) == -Compare(q, b, a)
  {
    CompareTextAntisymmetric(LowerAll(a.title), LowerAll(b.title));
  }

  /** The comparison is transitive. */
  lemma CompareTransitive(q: Query, a: Haiku, b: Haiku, c: Haiku)
    requires Compare(q, a, b) <= 0 && Compare(q, b, c) <= 0
    ensures Compare(q, a, c) <= 0
  {
    var x, y, z := LowerAll(a.title), LowerAll(b.title), LowerAll(c.title);
    if q.sortBy == Some(Title) {
      if q.sortOrder == Some("desc") {
        CompareTextAntisymmetric(x, y);
        CompareTextAntisymmetric(y, z);
        CompareTextAntisymmetric(x, z);
        CompareTextTransitive(z, y, x);
      } else {
        CompareTextTransitive(x, y, z);
      }
    }
  }

  /** Every record comes no later than every record after it. */
  predicate SortedBy(hs: seq<Haiku>, q: Query) {
    forall i, j :: 0 <= i < j < |hs| ==> Compare(q, hs[i], hs[j]) <= 0
  }

  /** Stable insertion: `x` goes before the first record it does not come after. */
  function Insert(x: Haiku, hs: seq<Haiku>, q: Query): (r: seq<Haiku>)
    ensures multiset(r) == multiset(hs) + multiset{x}
  {
    if hs == [] then [x]
    else if Compare(q, x, hs[0]) <= 0 then [x] + hs
    else
      assert hs == [hs[0]] + hs[1..];
      [hs[0]] + Insert(x, hs[1..], q)
  }

  /** `Array.prototype.sort` with the comparison, which is stable: records that compare equal keep their order. */
  function SortRecords(hs: seq<Haiku>, q: Query): (r: seq<Haiku>)
    ensures multiset(r) == multiset(hs)
  {
    if hs == [] then []
    else
      assert hs == [hs[0]] + hs[1..];
      Insert(hs[0], SortRecords(hs[1..], q), q)
  }

  /** Inserting into a sorted sequence keeps it sorted. */
  lemma {:induction false} InsertSorted(x: Haiku, hs: seq<Haiku>, q: Query)
    requires SortedBy(hs, q)
    ensures SortedBy(Insert(x, hs, q), q)
  {
    if hs == [] {
    } else if Compare(q, x, hs[0]) <= 0 {
      var r := [x] + hs;
      forall i, j | 0 <= i < j < |r| ensures Compare(q, r[i], r[j]) <= 0 {
        if i == 0 {
          if j > 1 {
            CompareTransitive(q, x, hs[0], hs[j - 1]);
          }
        } else {
          assert r[i] == hs[i - 1] && r[j] == hs[j - 1];
        }
      }
    } else {
      var rest := hs[1..];
      assert SortedBy(rest, q) by {
        forall i, j | 0 <= i < j < |rest| ensures Compare(q, rest[i], rest[j]) <= 0 {
          assert rest[i] == hs[i + 1] && rest[j] == hs[j + 1];
        }
      }
      InsertSorted(x, rest, q);
      CompareAntisymmetric(q, x, hs[0]);
      var t := Insert(x, rest, q);
      forall y | y in t ensures Compare(q, hs[0], y) <= 0 {
        assert y in multiset(t);
        if y != x {
          assert y in multiset(rest);
          var j :| 0 <= j < |rest| && rest[j] == y;
          assert hs[j + 1] == y;
        }
      }
      ConsSorted(hs[0], t, q);
    }
  }

  lemma ConsSorted(h: Haiku, t: seq<Haiku>, q: Query)
    requires SortedBy(t, q)
    requires forall y :: y in t ==> Compare(q, h, y) <= 0
    ensures SortedBy([h] + t, q)
  {
    var r := [h] + t;
    forall i, j | 0 <= i < j < |r| ensures Compare(q, r[i], r[j]) <= 0 {
      assert r[j] == t[j - 1];
      if i > 0 {
        assert r[i] == t[i - 1];
      } else {
        assert t[j - 1] in t;
      }
    }
  }

  /** The sort puts the records in order. */
  lemma {:induction false} SortRecordsSorted(hs: seq<Haiku>, q: Query)
    ensures SortedBy(SortRecords(hs, q), q)
  {
    if hs != [] {
      SortRecordsSorted(hs[1..], q);
      InsertSorted(hs[0], SortRecords(hs[1..], q), q);
    }
  }

  /** Inserting a record whose id is new keeps the ids distinct. */
  lemma {:induction false} InsertDistinct(x: Haiku, hs: seq<Haiku>, q: Query)
    requires DistinctIds(hs) && forall h :: h in hs ==> h.id != x.id
    ensures DistinctIds(Insert(x, hs, q))
  {
    if hs == [] {
    } else if Compare(q, x, hs[0]) <= 0 {
      var r := [x] + hs;
      forall i, j | 0 <= i < j < |r| ensures r[i].id != r[j].id {
        assert r[j] == hs[j - 1] && r[j] in hs;
        if i > 0 {
          assert r[i] == hs[i - 1];
        }
      }
    } else {
      var rest := hs[1..];
      assert DistinctIds(rest) by {
        forall i, j | 0 <= i < j < |rest| ensures rest[i].id != rest[j].id {
          assert rest[i] == hs[i + 1] && rest[j] == hs[j + 1];
        }
      }
      assert forall h :: h in rest ==> h in hs;
      InsertDistinct(x, rest, q);
      var t := Insert(x, rest, q);
      forall y | y in t ensures y.id != hs[0].id {
        assert y in multiset(t);
        if y != x {
          assert y in multiset(rest);
          var j :| 0 <= j < |rest| && rest[j] == y;
          assert hs[j + 1] == y;
        } else {
          assert hs[0] in hs;
        }
      }
      ConsDistinct(hs[0], t);
    }
  }

  lemma ConsDistinct(h: Haiku, t: seq<Haiku>)
    requires DistinctIds(t) && forall y :: y in t ==> y.id != h.id
    ensures DistinctIds([h] + t)
  {
    var r := [h] + t;
    forall i, j | 0 <= i < j < |r| ensures r[i].id != r[j].id {
      assert r[j] == t[j - 1];
      if i > 0 {
        assert r[i] == t[i - 1];
      } else {
        assert t[j - 1] in t;
      }
    }
  }

  /** Sorting records with distinct ids keeps them distinct. */
  lemma {:induction false} SortDistinct(hs: seq<Haiku>, q: Query)
    requires DistinctIds(hs)
    ensures DistinctIds(SortRecords(hs, q))
  {
    if hs != [] {
      var rest := hs[1..];
      assert DistinctIds(rest) by {
        forall i, j | 0 <= i < j < |rest| ensures rest[i].id != rest[j].id {
          assert rest[i] == hs[i + 1] && rest[j] == hs[j + 1];
        }
      }
      SortDistinct(rest, q);
      var t := SortRecords(rest, q);
      forall y | y in t ensures y.id != hs[0].id {
        assert y in multiset(rest);
        var j :| 0 <= j < |rest| && rest[j] == y;
        assert hs[j + 1] == y;
      }
      InsertDistinct(hs[0], t, q);
    }
  }

  /** The three filters of `getAll`, each applied only when its option is switched on. */
  function Filtered(hs: seq<Haiku>, q: Query): seq<Haiku> {
    var hs1 := if FiltersStatus(q) then Keep(hs, WithStatus(q.status.value)) else hs;
    var hs2 := if FiltersTags(q) then Keep(hs1, WithTags(q.tags.value)) else hs1;
    if Searches(q) then Keep(hs2, Mentioning(LowerAll(q.search.value))) else hs2
  }

  /** The filters together keep exactly the records that pass them all. */
  lemma FilteredMeaning(hs: seq<Haiku>, q: Query)
    ensures forall h :: h in Filtered(hs, q) <==> h in hs && Passes(h, q)
    ensures |Filtered(hs, q)| <= |hs|
    ensures DistinctIds(hs) ==> DistinctIds(Filtered(hs, q))
  {
    if DistinctIds(hs) {
      var hs1 := if FiltersStatus(q) then Keep(hs, WithStatus(q.status.value)) else hs;
      if FiltersStatus(q) {
        KeepDistinct(hs, WithStatus(q.status.value));
      }
      var hs2 := if FiltersTags(q) then Keep(hs1, WithTags(q.tags.value)) else hs1;
      if FiltersTags(q) {
        KeepDistinct(hs1, WithTags(q.tags.value));
      }
      if Searches(q) {
        KeepDistinct(hs2, Mentioning(LowerAll(q.search.value)));
      }
    }
  }

  /** The records `getAll` returns for the options, as the source computes them. */
  function GetAllSpec(table: map<string, Haiku>, q: Query): seq<Haiku> {
    SortRecords(Filtered(Listed(table), q), q)
  }

  /**
   * `getAll` returns exactly the stored records that pass the filters, each once, sorted by the
   * options' comparison.
   */
  lemma GetAllMeaning(table: map<string, Haiku>, q: Query)
    requires ValidTable(table)
    ensures forall h :: h in GetAllSpec(table, q) <==> h in table.Values && Passes(h, q)
    ensures DistinctIds(GetAllSpec(table, q))
    ensures SortedBy(GetAllSpec(table, q), q)
    ensures |GetAllSpec(table, q)| <= |table|
  {
    ListedMeaning(table);
    var hs := Filtered(Listed(table), q);
    FilteredMeaning(Listed(table), q);
    var r := SortRecords(hs, q);
    assert forall h :: h in r <==> h in multiset(hs);
    SortDistinct(hs, q);
    SortRecordsSorted(hs, q);
    assert |r| == |multiset(hs)|;
  }

  /** With no options, `getAll` returns every record. */
  lemma GetAllEverything(table: map<string, Haiku>)
    requires ValidTable(table)
    ensures |GetAllSpec(table, NoQuery)| == |table|
    ensures forall h :: h in GetAllSpec(table, NoQuery) <==> h in table.Values
  {
    ListedMeaning(table);
    var r := GetAllSpec(table, NoQuery);
    assert |multiset(r)| == |multiset(Listed(table))|;
    assert forall h :: h in r <==> h in multiset(Listed(table));
  }

  // ---------------------------------------------------------------------------------------
  // Statistics

  /** How many records of each status, in the order the keys first appear. */
  datatype StatusCount = StatusCount(status: string, count: nat)

  datatype Stats = Stats(total: nat, byStatus: seq<StatusCount>, analyzed: nat, synced: nat)

  /** `syncedAt` is truthy: present and not 0. */
  predicate IsSynced(h: Haiku) {
    h.syncedAt.Some? && h.syncedAt.value != 0
  }

  function SumCounts(b: seq<StatusCount>): nat {
    if b == [] then 0 else b[0].count + SumCounts(b[1..])
  }

  /** `byStatus[t]`: the count of the entry for `t`, or 0 when there is none. */
  function CountOf(b: seq<StatusCount>, t: string): nat {
    if b == [] then 0 else if b[0].status == t then b[0].count else CountOf(b[1..], t)
  }

  lemma {:induction false} NoCounts(b: seq<StatusCount>, t: string)
    requires forall i :: 0 <= i < |b| ==> b[i].count == 0
    ensures CountOf(b, t) == 0
  {
    if b != [] {
      NoCounts(b[1..], t);
    }
  }

  /** `byStatus[s] = (byStatus[s] || 0) + 1`: bump the entry for `s`, or add one at the end. */
  function Bump(b: seq<StatusCount>, s: string): (r: seq<StatusCount>)
    ensures |b| <= |r|
    ensures forall i :: 0 <= i < |b| ==> r[i].status == b[i].status
    ensures SumCounts(r) == SumCounts(b) + 1
    ensures forall t :: CountOf(r, t) == CountOf(b, t) + (if t == s then 1 else 0)
  {
    if b == [] then [StatusCount(s, 1)]
    else if b[0].status == s then [b[0].(count := b[0].count + 1)] + b[1..]
    else
      var r := [b[0]] + Bump(b[1..], s);
      assert r[1..] == Bump(b[1..], s);
      r
  }

  /** How many of the records have status `t`. */
  function StatusTally(hs: seq<Haiku>, t: string): nat {
    if hs == [] then 0 else StatusTally(hs[..|hs| - 1], t) + (if hs[|hs| - 1].status == t then 1 else 0)
  }

  function AnalyzedTally(hs: seq<Haiku>): nat {
    if hs == [] then 0 else AnalyzedTally(hs[..|hs| - 1]) + (if hs[|hs| - 1].analysis.Some? then 1 else 0)
  }

  function SyncedTally(hs: seq<Haiku>): nat {
    if hs == [] then 0 else SyncedTally(hs[..|hs| - 1]) + (if IsSynced(hs[|hs| - 1]) then 1 else 0)
  }

  const StatusStart: seq<StatusCount> := [StatusCount("todo", 0), StatusCount("in_progress", 0), StatusCount("done", 0)]

  // ---------------------------------------------------------------------------------------
  // The database

  const CreateConflict := "Key already exists in the object store."

  class HaikuDatabase {
    /** The object store, keyed by id. */
    var table: map<string, Haiku>

    ghost predicate Valid()
      reads this
    {
      ValidTable(table)
    }

    constructor()
      ensures Valid() && table == map[]
    {
      table := map[];
    }

    /**
     * `create`: build the record from the defaults and the caller's fields and add it; adding an
     * id the store already holds fails and changes nothing.
     */
    method Create(data: Patch, freshId: string, now: int) returns (r: Result<Haiku>)
      requires Valid() && IsNewData(data)
      modifies this
      ensures Valid()
      ensures NewRecord(data, freshId, now).id in old(table) ==>
                r == Err("Failed to create haiku: " + CreateConflict) && table == old(table)
      ensures NewRecord(data, freshId, now).id !in old(table) ==>
                r == Ok(NewRecord(data, freshId, now)) && table == old(table)[r.value.id := r.value]
    {
      var h := NewRecord(data, freshId, now);
      if h.id in table {
        return Err("Failed to create haiku: " + CreateConflict);
      }
      table := table[h.id := h];
      return Ok(h);
    }

    /** `get`: the record stored under `id`, or `null`. */
    method Get(id: string) returns (r: Option<Haiku>)
      requires Valid()
      ensures r.Some? <==> id in table
      ensures r.Some? ==> r.value == table[id] && r.value.id == id
    {
      if id in table {
        return Some(table[id]);
      }
      return None;
    }

    /**
     * `update`: fails when `id` is not stored; otherwise the stored record becomes the existing
     * one overlaid with the updates, with its id kept and `updatedAt` = `now`.
     */
    method Update(id: string, updates: Patch, now: int) returns (r: Result<Haiku>)
      requires Valid()
      modifies this
      ensures Valid()
      ensures id !in old(table) ==> r == Err("Haiku with id " + id + " not found") && table == old(table)
      ensures id in old(table) ==>
                r == Ok(Updated(old(table)[id], updates, now)) && table == old(table)[id := r.value]
    {
      var existing := Get(id);
      if existing.None? {
        return Err("Haiku with id " + id + " not found");
      }
      var h := Updated(existing.value, updates, now);
      table := table[id := h];
      return Ok(h);
    }

    /** `delete`: removes the record stored under `id`, if any, and nothing else. */
    method Delete(id: string)
      requires Valid()
      modifies this
      ensures Valid()
      ensures table == old(table) - {id}
    {
      table := table - {id};
    }

    /** `clear`: removes every record. */
    method Clear()
      modifies this
      ensures Valid()
      ensures table == map[]
    {
      table := map[];
    }

    /** `getAll`: the stored records that pass the filters, each once, sorted. */
    method GetAll(q: Query) returns (r: seq<Haiku>)
      requires Valid()
      ensures r == GetAllSpec(table, q)
      ensures forall h :: h in r <==> h in table.Values && Passes(h, q)
      ensures DistinctIds(r) && SortedBy(r, q)
    {
      var haikus := Listed(table);
      if FiltersStatus(q) {
        haikus := Keep(haikus, WithStatus(q.status.value));
      }
      if FiltersTags(q) {
        haikus := Keep(haikus, WithTags(q.tags.value));
      }
      if Searches(q) {
        haikus := Keep(haikus, Mentioning(LowerAll(q.search.value)));
      }
      assert haikus == Filtered(Listed(table), q);
      r := SortRecords(haikus, q);
      GetAllMeaning(table, q);
    }

    /** `search`: a blank query lists everything as `getAll()` does; any other searches for the query as given. */
    method Search(query: string) returns (r: seq<Haiku>)
      requires Valid()
      ensures Trim(query) == [] ==> r == GetAllSpec(table, NoQuery)
      ensures Trim(query) != [] ==> r == GetAllSpec(table, NoQuery.(search := Some(query)))
      ensures Trim(query) != [] ==> forall h :: h in r <==> h in table.Values && Mentions(h, LowerAll(query))
    {
      if Trim(query) == [] {
        r := GetAll(NoQuery);
        return;
      }
      assert query != [];
      r := GetAll(NoQuery.(search := Some(query)));
    }

    /** `getAllTags`: every tag of every record, once each, in ascending order. */
    method GetAllTags() returns (tags: seq<string>)
      requires Valid()
      ensures StrictlyAscending(tags)
      ensures forall t :: t in tags <==> exists h :: h in table.Values && t in h.tags
    {
      var haikus := GetAll(NoQuery);
      GetAllEverything(table);
      var tagSet := CollectTags(haikus);
      tags := Ascending(tagSet);
    }

    /** `getStats`: the number of records, how many have each status, how many are analyzed and how many synced. */
    method GetStats() returns (stats: Stats)
      requires Valid()
      ensures stats.total == |table|
      ensures SumCounts(stats.byStatus) == stats.total
      ensures forall t :: CountOf(stats.byStatus, t) == StatusTally(GetAllSpec(table, NoQuery), t)
      ensures stats.analyzed == AnalyzedTally(GetAllSpec(table, NoQuery))
      ensures stats.synced == SyncedTally(GetAllSpec(table, NoQuery))
      ensures |stats.byStatus| >= 3 && forall i :: 0 <= i < 3 ==> stats.byStatus[i].status == StatusStart[i].status
    {
      var haikus := GetAll(NoQuery);
      GetAllEverything(table);
      stats := CountStats(haikus);
    }
  }

  /** `haikus.forEach(haiku => haiku.tags.forEach(tag => tagSet.add(tag)))`: every tag of every record. */
  method CollectTags(haikus: seq<Haiku>) returns (tagSet: set<string>)
    ensures forall t :: t in tagSet <==> exists h :: h in haikus && t in h.tags
  {
    tagSet := {};
    for i := 0 to |haikus|
      invariant forall t :: t in tagSet <==> exists h :: h in haikus[..i] && t in h.tags
    {
      assert forall h :: h in haikus[..i + 1] <==> h in haikus[..i] || h == haikus[i];
      tagSet := AddTags(tagSet, haikus[i].tags);
    }
    assert haikus[..|haikus|] == haikus;
  }

  /** `tags.forEach(tag => tagSet.add(tag))`. */
  method AddTags(tagSet: set<string>, tags: seq<string>) returns (r: set<string>)
    ensures r == tagSet + set t | t in tags
  {
    r := tagSet;
    for j := 0 to |tags|
      invariant r == tagSet + set t | t in tags[..j]
    {
      r := r + {tags[j]};
      assert tags[..j + 1] == tags[..j] + [tags[j]];
    }
    assert tags[..|tags|] == tags;
  }

  /** The counting loop of `getStats` over the listed records. */
  method CountStats(haikus: seq<Haiku>) returns (stats: Stats)
    ensures stats.total == |haikus|
    ensures SumCounts(stats.byStatus) == stats.total
    ensures forall t :: CountOf(stats.byStatus, t) == StatusTally(haikus, t)
    ensures stats.analyzed == AnalyzedTally(haikus)
    ensures stats.synced == SyncedTally(haikus)
    ensures |stats.byStatus| >= 3 && forall i :: 0 <= i < 3 ==> stats.byStatus[i].status == StatusStart[i].status
  {
    var byStatus := StatusStart;
    var analyzed, synced := 0, 0;
    forall t ensures CountOf(StatusStart, t) == 0 {
      NoCounts(StatusStart, t);
    }
    for i := 0 to |haikus|
      invariant SumCounts(byStatus) == i
      invariant forall t :: CountOf(byStatus, t) == StatusTally(haikus[..i], t)
      invariant analyzed == AnalyzedTally(haikus[..i]) && synced == SyncedTally(haikus[..i])
      invariant |byStatus| >= 3 && forall k :: 0 <= k < 3 ==> byStatus[k].status == StatusStart[k].status
    {
      assert haikus[..i + 1][..i] == haikus[..i];
      byStatus := Bump(byStatus, haikus[i].status);
      if haikus[i].analysis.Some? {
        analyzed := analyzed + 1;
      }
      if IsSynced(haikus[i]) {
        synced := synced + 1;
      }
    }
    assert haikus[..|haikus|] == haikus;
    stats := Stats(|haikus|, byStatus, analyzed, synced);
  }

  // ---------------------------------------------------------------------------------------
  // The reactive wrapper's list

  /** `haikus.filter(h => h.id !== id)`. */
  function Without(hs: seq<Haiku>, id: string): (r: seq<Haiku>)
    ensures forall h :: h in r <==> h in hs && h.id != id
    ensures |r| <= |hs|
  {
    if hs == [] then []
    else
      var rest := Without(hs[1..], id);
      assert forall h :: h in hs <==> h == hs[0] || h in hs[1..];
      if hs[0].id == id then rest else [hs[0]] + rest
  }

  /** `haikus.map(h => h.id === id ? updated : h)`. */
  function Replace(hs: seq<Haiku>, id: string, updated: Haiku): (r: seq<Haiku>)
    ensures |r| == |hs|
    ensures forall i :: 0 <= i < |hs| ==> r[i] == (if hs[i].id == id then updated else hs[i])
  {
    if hs == [] then [] else [if hs[0].id == id then updated else hs[0]] + Replace(hs[1..], id, updated)
  }

  /** Replacing leaves every other record where it was: removing the id before or after gives the same list. */
  lemma {:induction false} ReplaceOthers(hs: seq<Haiku>, id: string, updated: Haiku)
    requires updated.id == id
    ensures Without(Replace(hs, id, updated), id) == Without(hs, id)
  {
    if hs != [] {
      ReplaceOthers(hs[1..], id, updated);
    }
  }

  /** Removing an id twice is removing it once, and no record with that id is left. */
  lemma {:induction false} WithoutIdempotent(hs: seq<Haiku>, id: string)
    ensures Without(Without(hs, id), id) == Without(hs, id)
  {
    if hs != [] {
      WithoutIdempotent(hs[1..], id);
    }
  }

  /** The reactive wrapper: the database and the list its subscribers see. */
  class HaikuStore {
    const db: HaikuDatabase
    var list: seq<Haiku>

    ghost predicate Valid()
      reads this, db
    {
      db.Valid()
    }

    constructor(db: HaikuDatabase)
      requires db.Valid()
      ensures Valid() && this.db == db && list == []
    {
      this.db := db;
      list := [];
    }

    /** `load`: the list becomes what `getAll` returns. */
    method Load(q: Query) returns (r: seq<Haiku>)
      requires Valid()
      modifies this
      ensures Valid() && r == GetAllSpec(db.table, q) && list == r
    {
      r := db.GetAll(q);
      list := r;
    }

    /** `create`: a created record goes to the front of the list; a failure changes nothing. */
    method Create(data: Patch, freshId: string, now: int) returns (r: Result<Haiku>)
      requires Valid() && IsNewData(data)
      modifies this, db
      ensures Valid()
      ensures r.Ok? ==> list == [r.value] + old(list) && db.table == old(db.table)[r.value.id := r.value]
      ensures r.Err? ==> list == old(list) && db.table == old(db.table)
    {
      r := db.Create(data, freshId, now);
      if r.Ok? {
        list := [r.value] + list;
      }
    }

    /** `update`: every listed record with the id is replaced by the updated one; a failure changes nothing. */
    method Update(id: string, updates: Patch, now: int) returns (r: Result<Haiku>)
      requires Valid()
      modifies this, db
      ensures Valid()
      ensures r.Ok? ==> list == Replace(old(list), id, r.value) && db.table == old(db.table)[id := r.value]
      ensures r.Err? ==> list == old(list) && db.table == old(db.table)
    {
      r := db.Update(id, updates, now);
      if r.Ok? {
        list := Replace(list, id, r.value);
      }
    }

    /** `delete`: the record leaves the table and the list. */
    method Delete(id: string)
      requires Valid()
      modifies this, db
      ensures Valid()
      ensures list == Without(old(list), id) && db.table == old(db.table) - {id}
    {
      db.Delete(id);
      list := Without(list, id);
    }

    /** `search`: the list becomes the search results. */
    method Search(query: string) returns (r: seq<Haiku>)
      requires Valid()
      modifies this
      ensures Valid() && list == r
      ensures Trim(query) == [] ==> r == GetAllSpec(db.table, NoQuery)
      ensures Trim(query) != [] ==> r == GetAllSpec(db.table, NoQuery.(search := Some(query)))
    {
      r := db.Search(query);
      list := r;
    }

    /** `getStats`: the database's statistics; the list is not touched. */
    method GetStats() returns (stats: Stats)
      requires Valid()
      ensures stats.total == |db.table|
      ensures SumCounts(stats.byStatus) == stats.total
      ensures forall t :: CountOf(stats.byStatus, t) == StatusTally(GetAllSpec(db.table, NoQuery), t)
      ensures stats.analyzed == AnalyzedTally(GetAllSpec(db.table, NoQuery))
      ensures stats.synced == SyncedTally(GetAllSpec(db.table, NoQuery))
      ensures |stats.byStatus| >= 3 && forall i :: 0 <= i < 3 ==> stats.byStatus[i].status == StatusStart[i].status
    {
      stats := db.GetStats();
    }

    /** `getAllTags`: the database's tags; the list is not touched. */
    method GetAllTags() returns (tags: seq<string>)
      requires Valid()
      ensures StrictlyAscending(tags)
      ensures forall t :: t in tags <==> exists h :: h in db.table.Values && t in h.tags
    {
      tags := db.GetAllTags();
    }

    /** `clear`: the table and the list become empty. */
    method Clear()
      requires Valid()
      modifies this, db
      ensures Valid() && list == [] && db.table == map[]
    {
      db.Clear();
      list := [];
    }
  }
}
