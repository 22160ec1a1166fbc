// Syncing the poem records with a private GitHub gist: finding the gist, pulling and merging its
// records, pushing the local records and stamping them, the two in sequence, and the status
// summary. Every reply from GitHub is an argument, and so is the clock.
module GitHubSync {
  import opened Wrappers
  import opened Text
  import opened JsValues
  import opened HaikuDb
  import Auth

  const GistFilename := "haikus.json"
  const GistDescription := "Haiku Collection - Synced from Not a Haiku app"
  const NotAuthenticated := "Not authenticated with GitHub"

  datatype GistFile = GistFile(content: Option<string>)

  /** A gist as the listing and the single-gist request describe it. */
  datatype Gist = Gist(id: string, description: string, files: map<string, GistFile>)

  /** The app's gist: its description and a `haikus.json` file. */
  predicate IsHaikuGist(g: Gist) {
    g.description == GistDescription && GistFilename in g.files
  }

  /** `gists.find(...) || null`: the first of the app's gists in the listing. */
  function FirstHaikuGist(gists: seq<Gist>): (r: Option<Gist>)
    ensures r.None? <==> forall i :: 0 <= i < |gists| ==> !IsHaikuGist(gists[i])
    ensures r.Some? ==> exists i :: 0 <= i < |gists| && gists[i] == r.value && IsHaikuGist(r.value) &&
                          forall j :: 0 <= j < i ==> !IsHaikuGist(gists[j])
  {
    if gists == [] then None
    else if IsHaikuGist(gists[0]) then Some(gists[0])
    else
      assert forall j :: 1 <= j < |gists| ==> gists[j] == gists[1..][j - 1];
      FirstHaikuGist(gists[1..])
  }

  /** `getAuthToken`: the access token while signed in, else `null`. */
  function AuthToken(auth: Object): Json {
    if Truthy(Field(auth, Auth.IsAuthenticatedKey)) then Field(auth, Auth.AccessTokenKey) else JNull
  }

  predicate SignedIn(auth: Object) {
    Truthy(AuthToken(auth))
  }

  /**
   * `findHaikuGist`: the request throws without a token, and any failure of the listing is
   * swallowed, so both give no gist.
   */
  function FindHaikuGist(auth: Object, listing: Result<seq<Gist>>): Option<Gist> {
    if !SignedIn(auth) || listing.Err? then None else FirstHaikuGist(listing.value)
  }

  /** `gist.files[GIST_FILENAME]?.content`. */
  function FileContent(g: Gist): Option<string> {
    if GistFilename in g.files then g.files[GistFilename].content else None
  }

  // ---------------------------------------------------------------------------------------
  // Merging the gist's records into the table

  /** What a pull stamps on the records it writes, and the clock reading of that pull. */
  datatype ImportStamp = ImportStamp(syncedAt: Option<int>, gistId: string, now: int)

  /** `{...remoteHaiku, syncedAt: gistData.syncedAt, gistId: existingGist.id}`. */
  function ImportData(remote: Haiku, stamp: ImportStamp): Patch {
    FieldsOf(remote).(syncedAt := Some(stamp.syncedAt), gistId := Some(Some(stamp.gistId)))
  }

  /**
   * The record an import creates: the remote record as it is, with the gist's sync time and id
   * (the remote `id` overrides the generated one, which is therefore passed as that `id`).
   */
  function Imported(remote: Haiku, stamp: ImportStamp): (h: Haiku)
    ensures h == remote.(syncedAt := stamp.syncedAt, gistId := Some(stamp.gistId))
  {
    NewRecord(ImportData(remote, stamp), remote.id, stamp.now)
  }

  /**
   * What a newer remote record makes of the local one: the remote fields with the gist's sync
   * time and id, under the local id, and `updatedAt` the time of the pull.
   */
  function Refreshed(local: Haiku, remote: Haiku, stamp: ImportStamp): (h: Haiku)
    ensures h == remote.(id := local.id, syncedAt := stamp.syncedAt, gistId := Some(stamp.gistId), updatedAt := stamp.now)
  {
    Updated(local, ImportData(remote, stamp), stamp.now)
  }

  /** Why a write of the pull loop threw: `create` found the id taken, or `update` did not find it. */
  datatype WriteError = AlreadyStored | NotStored(id: string)

  /** The message the database's error carries. */
  function ErrorMessage(e: WriteError): string {
    match e
    case AlreadyStored => "Failed to create haiku: " + CreateConflict
    case NotStored(id) => "Haiku with id " + id + " not found"
  }

  /** The table while the pull loop runs, its two counters, and the error that ended it, if any. */
  datatype Merge = Merge(table: map<string, Haiku>, imported: nat, updated: nat, failure: Option<WriteError>)

  /**
   * One turn of the pull loop. `snapshot` is the table as `getAll` listed it before the loop: a
   * record it does not hold is created (which throws when an earlier remote record with the same
   * id was already created), one it holds with a strictly older `updatedAt` is updated, any other
   * is skipped. Once a write has thrown, nothing more happens.
   */
  function MergeStep(m: Merge, snapshot: map<string, Haiku>, remote: Haiku, stamp: ImportStamp): Merge {
    if m.failure.Some? then m
    else if remote.id !in snapshot then
      if remote.id in m.table then m.(failure := Some(AlreadyStored))
      else m.(table := m.table[remote.id := Imported(remote, stamp)], imported := m.imported + 1)
    else if remote.updatedAt > snapshot[remote.id].updatedAt then
      if remote.id !in m.table then m.(failure := Some(NotStored(remote.id)))
      else m.(table := m.table[remote.id := Refreshed(m.table[remote.id], remote, stamp)], updated := m.updated + 1)
    else m
  }

  /** The pull loop over the remote records, starting from the snapshot itself. */
  function MergeAll(snapshot: map<string, Haiku>, remotes: seq<Haiku>, stamp: ImportStamp): (m: Merge)
    ensures m.imported + m.updated <= |remotes|
    ensures ValidTable(snapshot) ==> ValidTable(m.table)
  {
    if remotes == [] then Merge(snapshot, 0, 0, None)
    else MergeStep(MergeAll(snapshot, remotes[..|remotes| - 1], stamp), snapshot, remotes[|remotes| - 1], stamp)
  }

  /** Once a write has thrown, the rest of the loop changes nothing. */
  lemma {:induction false} MergeStopsAtFailure(snapshot: map<string, Haiku>, remotes: seq<Haiku>, stamp: ImportStamp, i: nat)
    requires i <= |remotes|
    requires MergeAll(snapshot, remotes[..i], stamp).failure.Some?
    ensures MergeAll(snapshot, remotes, stamp) == MergeAll(snapshot, remotes[..i], stamp)
    decreases |remotes| - i
  {
    if i < |remotes| {
      var n := |remotes|;
      assert remotes[..i + 1][..i] == remotes[..i];
      MergeStopsAtFailure(snapshot, remotes, stamp, i + 1);
    } else {
      assert remotes[..i] == remotes;
    }
  }

  /** The ids the remote records carry. */
  function IdsOf(hs: seq<Haiku>): set<string> {
    set h | h in hs :: h.id
  }

  /** What a remote record leaves under its id, judged on its own against the snapshot. */
  function Resolved(snapshot: map<string, Haiku>, remote: Haiku, stamp: ImportStamp): Haiku {
    if remote.id !in snapshot then Imported(remote, stamp)
    else if remote.updatedAt > snapshot[remote.id].updatedAt then Refreshed(snapshot[remote.id], remote, stamp)
    else snapshot[remote.id]
  }

  /** How many remote records carry an id the snapshot does not hold. */
  function NewCount(snapshot: map<string, Haiku>, remotes: seq<Haiku>): nat {
    if remotes == [] then 0
    else NewCount(snapshot, remotes[..|remotes| - 1]) + (if remotes[|remotes| - 1].id !in snapshot then 1 else 0)
  }

  /** How many remote records are strictly newer than the snapshot's record with their id. */
  function NewerCount(snapshot: map<string, Haiku>, remotes: seq<Haiku>): nat {
    if remotes == [] then 0
    else
      var r := remotes[|remotes| - 1];
      NewerCount(snapshot, remotes[..|remotes| - 1]) + (if r.id in snapshot && r.updatedAt > snapshot[r.id].updatedAt then 1 else 0)
  }

  lemma IdsOfSnoc(xs: seq<Haiku>)
    requires xs != []
    ensures IdsOf(xs) == IdsOf(xs[..|xs| - 1]) + {xs[|xs| - 1].id}
  {
    assert forall g :: g in xs <==> g in xs[..|xs| - 1] || g == xs[|xs| - 1];
  }

  /**
   * The table the remote records `xs` leave when each is judged on its own against the snapshot,
   * a later record with the same id overwriting an earlier one.
   */
  function Expected(snapshot: map<string, Haiku>, xs: seq<Haiku>, stamp: ImportStamp): (t: map<string, Haiku>)
    ensures forall k :: k in t <==> k in snapshot || k in IdsOf(xs)
    ensures forall k :: k in snapshot && k !in IdsOf(xs) ==> t[k] == snapshot[k]
  {
    if xs == [] then
      assert IdsOf(xs) == {};
      snapshot
    else
      IdsOfSnoc(xs);
      Expected(snapshot, xs[..|xs| - 1], stamp)[xs[|xs| - 1].id := Resolved(snapshot, xs[|xs| - 1], stamp)]
  }

  /** With distinct ids, each remote record's id holds what that record resolves to on its own. */
  lemma {:induction false} ExpectedResolves(snapshot: map<string, Haiku>, xs: seq<Haiku>, stamp: ImportStamp)
    requires DistinctIds(xs)
    ensures forall i :: 0 <= i < |xs| ==>
              xs[i].id in Expected(snapshot, xs, stamp) &&
              Expected(snapshot, xs, stamp)[xs[i].id] == Resolved(snapshot, xs[i], stamp)
  {
    if xs != [] {
      var n := |xs| - 1;
      DistinctPrefix(xs);
      ExpectedResolves(snapshot, xs[..n], stamp);
      forall i | 0 <= i < n ensures xs[i].id != xs[n].id && xs[i] == xs[..n][i] {
      }
    }
  }

  /**
   * When the remote ids are distinct, the pull loop never throws and leaves the table of
   * `Expected`, and its counters count the new and the strictly newer records.
   */
  lemma {:induction false} MergeMeaning(snapshot: map<string, Haiku>, remotes: seq<Haiku>, stamp: ImportStamp)
    requires DistinctIds(remotes)
    ensures MergeAll(snapshot, remotes, stamp).failure.None?
    ensures MergeAll(snapshot, remotes, stamp).table == Expected(snapshot, remotes, stamp)
    ensures MergeAll(snapshot, remotes, stamp).imported == NewCount(snapshot, remotes)
    ensures MergeAll(snapshot, remotes, stamp).updated == NewerCount(snapshot, remotes)
  {
    if remotes != [] {
      var n := |remotes| - 1;
      DistinctPrefix(remotes);
      MergeMeaning(snapshot, remotes[..n], stamp);
      NotEarlier(remotes);
      MergeStepResolves(MergeAll(snapshot, remotes[..n], stamp), snapshot, remotes[n], stamp);
    }
  }

  /**
   * The pull loop over remote records with distinct ids: it never throws; each remote record's id
   * holds what that record resolves to on its own; every other record is untouched; the counters
   * count the new and the strictly newer records.
   */
  lemma MergeOutcome(snapshot: map<string, Haiku>, remotes: seq<Haiku>, stamp: ImportStamp)
    requires DistinctIds(remotes)
    ensures MergeAll(snapshot, remotes, stamp).failure.None?
    ensures forall k :: k in MergeAll(snapshot, remotes, stamp).table <==> k in snapshot || k in IdsOf(remotes)
    ensures forall i :: 0 <= i < |remotes| ==>
              remotes[i].id in MergeAll(snapshot, remotes, stamp).table &&
              MergeAll(snapshot, remotes, stamp).table[remotes[i].id] == Resolved(snapshot, remotes[i], stamp)
    ensures forall k :: k in snapshot && k !in IdsOf(remotes) ==> MergeAll(snapshot, remotes, stamp).table[k] == snapshot[k]
    ensures MergeAll(snapshot, remotes, stamp).imported == NewCount(snapshot, remotes)
    ensures MergeAll(snapshot, remotes, stamp).updated == NewerCount(snapshot, remotes)
  {
    MergeMeaning(snapshot, remotes, stamp);
    ExpectedResolves(snapshot, remotes, stamp);
  }

  lemma DistinctPrefix(remotes: seq<Haiku>)
    requires remotes != [] && DistinctIds(remotes)
    ensures DistinctIds(remotes[..|remotes| - 1])
  {
    var xs := remotes[..|remotes| - 1];
    forall i, j | 0 <= i < j < |xs| ensures xs[i].id != xs[j].id {
      assert xs[i] == remotes[i] && xs[j] == remotes[j];
    }
  }

  /** The last id of a list with distinct ids is not among the earlier ones. */
  lemma NotEarlier(remotes: seq<Haiku>)
    requires remotes != [] && DistinctIds(remotes)
    ensures remotes[|remotes| - 1].id !in IdsOf(remotes[..|remotes| - 1])
  {
  }

  /** A turn for an id the loop has not seen leaves what that record resolves to on its own. */
  lemma MergeStepResolves(m: Merge, snapshot: map<string, Haiku>, x: Haiku, stamp: ImportStamp)
    requires m.failure.None?
    requires x.id in m.table <==> x.id in snapshot
    requires x.id in m.table ==> m.table[x.id] == snapshot[x.id]
    ensures MergeStep(m, snapshot, x, stamp).failure.None?
    ensures MergeStep(m, snapshot, x, stamp).table == m.table[x.id := Resolved(snapshot, x, stamp)]
    ensures MergeStep(m, snapshot, x, stamp).imported == m.imported + (if x.id !in snapshot then 1 else 0)
    ensures MergeStep(m, snapshot, x, stamp).updated ==
              m.updated + (if x.id in snapshot && x.updatedAt > snapshot[x.id].updatedAt then 1 else 0)
  {
    if x.id in snapshot && x.updatedAt <= snapshot[x.id].updatedAt {
      assert m.table[x.id := snapshot[x.id]] == m.table;
    }
  }

  /** Remote records none of which is newer than the snapshot's record change nothing. */
  lemma {:induction false} MergeNothingNewer(snapshot: map<string, Haiku>, remotes: seq<Haiku>, stamp: ImportStamp)
    requires forall i :: 0 <= i < |remotes| ==> remotes[i].id in snapshot && remotes[i].updatedAt <= snapshot[remotes[i].id].updatedAt
    ensures MergeAll(snapshot, remotes, stamp) == Merge(snapshot, 0, 0, None)
  {
    if remotes != [] {
      MergeNothingNewer(snapshot, remotes[..|remotes| - 1], stamp);
    }
  }

  /** `new Map(localHaikus.map(h => [h.id, h]))`: each listed record under its id, the last one winning. */
  function ById(hs: seq<Haiku>): (r: map<string, Haiku>)
    ensures forall h :: h in hs ==> h.id in r
    ensures forall k :: k in r ==> r[k] in hs && r[k].id == k
  {
    if hs == [] then map[]
    else
      var n := |hs| - 1;
      assert forall h :: h in hs <==> h in hs[..n] || h == hs[n];
      ById(hs[..n])[hs[n].id := hs[n]]
  }

  /** Listing every record of the table and keying them by id gives back the table. */
  lemma ByIdOfListing(table: map<string, Haiku>, hs: seq<Haiku>)
    requires ValidTable(table)
    requires forall h :: h in hs <==> h in table.Values
    ensures ById(hs) == table
  {
    var r := ById(hs);
    forall k | k in r ensures k in table && table[k] == r[k] {
      var k' :| k' in table && table[k'] == r[k];
    }
    forall k | k in table ensures k in r {
      assert table[k] in table.Values;
    }
  }

  // ---------------------------------------------------------------------------------------
  // Pull

  /** The parsed `haikus.json`: the time it was written and the records, if it lists any. */
  datatype GistData = GistData(syncedAt: Option<int>, haikus: Option<seq<Haiku>>)

  /**
   * GitHub's replies to a pull: the gist listing, the single gist (or the request's error), and
   * what parsing its file gives (or the parse error).
   */
  datatype PullReplies = PullReplies(listing: Result<seq<Gist>>, fetched: Result<Gist>, parsed: Result<GistData>)

  /** The object `pushToGitHub`, `pullFromGitHub` and `sync` return; `None` is a missing field. */
  datatype Outcome = Outcome(success: bool, message: string, gistId: Option<string>, imported: Option<nat>, updated: Option<nat>)

  function Failed(message: string): Outcome {
    Outcome(false, message, None, None, None)
  }

  /** The outcome of a pull, the table after it, and whether it recorded the sync time. */
  datatype Pulled = Pulled(outcome: Outcome, table: map<string, Haiku>, synced: bool)

  /** `gistData.haikus || []`. */
  function RemoteRecords(data: GistData): seq<Haiku> {
    if data.haikus.Some? then data.haikus.value else []
  }

  /** `pullFromGitHub`, step by step. */
  function PullSpec(auth: Object, replies: PullReplies, table: map<string, Haiku>, now: int): (p: Pulled)
    ensures !SignedIn(auth) ==> p == Pulled(Failed(NotAuthenticated), table, false)
    ensures SignedIn(auth) && FindHaikuGist(auth, replies.listing).None? ==>
              p == Pulled(Outcome(true, "No haiku gist found on GitHub", None, None, None), table, false)
    ensures p.synced <==> p.outcome.imported.Some?
    ensures p.synced ==>
              && p.outcome.success && p.outcome.updated.Some? && replies.parsed.Ok?
              && p.outcome.imported.value + p.outcome.updated.value <= |RemoteRecords(replies.parsed.value)|
              && p.outcome.message == "Sync complete: " + NatToString(p.outcome.imported.value) + " imported, " +
                                      NatToString(p.outcome.updated.value) + " updated"
    ensures p.table != table ==> SignedIn(auth) && FindHaikuGist(auth, replies.listing).Some? && replies.parsed.Ok?
    ensures ValidTable(table) ==> ValidTable(p.table)
  {
    if !SignedIn(auth) then Pulled(Failed(NotAuthenticated), table, false)
    else match FindHaikuGist(auth, replies.listing)
      case None => Pulled(Outcome(true, "No haiku gist found on GitHub", None, None, None), table, false)
      case Some(existing) =>
        match replies.fetched
        case Err(e) => Pulled(Failed("Sync failed: " + e), table, false)
        case Ok(gist) =>
          var content := FileContent(gist);
          if content.None? || content.value == "" then Pulled(Failed("Gist file content not found"), table, false)
          else match replies.parsed
            case Err(e) => Pulled(Failed("Sync failed: " + e), table, false)
            case Ok(data) =>
              var m := MergeAll(table, RemoteRecords(data), ImportStamp(data.syncedAt, existing.id, now));
              if m.failure.Some? then Pulled(Failed("Sync failed: " + ErrorMessage(m.failure.value)), m.table, false)
              else
                Pulled(Outcome(true, "Sync complete: " + NatToString(m.imported) + " imported, " + NatToString(m.updated) + " updated",
                               None, Some(m.imported), Some(m.updated)), m.table, true)
  }

  // ---------------------------------------------------------------------------------------
  // Push

  /** The record after `update(id, {syncedAt: now, gistId})`. */
  function Stamped(h: Haiku, now: int, gistId: string): (r: Haiku)
    ensures r == h.(updatedAt := now, syncedAt := Some(now), gistId := Some(gistId))
  {
    Updated(h, NoFields.(syncedAt := Some(Some(now)), gistId := Some(Some(gistId))), now)
  }

  /** Every record stamped with the push's time and the gist's id. */
  function StampAll(table: map<string, Haiku>, now: int, gistId: string): (r: map<string, Haiku>)
    ensures r.Keys == table.Keys
    ensures forall k :: k in table ==> r[k] == table[k].(updatedAt := now, syncedAt := Some(now), gistId := Some(gistId))
    ensures ValidTable(table) ==> ValidTable(r)
  {
    map k | k in table :: Stamped(table[k], now, gistId)
  }

  /** The write a push sends: a new gist, or the found one updated, with the listed records. */
  datatype GistWrite = CreateGist(haikus: seq<Haiku>) | UpdateGist(id: string, haikus: seq<Haiku>)

  /** GitHub's replies to a push: the gist listing, and the id of the gist written (or the error). */
  datatype PushReplies = PushReplies(listing: Result<seq<Gist>>, written: Result<string>)

  /** The outcome of a push, the table after it, whether it recorded the sync time, and the write it sent. */
  datatype Pushed = Pushed(outcome: Outcome, table: map<string, Haiku>, synced: bool, write: Option<GistWrite>)

  /** The write a push sends: the found gist updated, or a new one, with the listed records. */
  function WriteFor(existing: Option<Gist>, local: seq<Haiku>): (w: GistWrite)
    ensures w.haikus == local
    ensures w.UpdateGist? <==> existing.Some?
    ensures w.UpdateGist? ==> w.id == existing.value.id
  {
    match existing
    case Some(g) => UpdateGist(g.id, local)
    case None => CreateGist(local)
  }

  /** The outcome of a push whose write GitHub accepted. */
  function PushedOutcome(count: nat, gistId: string): Outcome {
    Outcome(true, "Successfully synced " + NatToString(count) + " haikus to GitHub", Some(gistId), None, None)
  }

  /**
   * `pushToGitHub`, step by step: it sends every record to the found gist or a new one; when the
   * write succeeds, every record is stamped with the push's time and the gist's id.
   */
  function PushSpec(auth: Object, replies: PushReplies, table: map<string, Haiku>, now: int): (p: Pushed)
    ensures !SignedIn(auth) ==> p == Pushed(Failed(NotAuthenticated), table, false, None)
    ensures SignedIn(auth) ==> p.write == Some(WriteFor(FindHaikuGist(auth, replies.listing), GetAllSpec(table, NoQuery)))
    ensures p.synced <==> p.outcome.success
    ensures p.outcome.success ==>
              && replies.written.Ok?
              && p.outcome == PushedOutcome(|GetAllSpec(table, NoQuery)|, replies.written.value)
              && p.table == StampAll(table, now, replies.written.value)
    ensures !p.outcome.success ==> p.table == table
  {
    if !SignedIn(auth) then Pushed(Failed(NotAuthenticated), table, false, None)
    else
      var local := GetAllSpec(table, NoQuery);
      var write := WriteFor(FindHaikuGist(auth, replies.listing), local);
      match replies.written
      case Err(e) => Pushed(Failed("Sync failed: " + e), table, false, Some(write))
      case Ok(gistId) => Pushed(PushedOutcome(|local|, gistId), StampAll(table, now, gistId), true, Some(write))
  }

  /**
   * A successful push sends every record once and leaves every record stamped with its time and
   * the gist's id, reporting their number.
   */
  lemma PushMeaning(auth: Object, replies: PushReplies, table: map<string, Haiku>, now: int)
    requires ValidTable(table)
    ensures var p := PushSpec(auth, replies, table, now);
            && (SignedIn(auth) ==> forall h :: h in p.write.value.haikus <==> h in table.Values)
            && (p.outcome.success ==>
                  && p.outcome.message == "Successfully synced " + NatToString(|table|) + " haikus to GitHub"
                  && p.table.Keys == table.Keys
                  && (forall k :: k in table ==>
                        p.table[k] == table[k].(updatedAt := now, syncedAt := Some(now), gistId := Some(replies.written.value))))
    ensures ValidTable(PushSpec(auth, replies, table, now).table)
  {
    GetAllEverything(table);
  }

  /**
   * Pulling back what a push wrote changes nothing, provided no record was updated after the
   * push's clock reading: every pushed record is then at most as new as its stamped copy.
   */
  lemma PullAfterPush(table: map<string, Haiku>, now: int, gistId: string, syncedAt: Option<int>, pullAt: int)
    requires ValidTable(table)
    requires forall k :: k in table ==> table[k].updatedAt <= now
    ensures var pushed := StampAll(table, now, gistId);
            MergeAll(pushed, GetAllSpec(table, NoQuery), ImportStamp(syncedAt, gistId, pullAt)) == Merge(pushed, 0, 0, None)
  {
    var pushed := StampAll(table, now, gistId);
    var remotes := GetAllSpec(table, NoQuery);
    GetAllEverything(table);
    forall i | 0 <= i < |remotes|
      ensures remotes[i].id in pushed && remotes[i].updatedAt <= pushed[remotes[i].id].updatedAt
    {
      assert remotes[i] in remotes;
      var k :| k in table && table[k] == remotes[i];
    }
    MergeNothingNewer(pushed, remotes, ImportStamp(syncedAt, gistId, pullAt));
  }

  /** The summary `getSyncStatus` returns. */
  datatype SyncStatus = SyncStatus(totalLocal: nat, synced: nat, unsynced: nat, hasRemoteGist: bool,
                                   gistId: Option<string>, lastSyncTime: Option<int>)

  lemma {:induction false} SyncedAtMost(hs: seq<Haiku>)
    ensures SyncedTally(hs) <= |hs|
  {
    if hs != [] {
      SyncedAtMost(hs[..|hs| - 1]);
    }
  }

  // ---------------------------------------------------------------------------------------
  // The sync manager

  /** The sync manager: the record database it writes and the time of its last sync. */
  class GitHubSyncManager {
    const db: HaikuDatabase
    var lastSyncTime: Option<int>

    constructor (db: HaikuDatabase)
      ensures this.db == db && lastSyncTime == None
    {
      this.db := db;
      lastSyncTime := None;
    }

    /** `pullFromGitHub`: merge the gist's records into the database. */
    method Pull(auth: Object, replies: PullReplies, now: int) returns (r: Outcome)
      requires db.Valid()
      modifies this, db
      ensures db.Valid()
      ensures r == PullSpec(auth, replies, old(db.table), now).outcome
      ensures db.table == PullSpec(auth, replies, old(db.table), now).table
      ensures lastSyncTime == if PullSpec(auth, replies, old(db.table), now).synced then Some(now) else old(lastSyncTime)
    {
      if !SignedIn(auth) {
        return Failed(NotAuthenticated);
      }
      var existing := FindHaikuGist(auth, replies.listing);
      if existing.None? {
        return Outcome(true, "No haiku gist found on GitHub", None, None, None);
      }
      if replies.fetched.Err? {
        return Failed("Sync failed: " + replies.fetched.message);
      }
      var content := FileContent(replies.fetched.value);
      if content.None? || content.value == "" {
        return Failed("Gist file content not found");
      }
      if replies.parsed.Err? {
        return Failed("Sync failed: " + replies.parsed.message);
      }
      var data := replies.parsed.value;
      var remotes := RemoteRecords(data);
      var local := db.GetAll(NoQuery);
      GetAllEverything(db.table);
      var snapshot := ById(local);
      ByIdOfListing(db.table, local);
      var stamp := ImportStamp(data.syncedAt, existing.value.id, now);
      var failure, imported, updated := MergeRemotes(snapshot, remotes, stamp);
      if failure.Some? {
        return Failed("Sync failed: " + ErrorMessage(failure.value));
      }
      lastSyncTime := Some(now);
      return Outcome(true, "Sync complete: " + NatToString(imported) + " imported, " + NatToString(updated) + " updated",
                     None, Some(imported), Some(updated));
    }

    /**
     * The pull loop: each remote record not in the snapshot is created, each one newer than its
     * snapshot copy updated; the first write that throws ends the loop.
     */
    method MergeRemotes(snapshot: map<string, Haiku>, remotes: seq<Haiku>, stamp: ImportStamp)
        returns (failure: Option<WriteError>, imported: nat, updated: nat)
      requires db.Valid() && db.table == snapshot
      modifies db
      ensures db.Valid()
      ensures Merge(db.table, imported, updated, failure) == MergeAll(snapshot, remotes, stamp)
    {
      imported, updated := 0, 0;
      for i := 0 to |remotes|
        invariant db.Valid()
        invariant MergeAll(snapshot, remotes[..i], stamp) == Merge(db.table, imported, updated, None)
      {
        var remote := remotes[i];
        assert remotes[..i + 1][..i] == remotes[..i];
        if remote.id !in snapshot {
          var created := db.Create(ImportData(remote, stamp), remote.id, stamp.now);
          if created.Err? {
            failure := Some(AlreadyStored);
            MergeStopsAtFailure(snapshot, remotes, stamp, i + 1);
            return;
          }
          imported := imported + 1;
        } else if remote.updatedAt > snapshot[remote.id].updatedAt {
          var changed := db.Update(remote.id, ImportData(remote, stamp), stamp.now);
          if changed.Err? {
            failure := Some(NotStored(remote.id));
            MergeStopsAtFailure(snapshot, remotes, stamp, i + 1);
            return;
          }
          updated := updated + 1;
        }
      }
      assert remotes[..|remotes|] == remotes;
      failure := None;
    }

    /**
     * `pushToGitHub`: send the listed records to the found gist or a new one, then stamp every
     * record with the time and the gist's id. `sent` is the write sent, if any.
     */
    method Push(auth: Object, replies: PushReplies, now: int) returns (r: Outcome, sent: Option<GistWrite>)
      requires db.Valid()
      modifies this, db
      ensures db.Valid()
      ensures r == PushSpec(auth, replies, old(db.table), now).outcome
      ensures sent == PushSpec(auth, replies, old(db.table), now).write
      ensures db.table == PushSpec(auth, replies, old(db.table), now).table
      ensures lastSyncTime == if PushSpec(auth, replies, old(db.table), now).synced then Some(now) else old(lastSyncTime)
    {
      if !SignedIn(auth) {
        return Failed(NotAuthenticated), None;
      }
      var local := db.GetAll(NoQuery);
      var existing := FindHaikuGist(auth, replies.listing);
      sent := Some(if existing.Some? then UpdateGist(existing.value.id, local) else CreateGist(local));
      if replies.written.Err? {
        return Failed("Sync failed: " + replies.written.message), sent;
      }
      var gistId := replies.written.value;
      GetAllEverything(db.table);
      StampEach(local, now, gistId);
      lastSyncTime := Some(now);
      return PushedOutcome(|local|, gistId), sent;
    }

    /** The push's second loop: every listed record updated with the time and the gist's id. */
    method StampEach(local: seq<Haiku>, now: int, gistId: string)
      requires db.Valid()
      requires forall h :: h in local <==> h in db.table.Values
      modifies db
      ensures db.Valid()
      ensures db.table == StampAll(old(db.table), now, gistId)
    {
      ghost var before := db.table;
      ghost var done: set<string> := {};
      for i := 0 to |local|
        invariant db.Valid()
        invariant db.table.Keys == before.Keys && done <= before.Keys
        invariant forall j :: 0 <= j < i ==> local[j].id in done
        invariant forall k :: k in before ==> db.table[k] == if k in done then Stamped(before[k], now, gistId) else before[k]
      {
        var h := local[i];
        assert h in local;
        ghost var k :| k in before && before[k] == h;
        var _ := db.Update(h.id, NoFields.(syncedAt := Some(Some(now)), gistId := Some(Some(gistId))), now);
        done := done + {h.id};
      }
      forall k | k in before ensures k in done {
        assert before[k] in before.Values;
        var j :| 0 <= j < |local| && local[j] == before[k];
      }
    }

    /** `sync`: pull, and push only when the pull succeeded. */
    method Sync(auth: Object, pullReplies: PullReplies, pushReplies: PushReplies, pullAt: int, pushAt: int) returns (r: Outcome)
      requires db.Valid()
      modifies this, db
      ensures db.Valid()
      ensures var pulled := PullSpec(auth, pullReplies, old(db.table), pullAt);
              var pushed := PushSpec(auth, pushReplies, pulled.table, pushAt);
              if !SignedIn(auth) then
                r == Failed(NotAuthenticated) && db.table == old(db.table) && lastSyncTime == old(lastSyncTime)
              else if !pulled.outcome.success then
                r == pulled.outcome && db.table == pulled.table && lastSyncTime == old(lastSyncTime)
              else if !pushed.outcome.success then
                r == pushed.outcome && db.table == pulled.table &&
                lastSyncTime == (if pulled.synced then Some(pullAt) else old(lastSyncTime))
              else
                r == Outcome(true, "Sync completed successfully", None, None, None) &&
                db.table == pushed.table && lastSyncTime == Some(pushAt)
    {
      if !SignedIn(auth) {
        return Failed(NotAuthenticated);
      }
      var pulled := Pull(auth, pullReplies, pullAt);
      if !pulled.success {
        return pulled;
      }
      var pushed, _ := Push(auth, pushReplies, pushAt);
      if !pushed.success {
        return pushed;
      }
      return Outcome(true, "Sync completed successfully", None, None, None);
    }

    /** `getSyncStatus`: how many records there are, how many are synced, and the gist found. */
    method GetSyncStatus(auth: Object, listing: Result<seq<Gist>>) returns (s: SyncStatus)
      requires db.Valid()
      ensures s.totalLocal == |db.table|
      ensures s.synced == SyncedTally(GetAllSpec(db.table, NoQuery))
      ensures s.synced + s.unsynced == s.totalLocal
      ensures s.hasRemoteGist <==> FindHaikuGist(auth, listing).Some?
      ensures s.gistId.Some? <==> FindHaikuGist(auth, listing).Some? && FindHaikuGist(auth, listing).value.id != ""
      ensures s.gistId.Some? ==> s.gistId.value == FindHaikuGist(auth, listing).value.id
      ensures s.lastSyncTime == lastSyncTime
    {
      var local := db.GetAll(NoQuery);
      GetAllEverything(db.table);
      var synced := SyncedTally(local);
      SyncedAtMost(local);
      var existing := FindHaikuGist(auth, listing);
      var gistId := if existing.Some? && existing.value.id != "" then Some(existing.value.id) else None;
      s := SyncStatus(|local|, synced, |local| - synced, existing.Some?, gistId, lastSyncTime);
    }
  }
}
