/** The history index: rows derived from the job state files of one directory
    (server/history_index.go).

    The database is a map keyed by job_id; json_file is unique in it. The directory
    is a map from names to entries, and decoding a file as JSON gives a document or
    fails. Detection logs are fixed, already parsed, and keyed by job id. The column
    indexed_at is left out. Database and directory reads succeed, except that the
    directory itself may be missing or unreadable. */
module HistoryIndex {
  import opened Optional
  import opened UserIds

  type JobId = string
  type Name = string

  datatype Path = Path(dir: string, name: Name)

  datatype Document = Document(
    version: int,
    jobId: JobId,
    jobType: string,
    status: string,
    result: string,
    action: string,
    startedAt: int,
    finishedAt: Option<int>,
    userId: string,
    detectionLog: Option<string>)

  datatype Content = NotJson | Job(doc: Document)

  datatype File = File(mtime: int, content: Content)

  /** Where a symbolic link leads: to a regular file, to nothing (or nothing regular),
      or nowhere that can be examined, as in a loop of links. */
  datatype LinkTarget = ToFile(file: File) | ToNothing | Unknown

  datatype Entry =
    | Directory
    | Special(mtime: int)
    | Link(mtime: int, target: LinkTarget)
    | Regular(file: File)

  type Detection = (string, string)

  datatype Row = Row(doc: Document, detections: seq<Detection>, path: Path, mtime: int)

  type Rows = map<JobId, Row>
  type Listing = map<Name, Entry>

  /** `OwnLog(text, id)`: the text, trimmed and cleaned, is the path of that job's
      detection log. `logs` has the logs that exist. */
  datatype Place = Place(jobsDir: string, ownLog: (string, JobId) -> bool, logs: map<JobId, seq<Detection>>)

  datatype Options = Options(force: bool, reconcileDeleted: bool, removeInvalid: bool)

  const FULL := Options(false, true, true)
  const BACKFILL := Options(true, false, false)

  const JSON: string := ".json"

  // ------------------------------------------------------------- one file

  function FileName(id: JobId): Name {
    id + JSON
  }

  predicate HasJsonSuffix(name: Name) {
    |name| >= 5 && name[|name| - 5..] == JSON
  }

  function IdOf(name: Name): JobId
    requires HasJsonSuffix(name)
  {
    name[..|name| - 5]
  }

  predicate AllDigits(s: string) {
    forall i | 0 <= i < |s| :: IsDigit(s[i])
  }

  /** `^(manual|cron)-[0-9]{10,19}(?:-[0-9]{3})?$` */
  predicate ValidJobId(id: JobId) {
    TailOfJobId("manual-", id) || TailOfJobId("cron-", id)
  }

  predicate TailOfJobId(prefix: string, id: JobId) {
    prefix <= id && StampAndSerial(id[|prefix|..])
  }

  predicate StampAndSerial(tail: string) {
    || (10 <= |tail| <= 19 && AllDigits(tail))
    || (14 <= |tail| <= 23 && AllDigits(tail[..|tail| - 4]) && tail[|tail| - 4] == '-' && AllDigits(tail[|tail| - 3..]))
  }

  predicate ValidDocument(doc: Document, name: Name) {
    && doc.version == 3
    && ValidJobId(doc.jobId) && name == FileName(doc.jobId)
    && (doc.jobType == "manual" || doc.jobType == "cron") && doc.jobType + "-" <= doc.jobId
    && ValidUserId(doc.userId) && doc.startedAt > 0
    && (doc.action == "warn" || doc.action == "move" || doc.action == "remove")
  }

  /** readJobDetections. */
  function Detections(doc: Document, place: Place): Option<seq<Detection>> {
    if doc.result != "found" || doc.detectionLog.None? then Some([])
    else if !place.ownLog(doc.detectionLog.value, doc.jobId) || doc.jobId !in place.logs then None
    else Some(place.logs[doc.jobId])
  }

  /** The row a regular file gives, if it is acceptable. */
  function RowOf(place: Place, name: Name, file: File): (row: Option<Row>)
    ensures row.Some? ==> FileName(row.value.doc.jobId) == name && row.value.path == Path(place.jobsDir, name)
  {
    if file.content.NotJson? || !ValidDocument(file.content.doc, name) then None
    else
      match Detections(file.content.doc, place)
      case None => None
      case Some(found) => Some(Row(file.content.doc, found, Path(place.jobsDir, name), file.mtime))
  }

  /** What a directory walk makes of an entry: links are not followed. */
  function RowOfEntry(place: Place, name: Name, entry: Entry): (row: Option<Row>)
    ensures row.Some? ==> FileName(row.value.doc.jobId) == name && row.value.path == Path(place.jobsDir, name)
    ensures row.Some? ==> row.value.mtime == WalkMtime(entry)
  {
    if entry.Regular? then RowOf(place, name, entry.file) else None
  }

  function WalkMtime(entry: Entry): int {
    match entry
    case Directory => 0
    case Special(mtime) => mtime
    case Link(mtime, _) => mtime
    case Regular(file) => file.mtime
  }

  lemma FileNameInverse(id: JobId, name: Name)
    ensures HasJsonSuffix(FileName(id)) && IdOf(FileName(id)) == id
    ensures HasJsonSuffix(name) ==> FileName(IdOf(name)) == name
  {
    assert FileName(id)[|id|..] == JSON;
    if HasJsonSuffix(name) {
      assert name == name[..|name| - 5] + name[|name| - 5..];
    }
  }

  // ------------------------------------------------------------- the index a rebuild gives

  /** A row is filed under its job, in a file named after the job. */
  predicate WellFormed(rows: Rows) {
    forall id <- rows :: rows[id].doc.jobId == id && rows[id].path.name == FileName(id)
  }

  function Lookup(rows: Rows, id: JobId): Option<Row> {
    if id in rows then Some(rows[id]) else None
  }

  /** The row job `id` should have: that of its file, if the file is acceptable. */
  function ExpectedRow(place: Place, listing: Listing, id: JobId): Option<Row> {
    if FileName(id) in listing then RowOfEntry(place, FileName(id), listing[FileName(id)]) else None
  }

  /** The index says of every job what the directory says. */
  ghost predicate Agrees(place: Place, listing: Listing, rows: Rows) {
    forall id: JobId :: Lookup(rows, id) == ExpectedRow(place, listing, id)
  }

  /** A row with the modification time of the entry it came from is that entry's row.
      A refresh relies on this and nothing else when it skips a file. */
  predicate MtimeTells(place: Place, listing: Listing, rows: Rows) {
    forall id <- rows | FileName(id) in listing && !listing[FileName(id)].Directory? ::
      rows[id].path == Path(place.jobsDir, FileName(id)) && rows[id].mtime == WalkMtime(listing[FileName(id)]) ==>
        RowOfEntry(place, FileName(id), listing[FileName(id)]) == Some(rows[id])
  }

  // ------------------------------------------------------------- what a refresh does to one job

  function WithoutPath(rows: Rows, path: Path): Rows {
    map id | id in rows && rows[id].path != path :: rows[id]
  }

  function WithoutPaths(rows: Rows, paths: set<Path>): Rows {
    map id | id in rows && rows[id].path !in paths :: rows[id]
  }

  /** The files a refresh looks at. */
  predicate Visits(listing: Listing, name: Name) {
    name in listing && !listing[name].Directory? && HasJsonSuffix(name)
  }

  predicate Skips(place: Place, options: Options, row: Option<Row>, name: Name, entry: Entry) {
    && !options.force && row.Some?
    && row.value.path == Path(place.jobsDir, name) && row.value.mtime == WalkMtime(entry)
  }

  /** The row of a job after the walk has visited its file. */
  function VisitedRow(place: Place, options: Options, row: Option<Row>, name: Name, entry: Entry): Option<Row> {
    if Skips(place, options, row, name, entry) then row
    else
      match RowOfEntry(place, name, entry)
      case Some(found) => Some(found)
      case None =>
        if options.removeInvalid && row.Some? && row.value.path == Path(place.jobsDir, name) then None else row
  }

  function RowAfterWalk(place: Place, options: Options, rows: Rows, listing: Listing, id: JobId): Option<Row> {
    if Visits(listing, FileName(id)) then
      VisitedRow(place, options, Lookup(rows, id), FileName(id), listing[FileName(id)])
    else
      Lookup(rows, id)
  }

  /** ... and after the rows of paths that were not visited have been removed. */
  function RowAfterRefresh(place: Place, options: Options, rows: Rows, listing: Listing, id: JobId): Option<Row> {
    var row := RowAfterWalk(place, options, rows, listing, id);
    if options.reconcileDeleted && row.Some? &&
       !(row.value.path.dir == place.jobsDir && Visits(listing, FileName(id))) then None else row
  }

  ghost predicate IsRefreshed(place: Place, options: Options, rows: Rows, listing: Listing, rows': Rows) {
    forall id: JobId :: Lookup(rows', id) == RowAfterRefresh(place, options, rows, listing, id)
  }

  // ------------------------------------------------------------- what a refresh does to one file

  /** What os.Stat finds: unlike the walk, it follows links. */
  function Followed(entry: Entry): Option<File> {
    match entry
    case Regular(file) => Some(file)
    case Link(_, ToFile(file)) => Some(file)
    case _ => None
  }

  function FollowedRow(place: Place, listing: Listing, name: Name): (row: Option<Row>)
    ensures row.Some? ==> FileName(row.value.doc.jobId) == name && row.value.path == Path(place.jobsDir, name)
  {
    if name !in listing || Followed(listing[name]).None? then None
    else RowOf(place, name, Followed(listing[name]).value)
  }

  /** os.Stat fails, and not because nothing is there. */
  predicate StatFails(listing: Listing, name: Name) {
    name in listing && listing[name].Link? && listing[name].target.Unknown?
  }

  function FileRefreshed(place: Place, rows: Rows, listing: Listing, path: Path): Rows {
    if path.dir != place.jobsDir || !HasJsonSuffix(path.name) || StatFails(listing, path.name) then rows
    else
      match FollowedRow(place, listing, path.name)
      case Some(row) => rows[row.doc.jobId := row]
      case None => WithoutPath(rows, path)
  }

  lemma PathsDiffer(rows: Rows, id: JobId)
    requires WellFormed(rows) && id in rows
    ensures forall other <- rows | other != id :: rows[other].path != rows[id].path
  {
    forall other <- rows | other != id ensures rows[other].path != rows[id].path {
      FileNameInverse(id, "");
      FileNameInverse(other, "");
    }
  }

  /** The walk has visited the files in `done` and no others. */
  ghost predicate Walked(place: Place, options: Options, rows: Rows, listing: Listing, done: set<Name>, rows': Rows) {
    forall id: JobId ::
      Lookup(rows', id) ==
      if FileName(id) in done then RowAfterWalk(place, options, rows, listing, id) else Lookup(rows, id)
  }

  predicate MtimesOf(mtimes: map<Path, int>, rows: Rows) {
    && (forall id <- rows :: rows[id].path in mtimes && mtimes[rows[id].path] == rows[id].mtime)
    && (forall path <- mtimes :: exists id <- rows :: rows[id].path == path)
  }

  lemma VisitSkipped(place: Place, options: Options, rows: Rows, listing: Listing, done: set<Name>, name: Name, rows': Rows)
    requires Walked(place, options, rows, listing, done, rows') && name !in done
    requires !Visits(listing, name) || Skips(place, options, Lookup(rows, IdOf(name)), name, listing[name])
    ensures Walked(place, options, rows, listing, done + {name}, rows')
  {
    forall id: JobId | FileName(id) == name ensures Lookup(rows', id) == RowAfterWalk(place, options, rows, listing, id) {
      FileNameInverse(id, name);
    }
  }

  /** The rows after indexCurrentFileLocked on an entry of the walk. */
  function EntryIndexed(place: Place, options: Options, rows: Rows, name: Name, entry: Entry): Rows {
    match RowOfEntry(place, name, entry)
    case Some(row) => rows[row.doc.jobId := row]
    case None => if options.removeInvalid then WithoutPath(rows, Path(place.jobsDir, name)) else rows
  }

  lemma IndexedKeepsForm(place: Place, options: Options, rows: Rows, name: Name, entry: Entry)
    requires WellFormed(rows)
    ensures WellFormed(EntryIndexed(place, options, rows, name, entry))
  {
  }

  lemma VisitIndexed(place: Place, options: Options, rows: Rows, listing: Listing, done: set<Name>, name: Name, rows': Rows)
    requires WellFormed(rows') && Walked(place, options, rows, listing, done, rows') && name !in done
    requires Visits(listing, name) && !Skips(place, options, Lookup(rows, IdOf(name)), name, listing[name])
    ensures Walked(place, options, rows, listing, done + {name},
                   EntryIndexed(place, options, rows', name, listing[name]))
  {
    var rows'' := EntryIndexed(place, options, rows', name, listing[name]);
    forall id: JobId
      ensures Lookup(rows'', id) ==
              if FileName(id) in done + {name} then RowAfterWalk(place, options, rows, listing, id) else Lookup(rows, id)
    {
      FileNameInverse(id, name);
      FileNameInverse(IdOf(name), name);
    }
  }

  /** A recorded time is that of the job whose file it is. */
  lemma MtimesTell(rows: Rows, mtimes: map<Path, int>, path: Path)
    requires WellFormed(rows) && MtimesOf(mtimes, rows) && HasJsonSuffix(path.name)
    ensures path in mtimes <==> IdOf(path.name) in rows && rows[IdOf(path.name)].path == path
    ensures path in mtimes ==> mtimes[path] == rows[IdOf(path.name)].mtime
  {
    if path in mtimes {
      var id :| id in rows && rows[id].path == path;
      FileNameInverse(id, "");
    }
  }

  /** The recorded paths a walk over the names of `done` has not come by. */
  ghost predicate LeftOver(place: Place, listing: Listing, mtimes: map<Path, int>, done: set<Name>,
                           left: map<Path, int>) {
    && (forall path :: path in left <==>
          path in mtimes && !(path.dir == place.jobsDir && path.name in done && Visits(listing, path.name)))
    && (forall path <- left :: left[path] == mtimes[path])
  }

  lemma LeftOverNext(place: Place, listing: Listing, mtimes: map<Path, int>, done: set<Name>,
                     left: map<Path, int>, name: Name)
    requires LeftOver(place, listing, mtimes, done, left) && name !in done
    ensures !Visits(listing, name) ==> LeftOver(place, listing, mtimes, done + {name}, left)
    ensures Visits(listing, name) ==>
              LeftOver(place, listing, mtimes, done + {name}, left - {Path(place.jobsDir, name)})
    ensures var path := Path(place.jobsDir, name);
            (path in left <==> path in mtimes) && (path in left ==> left[path] == mtimes[path])
  {
  }

  /** Rows of unvisited paths, which reconciling removes. */
  lemma Reconciled(place: Place, options: Options, rows: Rows, listing: Listing, left: set<Path>, walked: Rows, rows': Rows)
    requires WellFormed(rows) && WellFormed(walked)
    requires Walked(place, options, rows, listing, listing.Keys, walked) && options.reconcileDeleted
    requires forall path :: path in left <==>
               (exists id <- rows :: rows[id].path == path) && !(path.dir == place.jobsDir && Visits(listing, path.name))
    requires rows' == WithoutPaths(walked, left)
    ensures IsRefreshed(place, options, rows, listing, rows')
  {
    forall id: JobId ensures Lookup(rows', id) == RowAfterRefresh(place, options, rows, listing, id) {
      assert Lookup(walked, id) == RowAfterWalk(place, options, rows, listing, id);
    }
  }

  lemma NotReconciled(place: Place, options: Options, rows: Rows, listing: Listing, walked: Rows)
    requires Walked(place, options, rows, listing, listing.Keys, walked) && !options.reconcileDeleted
    ensures IsRefreshed(place, options, rows, listing, walked)
  {
    forall id: JobId ensures Lookup(walked, id) == RowAfterRefresh(place, options, rows, listing, id) {
      assert Lookup(walked, id) == RowAfterWalk(place, options, rows, listing, id);
    }
  }

  // ------------------------------------------------------------- the indexer

  class HistoryIndexer {
    const place: Place
    var rows: Rows
    var schema: nat

    ghost predicate Valid()
      reads this
    {
      WellFormed(rows)
    }

    constructor (place: Place, rows: Rows, schema: nat)
      requires WellFormed(rows)
      ensures Valid() && this.place == place && this.rows == rows && this.schema == schema
    {
      this.place, this.rows, this.schema := place, rows, schema;
    }

    method LoadIndexedMtimes() returns (mtimes: map<Path, int>)
      requires Valid()
      ensures forall id <- rows :: rows[id].path in mtimes && mtimes[rows[id].path] == rows[id].mtime
      ensures forall path <- mtimes :: exists id <- rows :: rows[id].path == path
    {
      mtimes := map[];
      var rest := rows.Keys;
      while rest != {}
        invariant rest <= rows.Keys
        invariant forall id <- rows | id !in rest :: rows[id].path in mtimes && mtimes[rows[id].path] == rows[id].mtime
        invariant forall path <- mtimes :: exists id <- rows :: rows[id].path == path
        decreases |rest|
      {
        var id :| id in rest;
        PathsDiffer(rows, id);
        mtimes := mtimes[rows[id].path := rows[id].mtime];
        rest := rest - {id};
      }
    }

    /** indexCurrentFileLocked and indexFile; `file` is what they stat and read. */
    method IndexCurrentFile(name: Name, file: Option<File>, removeInvalid: bool) returns (ok: bool)
      requires Valid()
      modifies this`rows
      ensures Valid()
      ensures ok == (file.Some? && RowOf(place, name, file.value).Some?)
      ensures ok ==> rows == old(rows)[RowOf(place, name, file.value).value.doc.jobId :=
                                         RowOf(place, name, file.value).value]
      ensures !ok ==> rows == if removeInvalid then WithoutPath(old(rows), Path(place.jobsDir, name)) else old(rows)
    {
      var row := if file.None? then None else RowOf(place, name, file.value);
      match row
      case Some(found) =>
        rows := rows[found.doc.jobId := found];
        return true;
      case None =>
        if removeInvalid {
          rows := WithoutPath(rows, Path(place.jobsDir, name));
        }
        return false;
    }

    /** refreshFileLocked. */
    method RefreshFile(path: Path, listing: Listing)
      requires Valid()
      modifies this`rows
      ensures Valid() && rows == FileRefreshed(place, old(rows), listing, path)
    {
      if path.dir != place.jobsDir || !HasJsonSuffix(path.name) {
        return;
      }
      if StatFails(listing, path.name) {
        return;
      }
      if path.name !in listing || (listing[path.name].Link? && listing[path.name].target.ToNothing?) {
        rows := WithoutPath(rows, path);
        return;
      }
      var ok := IndexCurrentFile(path.name, Followed(listing[path.name]), true);
    }
  
    /** refreshLocked: the directory is missing (an empty listing), cannot be read
        (no listing), or is walked entry by entry. */
    method Refresh(options: Options, found: Option<Listing>) returns (ok: bool)
      requires Valid()
      modifies this`rows
      ensures Valid() && ok == found.Some?
      ensures if ok then IsRefreshed(place, options, old(rows), found.value, rows) else rows == old(rows)
    {
      ghost var was := rows;
      var mtimes := map[];
      if !options.force || options.reconcileDeleted {
        mtimes := LoadIndexedMtimes();
      }
      if found.None? {
        return false;
      }
      var listing := found.value;
      mtimes := Walk(options, listing, mtimes);
      ghost var walked := rows;
      if options.reconcileDeleted {
        ForgetPaths(mtimes.Keys);
        Reconciled(place, options, was, listing, mtimes.Keys, walked, rows);
      } else {
        NotReconciled(place, options, was, listing, walked);
      }
      return true;
    }

    /** The loop of refreshLocked over the paths that are left. */
    method ForgetPaths(paths: set<Path>)
      requires Valid()
      modifies this`rows
      ensures Valid() && rows == WithoutPaths(old(rows), paths)
    {
      ghost var was := rows;
      var rest := paths;
      while rest != {}
        invariant rest <= paths
        invariant rows == WithoutPaths(was, paths - rest)
        decreases |rest|
      {
        var path :| path in rest;
        rows := WithoutPath(rows, path);
        rest := rest - {path};
      }
      assert paths - rest == paths;
    }

    /** The loop of refreshLocked over the directory entries; `left` are the
        recorded paths it did not come by. */
    method Walk(options: Options, listing: Listing, mtimes: map<Path, int>) returns (left: map<Path, int>)
      requires Valid() && (!options.force || options.reconcileDeleted ==> MtimesOf(mtimes, rows))
      modifies this`rows
      ensures Valid() && Walked(place, options, old(rows), listing, listing.Keys, rows)
      ensures LeftOver(place, listing, mtimes, listing.Keys, left)
    {
      ghost var was := rows;
      left := mtimes;
      var rest := listing.Keys;
      while rest != {}
        invariant rest <= listing.Keys && Valid()
        invariant Walked(place, options, was, listing, listing.Keys - rest, rows)
        invariant LeftOver(place, listing, mtimes, listing.Keys - rest, left)
        decreases |rest|
      {
        var name :| name in rest;
        ghost var done := listing.Keys - rest;
        rest := rest - {name};
        assert listing.Keys - rest == done + {name};
        LeftOverNext(place, listing, mtimes, done, left, name);
        var entry := listing[name];
        if entry.Directory? || !HasJsonSuffix(name) {
          VisitSkipped(place, options, was, listing, done, name, rows);
          continue;
        }
        var path := Path(place.jobsDir, name);
        var indexed := path in left;
        var oldMtime := if indexed then left[path] else 0;
        left := left - {path};
        if !options.force { MtimesTell(was, mtimes, path); }
        if !options.force && indexed && oldMtime == WalkMtime(entry) {
          VisitSkipped(place, options, was, listing, done, name, rows);
          continue;
        }
        VisitIndexed(place, options, was, listing, done, name, rows);
        IndexedKeepsForm(place, options, rows, name, entry);
        var ok := IndexCurrentFile(name, if entry.Regular? then Some(entry.file) else None, options.removeInvalid);
      }
      assert listing.Keys - rest == listing.Keys;
    }

    /** upgradeSchema: only version 2 is upgraded, by a walk that forces every file
        and removes nothing. */
    method UpgradeSchema(found: Option<Listing>) returns (upgraded: bool, ok: bool)
      requires Valid()
      modifies this`rows, this`schema
      ensures Valid()
      ensures ok == (old(schema) == 3 || (old(schema) == 2 && found.Some?)) && upgraded == (ok && old(schema) == 2)
      ensures if upgraded then schema == 3 && IsRefreshed(place, BACKFILL, old(rows), found.value, rows)
              else schema == old(schema) && rows == old(rows)
    {
      if schema == 3 {
        return false, true;
      }
      if schema != 2 {
        return false, false;
      }
      ok := Refresh(BACKFILL, found);
      if !ok {
        return false, false;
      }
      schema := 3;
      return true, true;
    }
  }

  // ------------------------------------------------------------- what a refresh achieves

  lemma RefreshedRow(place: Place, rows: Rows, listing: Listing, rows': Rows, id: JobId)
    requires IsRefreshed(place, FULL, rows, listing, rows')
    ensures Lookup(rows', id) == RowAfterRefresh(place, FULL, rows, listing, id) && HasJsonSuffix(FileName(id))
  {
    FileNameInverse(id, "");
  }

  lemma TellingTimesAgree(place: Place, rows: Rows, listing: Listing, rows': Rows, id: JobId)
    requires WellFormed(rows) && IsRefreshed(place, FULL, rows, listing, rows') && MtimeTells(place, listing, rows)
    ensures Lookup(rows', id) == ExpectedRow(place, listing, id)
  {
    RefreshedRow(place, rows, listing, rows', id);
    ExpectedIsOwn(place, listing, id);
  }

  lemma AgreeingTimesTell(place: Place, rows: Rows, listing: Listing, rows': Rows, id: JobId)
    requires WellFormed(rows) && IsRefreshed(place, FULL, rows, listing, rows')
    requires Lookup(rows', id) == ExpectedRow(place, listing, id)
    requires id in rows && FileName(id) in listing && !listing[FileName(id)].Directory?
    requires rows[id].path == Path(place.jobsDir, FileName(id)) && rows[id].mtime == WalkMtime(listing[FileName(id)])
    ensures RowOfEntry(place, FileName(id), listing[FileName(id)]) == Some(rows[id])
  {
    RefreshedRow(place, rows, listing, rows', id);
  }

  /** A full refresh leaves exactly the rows of a rebuild from scratch, if and only
      if the recorded modification times told the truth: whenever one equals that of
      the entry, the row is the entry's. */
  lemma FullRefreshIsRebuild(place: Place, rows: Rows, listing: Listing, rows': Rows)
    requires WellFormed(rows) && IsRefreshed(place, FULL, rows, listing, rows')
    ensures Agrees(place, listing, rows') <==> MtimeTells(place, listing, rows)
  {
    if MtimeTells(place, listing, rows) {
      forall id: JobId ensures Lookup(rows', id) == ExpectedRow(place, listing, id) {
        TellingTimesAgree(place, rows, listing, rows', id);
      }
    }
    if Agrees(place, listing, rows') {
      forall id <- rows | FileName(id) in listing && !listing[FileName(id)].Directory? &&
          rows[id].path == Path(place.jobsDir, FileName(id)) && rows[id].mtime == WalkMtime(listing[FileName(id)])
        ensures RowOfEntry(place, FileName(id), listing[FileName(id)]) == Some(rows[id])
      {
        AgreeingTimesTell(place, rows, listing, rows', id);
      }
    }
  }

  /** It happens: a file that is overwritten with garbage and keeps its time keeps its
      row, which a rebuild would not give it. */
  lemma EqualTimesMislead(place: Place, row: Row, rows': Rows)
    requires row.path == Path(place.jobsDir, FileName(row.doc.jobId))
    requires IsRefreshed(place, FULL, map[row.doc.jobId := row],
                         map[FileName(row.doc.jobId) := Regular(File(row.mtime, NotJson))], rows')
    ensures rows' == map[row.doc.jobId := row]
    ensures !Agrees(place, map[FileName(row.doc.jobId) := Regular(File(row.mtime, NotJson))], rows')
  {
    var id := row.doc.jobId;
    var rows, listing := map[id := row], map[FileName(id) := Regular(File(row.mtime, NotJson))];
    assert RowOfEntry(place, FileName(id), listing[FileName(id)]) == None;
    FullRefreshIsRebuild(place, rows, listing, rows');
    forall other: JobId ensures Lookup(rows', other) == Lookup(rows, other) {
      FileNameInverse(other, "");
    }
    SameRows(rows, rows');
  }

  lemma ExpectedIsOwn(place: Place, listing: Listing, id: JobId)
    ensures ExpectedRow(place, listing, id).Some? ==> ExpectedRow(place, listing, id).value.doc.jobId == id
  {
    if ExpectedRow(place, listing, id).Some? {
      FileNameInverse(id, "");
      FileNameInverse(ExpectedRow(place, listing, id).value.doc.jobId, "");
    }
  }

  /** In particular a refresh of an empty index is the rebuild, and a refresh of an
      index that agrees with the directory changes nothing. */
  lemma RebuildAgrees(place: Place, listing: Listing, rows: Rows, rows': Rows)
    requires WellFormed(rows) && IsRefreshed(place, FULL, rows, listing, rows')
    requires rows == map[] || Agrees(place, listing, rows)
    ensures Agrees(place, listing, rows')
    ensures rows != map[] ==> rows' == rows
  {
    forall id <- rows ensures Lookup(rows, id) == Some(rows[id]) {}
    FullRefreshIsRebuild(place, rows, listing, rows');
    if rows != map[] {
      forall id: JobId ensures Lookup(rows', id) == Lookup(rows, id) {
        assert Lookup(rows', id) == ExpectedRow(place, listing, id);
      }
      SameRows(rows, rows');
    }
  }

  lemma SameRows(rows: Rows, rows': Rows)
    requires forall id: JobId :: Lookup(rows', id) == Lookup(rows, id)
    ensures rows' == rows
  {
    forall id: JobId ensures id in rows <==> id in rows' {
      assert Lookup(rows', id) == Lookup(rows, id);
    }
    forall id <- rows ensures rows'[id] == rows[id] {
      assert Lookup(rows', id) == Lookup(rows, id);
    }
  }

  /** What a link leads to would be accepted, although a walk never accepts a link. */
  predicate MisleadingLink(place: Place, listing: Listing, name: Name) {
    name in listing && listing[name].Link? && FollowedRow(place, listing, name).Some?
  }

  /** The row survives because it was recorded for another directory. */
  predicate ElsewhereRow(place: Place, rows: Rows, id: JobId) {
    id in rows && rows[id].path.dir != place.jobsDir
  }

  /** A single-file refresh touches no other job, and makes its own job agree unless
      the file is a link to an acceptable file, or a link that cannot be followed and
      the job has a row, or, having no acceptable file, the job has a row from another
      directory. */
  lemma FileRefreshRepairs(place: Place, rows: Rows, listing: Listing, id: JobId)
    requires WellFormed(rows)
    ensures var rows' := FileRefreshed(place, rows, listing, Path(place.jobsDir, FileName(id)));
            && WellFormed(rows')
            && (forall other: JobId | other != id :: Lookup(rows', other) == Lookup(rows, other))
            && (Lookup(rows', id) == ExpectedRow(place, listing, id) <==>
                  (StatFails(listing, FileName(id)) ==> id !in rows) &&
                  !MisleadingLink(place, listing, FileName(id)) &&
                  (FollowedRow(place, listing, FileName(id)).Some? || !ElsewhereRow(place, rows, id)))
  {
    FileNameInverse(id, "");
    var row := FollowedRow(place, listing, FileName(id));
    if row.Some? {
      FileNameInverse(row.value.doc.jobId, "");
    } else {
      forall other <- rows | other != id ensures rows[other].path.name != FileName(id) {
        FileNameInverse(other, "");
      }
    }
  }

  /** There are acceptable files. */
  lemma AcceptableFile(place: Place) returns (id: JobId, file: File)
    ensures RowOf(place, FileName(id), file).Some?
  {
    id := "cron-1700000000";
    assert id[5..] == "1700000000" && AllDigits("1700000000");
    var user := "abcdefg1";
    assert IsLower(user[0]) && IsDigit(user[7]);
    file := File(0, Job(Document(3, id, "cron", "finished", "clean", "warn", 1, None, user, None)));
  }

  /** The exceptions happen: a link to an acceptable file, ... */
  lemma LinksMislead(place: Place) returns (id: JobId, file: File)
    ensures RowOf(place, FileName(id), file).Some?
    ensures var listing := map[FileName(id) := Link(0, ToFile(file))];
            var rows := FileRefreshed(place, map[], listing, Path(place.jobsDir, FileName(id)));
            Lookup(rows, id) == RowOf(place, FileName(id), file) != ExpectedRow(place, listing, id)
  {
    id, file := AcceptableFile(place);
    LinkMisleads(place, id, file);
  }

  lemma LinkMisleads(place: Place, id: JobId, file: File)
    requires RowOf(place, FileName(id), file).Some?
    ensures var listing := map[FileName(id) := Link(0, ToFile(file))];
            var rows := FileRefreshed(place, map[], listing, Path(place.jobsDir, FileName(id)));
            Lookup(rows, id) == RowOf(place, FileName(id), file) != ExpectedRow(place, listing, id)
  {
    FileNameInverse(id, "");
    FileNameInverse(RowOf(place, FileName(id), file).value.doc.jobId, "");
  }

  /** ... a loop of links in the place of a file that has a row, ... */
  lemma LoopsMislead(place: Place, row: Row)
    requires row.path == Path(place.jobsDir, FileName(row.doc.jobId))
    ensures var listing := map[FileName(row.doc.jobId) := Link(0, Unknown)];
            var rows := FileRefreshed(place, map[row.doc.jobId := row], listing, row.path);
            Lookup(rows, row.doc.jobId) == Some(row) != ExpectedRow(place, listing, row.doc.jobId)
  {
    FileRefreshRepairs(place, map[row.doc.jobId := row], map[FileName(row.doc.jobId) := Link(0, Unknown)], row.doc.jobId);
  }

  /** ... and a job whose file is gone and whose row is from another directory. */
  lemma OtherDirectoriesStay(place: Place, row: Row)
    requires row.path.dir != place.jobsDir && row.path.name == FileName(row.doc.jobId)
    ensures var rows := FileRefreshed(place, map[row.doc.jobId := row], map[], Path(place.jobsDir, FileName(row.doc.jobId)));
            Lookup(rows, row.doc.jobId) == Some(row) != ExpectedRow(place, map[], row.doc.jobId)
  {
    FileRefreshRepairs(place, map[row.doc.jobId := row], map[], row.doc.jobId);
  }

  /** The schema upgrade never removes a row: each stays as it was or becomes the
      row of its file, and every acceptable file gets its row. */
  lemma UpgradeKeepsRows(place: Place, rows: Rows, listing: Listing, rows': Rows)
    requires WellFormed(rows) && IsRefreshed(place, BACKFILL, rows, listing, rows')
    ensures rows.Keys <= rows'.Keys
    ensures forall id: JobId ::
              Lookup(rows', id) ==
              if ExpectedRow(place, listing, id).Some? then ExpectedRow(place, listing, id) else Lookup(rows, id)
  {
    forall id: JobId
      ensures Lookup(rows', id) ==
              if ExpectedRow(place, listing, id).Some? then ExpectedRow(place, listing, id) else Lookup(rows, id)
    {
      FileNameInverse(id, "");
      assert Lookup(rows', id) == RowAfterRefresh(place, BACKFILL, rows, listing, id);
    }
    forall id <- rows ensures id in rows' {
      assert Lookup(rows', id).Some?;
    }
  }
}
