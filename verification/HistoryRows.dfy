/** What a row of the history index holds and when a job has one
    (server/history_index.go), with every condition on the job file written out. */
module HistoryRows {
  import opened HistoryIndex
  import opened Optional
  import opened UserIds

  predicate DigitAt(s: string, i: int)
    requires 0 <= i < |s|
  {
    '0' <= s[i] <= '9'
  }

  /** From `start` on: ten to nineteen digits, or those, a dash and three digits. */
  predicate StampFrom(id: string, start: nat) {
    || (start + 10 <= |id| <= start + 19 && forall i | start <= i < |id| :: DigitAt(id, i))
    || (start + 14 <= |id| <= start + 23 && id[|id| - 4] == '-' &&
        forall i | start <= i < |id| && i != |id| - 4 :: DigitAt(id, i))
  }

  predicate JobIdShape(id: string) {
    ("manual-" <= id && StampFrom(id, 7)) || ("cron-" <= id && StampFrom(id, 5))
  }

  predicate EightLowerAlphanumerics(user: string) {
    && |user| == 8
    && (forall i | 0 <= i < 8 :: 'a' <= user[i] <= 'z' || '0' <= user[i] <= '9')
    && (exists i | 0 <= i < 8 :: 'a' <= user[i] <= 'z')
    && (exists i | 0 <= i < 8 :: '0' <= user[i] <= '9')
  }

  lemma StampIs(id: string, start: nat)
    requires start <= |id|
    ensures StampAndSerial(id[start..]) <==> StampFrom(id, start)
  {
    var tail := id[start..];
    StampDigits(id, start, |id|);
    if 4 <= |tail| {
      StampDigits(id, start, |id| - 4);
      assert tail[..|tail| - 4] == id[start..|id| - 4];
      StampDigits(id, |id| - 3, |id|);
      assert tail[|tail| - 3..] == id[|id| - 3..|id|];
    }
  }

  lemma StampDigits(id: string, from: nat, to: nat)
    requires from <= to <= |id|
    ensures AllDigits(id[from..to]) <==> forall i | from <= i < to :: DigitAt(id, i)
  {
    var part := id[from..to];
    if AllDigits(part) {
      forall i | from <= i < to ensures DigitAt(id, i) { assert IsDigit(part[i - from]); }
    }
    if forall i | from <= i < to :: DigitAt(id, i) {
      forall i | 0 <= i < |part| ensures IsDigit(part[i]) { assert DigitAt(id, from + i); }
    }
  }

  lemma JobIdIs(id: string)
    ensures ValidJobId(id) <==> JobIdShape(id)
  {
    if "manual-" <= id { StampIs(id, 7); }
    if "cron-" <= id { StampIs(id, 5); }
  }

  lemma UserIs(user: string)
    ensures ValidUserId(user) <==> EightLowerAlphanumerics(user)
  {
    if ValidUserId(user) {
      var i :| 0 <= i < 8 && IsLower(user[i]);
      var j :| 0 <= j < 8 && IsDigit(user[j]);
    }
    if EightLowerAlphanumerics(user) {
      var i :| 0 <= i < 8 && 'a' <= user[i] <= 'z';
      var j :| 0 <= j < 8 && '0' <= user[j] <= '9';
      assert IsLower(user[i]) && IsDigit(user[j]);
    }
  }

  /** The document of a job of version 3 that belongs in the file of this name. */
  predicate Acceptable(doc: Document, name: string) {
    && doc.version == 3 && doc.startedAt >= 1
    && name == doc.jobId + ".json" && JobIdShape(doc.jobId)
    && ((doc.jobType == "manual" && "manual-" <= doc.jobId) || (doc.jobType == "cron" && "cron-" <= doc.jobId))
    && doc.action in {"warn", "move", "remove"}
    && EightLowerAlphanumerics(doc.userId)
  }

  lemma AcceptableIs(doc: Document, name: string)
    ensures ValidDocument(doc, name) <==> Acceptable(doc, name)
  {
    JobIdIs(doc.jobId);
    UserIs(doc.userId);
    assert "manual" + "-" == "manual-" && "cron" + "-" == "cron-";
  }

  /** A regular file, not a link, holds an acceptable document of the job, and the
      detection log is there when one is needed. */
  predicate DeservesRow(place: Place, listing: Listing, id: JobId) {
    var name := id + ".json";
    && name in listing && listing[name].Regular? && listing[name].file.content.Job?
    && var doc := listing[name].file.content.doc;
    && Acceptable(doc, name)
    && (doc.result != "found" || doc.detectionLog == None ||
        (place.ownLog(doc.detectionLog.value, id) && id in place.logs))
  }

  /** A job has a row exactly if it deserves one. */
  lemma RowExactly(place: Place, listing: Listing, id: JobId)
    ensures ExpectedRow(place, listing, id).Some? <==> DeservesRow(place, listing, id)
  {
    var name := id + ".json";
    if name in listing && listing[name].Regular? && listing[name].file.content.Job? {
      var doc := listing[name].file.content.doc;
      AcceptableIs(doc, name);
      SameId(doc.jobId, id, name);
    }
  }

  lemma SameId(jobId: JobId, id: JobId, name: string)
    requires name == id + ".json"
    ensures name == jobId + ".json" <==> jobId == id
  {
    FileNameInverse(jobId, name);
    FileNameInverse(id, name);
  }

  /** What such a row holds: the document, where and of when it is, and the detections
      of its own log if something was found and a log is named, none otherwise. */
  lemma RowHolds(place: Place, listing: Listing, id: JobId)
    requires ExpectedRow(place, listing, id).Some?
    ensures id + ".json" in listing && listing[id + ".json"].Regular? && listing[id + ".json"].file.content.Job?
    ensures var row := ExpectedRow(place, listing, id).value;
            var file := listing[id + ".json"].file;
            && row.doc == file.content.doc && row.mtime == file.mtime && row.doc.jobId == id
            && row.path.dir == place.jobsDir && row.path.name == id + ".json"
            && (row.doc.result == "found" && row.doc.detectionLog != None ==>
                  id in place.logs && row.detections == place.logs[id])
            && (row.doc.result != "found" || row.doc.detectionLog == None ==> row.detections == [])
  {
    SameId(listing[id + ".json"].file.content.doc.jobId, id, id + ".json");
  }

  /** So after a full refresh whose times told the truth, what the index says of a job
      is exactly this. */
  lemma RefreshedExactly(place: Place, rows: Rows, listing: Listing, rows': Rows, id: JobId)
    requires WellFormed(rows) && MtimeTells(place, listing, rows) && IsRefreshed(place, FULL, rows, listing, rows')
    ensures id in rows' <==> DeservesRow(place, listing, id)
    ensures id in rows' ==> ExpectedRow(place, listing, id) == Some(rows'[id])
  {
    RowExactly(place, listing, id);
    FullRefreshIsRebuild(place, rows, listing, rows');
    assert Lookup(rows', id) == ExpectedRow(place, listing, id);
  }

  /** After the refresh of one file that is regular or gone, in a directory whose rows
      are its own, its job has a row exactly if it deserves one, and no other job's
      row is touched. */
  lemma FileRefreshedExactly(place: Place, rows: Rows, listing: Listing, id: JobId, other: JobId)
    requires WellFormed(rows) && (id in rows ==> rows[id].path.dir == place.jobsDir)
    requires id + ".json" in listing ==> listing[id + ".json"].Regular?
    ensures var rows' := FileRefreshed(place, rows, listing, Path(place.jobsDir, id + ".json"));
            && (id in rows' <==> DeservesRow(place, listing, id))
            && (id in rows' ==> ExpectedRow(place, listing, id) == Some(rows'[id]))
            && (other != id ==> (other in rows' <==> other in rows) && (other in rows ==> rows'[other] == rows[other]))
  {
    var rows' := FileRefreshed(place, rows, listing, Path(place.jobsDir, id + ".json"));
    FileRefreshRepairs(place, rows, listing, id);
    RowExactly(place, listing, id);
    assert Lookup(rows', id) == ExpectedRow(place, listing, id);
    if other != id { assert Lookup(rows', other) == Lookup(rows, other); }
  }
}
