/** Moving a detected file into quarantine and back, with every command free to
    fail (scan_once.sh, server/quarantine.go).

    The file system is a map from paths to contents; directories, links and modes
    are left out. What each command does is decided by an Outcome the caller cannot
    choose: whether it reports success, whether it took effect all the same, and
    what it left at its destination. A copy that reports success is complete, and
    mv gives up its source only when its target is complete. `history` records the
    files after every command. */
module Quarantine {
  import opened Optional
  import opened UserIds
  import opened Text
  import opened QuarantineRecords

  type Path = string
  type Data = string
  type Files = map<Path, Data>

  datatype Outcome = Outcome(ok: bool, done: bool, left: Option<Data>)

  const FINE := Outcome(true, true, None)

  /** The outcomes of one quarantine run, in the order of its commands. */
  datatype ScanOutcomes = ScanOutcomes(
    reserve: nat -> Outcome,
    tmpRecord: Option<Path>,
    write: Outcome,
    move: nat -> Outcome,
    publish: Outcome,
    tidyTmp: Outcome,
    tidyRecord: Outcome,
    rollBack: Outcome)

  /** Commands k and k + 1 copy the file and delete the source. */
  predicate AttemptWorks(o: nat -> Outcome, k: nat) {
    o(k).ok && o(k + 1).ok && o(k + 1).done
  }

  /** They do not, but the source is still there, and command k + 2 cleans up what the
      copy left, if it left anything. */
  predicate AttemptYields(o: nat -> Outcome, k: nat) {
    && !(o(k).ok && (o(k + 1).ok || o(k + 1).done))
    && (o(k).ok || o(k).left.Some? ==> o(k + 2).ok)
  }

  /** One of the three ways of moving works, after those before it failed cleanly. */
  predicate MoveWorks(o: nat -> Outcome) {
    AttemptWorks(o, 0) || (AttemptYields(o, 0) && (AttemptWorks(o, 3) || (AttemptYields(o, 3) && o(6).ok)))
  }

  /** The commands that quarantine needs work. */
  predicate Works(o: ScanOutcomes) {
    o.tmpRecord.Some? && o.write.ok && MoveWorks(o.move) && o.publish.ok
  }

  /** `intruder` is a file that another process puts at the restore target after it
      was found free and before it is created. */
  datatype RestoreOutcomes = RestoreOutcomes(
    intruder: Option<Data>,
    create: Outcome,
    copy: Outcome,
    close: Outcome,
    chmod: Outcome,
    undoCopy: Outcome,
    remove: Outcome,
    undoRestore: Outcome,
    removeRecord: Outcome)

  datatype Error = Fine | NotFound | BadRecord | Denied | AlreadyExists | CopyFailed | RemoveFailed | RecordStays

  function Content(files: Files, path: Path): Option<Data> {
    if path in files then Some(files[path]) else None
  }

  /** What was at the source, if anything was, is complete at the original path or
      in quarantine. */
  predicate Kept(files: Files, source: Path, target: Path, data: Option<Data>) {
    data.Some? ==> Content(files, source) == data || Content(files, target) == data
  }

  function WithLeft(files: Files, path: Path, left: Option<Data>): Files {
    match left
    case None => files - {path}
    case Some(data) => files[path := data]
  }

  /** Nothing but the named paths may differ. */
  predicate SameBut(files: Files, files': Files, paths: set<Path>) {
    files - paths == files' - paths
  }

  /** One complete copy of `source` is at one of the two paths, and nothing has
      happened to any other path. */
  predicate Safe(before: Files, files: Files, source: Path, target: Path) {
    source in before && Kept(files, source, target, Content(before, source)) && SameBut(before, files, {source, target})
  }

  /** Every state recorded since is safe. */
  ghost predicate SafeSince(before: Files, past: seq<Files>, history: seq<Files>, source: Path, target: Path) {
    past <= history && forall k | |past| <= k < |history| :: Safe(before, history[k], source, target)
  }

  lemma SafeStep(before: Files, past: seq<Files>, history: seq<Files>, files: Files, source: Path, target: Path)
    requires SafeSince(before, past, history, source, target) && Safe(before, files, source, target)
    ensures SafeSince(before, past, history + [files], source, target)
  {
  }

  ghost predicate KeptSince(past: seq<Files>, history: seq<Files>, source: Path, target: Path, data: Option<Data>) {
    past <= history && forall k | |past| <= k < |history| :: Kept(history[k], source, target, data)
  }

  lemma KeptStep(past: seq<Files>, history: seq<Files>, files: Files, source: Path, target: Path, data: Option<Data>)
    requires KeptSince(past, history, source, target, data) && Kept(files, source, target, data)
    ensures KeptSince(past, history + [files], source, target, data)
  {
  }

  lemma SafeIsKept(before: Files, past: seq<Files>, middle: seq<Files>, history: seq<Files>, source: Path, target: Path)
    requires source in before && KeptSince(past, middle, source, target, Content(before, source))
    requires SafeSince(before, middle, history, source, target)
    ensures KeptSince(past, history, source, target, Content(before, source))
  {
    forall k | |past| <= k < |history| ensures Kept(history[k], source, target, Content(before, source)) {
      if k >= |middle| { assert Safe(before, history[k], source, target); }
    }
  }

  /** Files only appeared. */
  ghost predicate OnlyGrewSince(before: Files, past: seq<Files>, history: seq<Files>) {
    past <= history && forall k | |past| <= k < |history| :: Includes(history[k], before)
  }

  predicate Includes(files: Files, before: Files) {
    forall path <- before :: path in files && files[path] == before[path]
  }

  lemma GrownIsKept(before: Files, past: seq<Files>, history: seq<Files>, source: Path, target: Path)
    requires OnlyGrewSince(before, past, history)
    ensures KeptSince(past, history, source, target, Content(before, source))
  {
    forall k | |past| <= k < |history| ensures Kept(history[k], source, target, Content(before, source)) {
      assert Includes(history[k], before);
    }
  }

  function WithIntruder(files: Files, path: Path, intruder: Option<Data>): Files {
    if intruder.Some? && path !in files then files[path := intruder.value] else files
  }

  predicate CopyWorks(o: RestoreOutcomes) {
    o.intruder.None? && o.create.ok && o.copy.ok && o.close.ok && o.chmod.ok
  }

  predicate Untroubled(o: RestoreOutcomes) {
    CopyWorks(o) && o.remove.ok && o.removeRecord.ok
  }

  /** The one way to lose a file: its removal from quarantine takes effect and reports
      failure, and the good copy is then taken back. */
  predicate Loses(files: Files, quarantined: Path, source: Path, o: RestoreOutcomes) {
    && quarantined in files && source !in files && CopyWorks(o)
    && !o.remove.ok && o.remove.done && o.undoRestore.done
  }

  lemma QuarantinedStays(before: Files, past: seq<Files>, history: seq<Files>, source: Path, quarantined: Path)
    requires past <= history && source != quarantined
    requires forall k | |past| <= k < |history| :: SameBut(before, history[k], {source})
    ensures KeptSince(past, history, source, quarantined, Content(before, quarantined))
  {
    forall k | |past| <= k < |history| ensures Kept(history[k], source, quarantined, Content(before, quarantined)) {
      assert quarantined in before - {source} <==> quarantined in history[k] - {source};
      if quarantined in before {
        assert (before - {source})[quarantined] == (history[k] - {source})[quarantined];
      }
    }
  }

  lemma MovedIs(before: Files, files: Files, source: Path, target: Path)
    requires Safe(before, files, source, target) && source != target && source !in files
    ensures files == (before - {source})[target := before[source]]
  {
    forall path ensures path in files <==> path in (before - {source})[target := before[source]] {
      assert path in before - {source, target} <==> path in files - {source, target};
    }
    forall path <- files ensures files[path] == (before - {source})[target := before[source]][path] {
      if path != target { assert (before - {source, target})[path] == (files - {source, target})[path]; }
    }
  }

  lemma SameButChain(a: Files, b: Files, c: Files, first: set<Path>, second: set<Path>, all: set<Path>)
    requires SameBut(a, b, first) && SameBut(b, c, second) && first + second <= all
    ensures SameBut(a, c, all)
  {
    assert a - all == (a - first) - all && b - all == (b - first) - all;
    assert b - all == (b - second) - all && c - all == (c - second) - all;
  }

  lemma PutBack(before: Files, source: Path, target: Path, record: Path, text: Data)
    requires source in before && target !in before && record !in before && target != record
    ensures var away := (before - {source})[target := before[source]][record := text];
            away[target] == before[source] && (away - {target, record})[source := before[source]] == before
  {
    var away := (before - {source})[target := before[source]][record := text];
    assert away - {target, record} == before - {source};
  }

  class FileSystem {
    const dir: Path
    var files: Files
    ghost var history: seq<Files>

    constructor (dir: Path, files: Files)
      ensures this.dir == dir && this.files == files && history == [files]
    {
      this.dir, this.files, history := dir, files, [files];
    }

    function Target(name: string): Path {
      dir + "/" + name
    }

    // ----------------------------------------------------------- single commands

    /** cp -l and cp -p. */
    method Copy(source: Path, target: Path, outcome: Outcome) returns (ok: bool)
      modifies this
      ensures ok == (outcome.ok && source in old(files))
      ensures files == if ok then old(files)[target := old(files)[source]] else WithLeft(old(files), target, outcome.left)
      ensures history == old(history) + [files]
    {
      ok := outcome.ok && source in files;
      files := if ok then files[target := files[source]] else WithLeft(files, target, outcome.left);
      history := history + [files];
    }

    /** rm and os.Remove: what is reported need not be what was done. */
    method Remove(path: Path, outcome: Outcome) returns (ok: bool)
      modifies this
      ensures ok == outcome.ok
      ensures files == if outcome.done then old(files) - {path} else old(files)
      ensures history == old(history) + [files]
    {
      ok := outcome.ok;
      files := if outcome.done then files - {path} else files;
      history := history + [files];
    }

    /** mv; a failing one may have moved the file all the same. */
    method Move(source: Path, target: Path, outcome: Outcome) returns (ok: bool)
      modifies this
      ensures ok == (outcome.ok && source in old(files))
      ensures files == if source in old(files) && (outcome.ok || outcome.done)
                       then (old(files) - {source})[target := old(files)[source]]
                       else WithLeft(old(files), target, outcome.left)
      ensures history == old(history) + [files]
    {
      ok := outcome.ok && source in files;
      files := if source in files && (outcome.ok || outcome.done) then (files - {source})[target := files[source]]
               else WithLeft(files, target, outcome.left);
      history := history + [files];
    }

    /** Writing a new file: all of it, or whatever a failing write leaves. */
    method Write(path: Path, data: Data, outcome: Outcome) returns (ok: bool)
      modifies this
      ensures ok == outcome.ok
      ensures files == if ok then old(files)[path := data] else WithLeft(old(files), path, outcome.left)
      ensures history == old(history) + [files]
    {
      ok := outcome.ok;
      files := if ok then files[path := data] else WithLeft(files, path, outcome.left);
      history := history + [files];
    }

    // ----------------------------------------------------------- the move chain

    /** cleanup_failed_quarantine_target. */
    method CleanUpTarget(target: Path, outcome: Outcome) returns (ok: bool)
      modifies this
      ensures files == old(files) || files == old(files) - {target}
      ensures history == old(history) || history == old(history) + [files]
      ensures ok <==> target !in old(files) || outcome.ok
    {
      if target !in files {
        return true;
      }
      ok := Remove(target, outcome);
    }

    /** prepare_move_fallback: with the source gone the target may be the only copy,
        so it is only cleaned up while the source is there. */
    method PrepareFallback(source: Path, target: Path, outcome: Outcome, ghost before: Files, ghost past: seq<Files>)
      returns (ok: bool)
      requires source != target
      requires Safe(before, files, source, target) && SafeSince(before, past, history, source, target)
      requires source in files ==> files[source] == before[source]
      modifies this
      ensures Safe(before, files, source, target) && SafeSince(before, past, history, source, target)
      ensures ok <==> source in old(files) && (target !in old(files) || outcome.ok)
      ensures ok ==> source in files && files[source] == before[source]
    {
      if source !in files {
        return false;
      }
      ok := CleanUpTarget(target, outcome);
      SafeStep(before, past, old(history), files, source, target);
    }

    /** verify_completed_move. */
    method CompletedMove(source: Path, target: Path) returns (ok: bool)
      ensures ok <==> source !in files && target in files
    {
      ok := source !in files && target in files;
    }

    /** One attempt: cp (-l or -p) and rm. `settled` says that the attempt decides
        the outcome; otherwise there is a fallback. */
    method CopyAndDelete(source: Path, target: Path, copy: Outcome, remove: Outcome, ghost before: Files, ghost past: seq<Files>)
      returns (settled: bool, ok: bool)
      requires source != target && source in files
      requires Safe(before, files, source, target) && SafeSince(before, past, history, source, target)
      requires files[source] == before[source]
      modifies this
      ensures Safe(before, files, source, target) && SafeSince(before, past, history, source, target)
      ensures source in files ==> files[source] == before[source]
      ensures ok ==> settled && files == (before - {source})[target := before[source]]
      ensures (settled <==> copy.ok && remove.ok) && (ok <==> copy.ok && remove.ok && remove.done)
      ensures source in files <==> !(copy.ok && remove.done)
      ensures target in files <==> copy.ok || copy.left.Some?
    {
      ok := Copy(source, target, copy);
      SafeStep(before, past, old(history), files, source, target);
      settled := false;
      if ok {
        ghost var copied := history;
        ok := Remove(source, remove);
        SafeStep(before, past, copied, files, source, target);
        if ok {
          ok := CompletedMove(source, target);
          if ok { MovedIs(before, files, source, target); }
          settled := true;
        }
      }
    }

    /** move_detected_file: hard link and delete, else copy and delete, else mv. The
        file is complete at one of the two paths after every command, whatever
        fails. It reports success exactly if one of the three ways works after those
        before it failed cleanly, and then the file has moved. */
    method MoveDetectedFile(source: Path, target: Path, outcomes: nat -> Outcome) returns (ok: bool)
      requires source != target
      modifies this
      ensures source in old(files) ==> Safe(old(files), files, source, target)
      ensures source in old(files) ==> SafeSince(old(files), old(history), history, source, target)
      ensures ok ==> source in old(files) && files == (old(files) - {source})[target := old(files)[source]]
      ensures source !in old(files) ==> !ok && files == old(files) && history == old(history)
      ensures ok <==> source in old(files) && MoveWorks(outcomes)
    {
      if source !in files {
        return false;
      }
      ghost var before, past := files, history;
      var settled: bool;
      settled, ok := CopyAndDelete(source, target, outcomes(0), outcomes(1), before, past);
      if settled {
        return;
      }
      ok := PrepareFallback(source, target, outcomes(2), before, past);
      if !ok {
        return;
      }
      settled, ok := CopyAndDelete(source, target, outcomes(3), outcomes(4), before, past);
      if settled {
        return;
      }
      ok := PrepareFallback(source, target, outcomes(5), before, past);
      if !ok {
        return;
      }
      ok := MoveLast(source, target, outcomes(6), outcomes(7), before, past);
    }

    /** The last resort, mv, and the clean-up after it. */
    method MoveLast(source: Path, target: Path, move: Outcome, cleanUp: Outcome, ghost before: Files, ghost past: seq<Files>)
      returns (ok: bool)
      requires source != target && source in files
      requires Safe(before, files, source, target) && SafeSince(before, past, history, source, target)
      requires files[source] == before[source]
      modifies this
      ensures Safe(before, files, source, target) && SafeSince(before, past, history, source, target)
      ensures ok ==> files == (before - {source})[target := before[source]]
      ensures ok <==> move.ok
    {
      ok := Move(source, target, move);
      SafeStep(before, past, old(history), files, source, target);
      if ok {
        ok := CompletedMove(source, target);
        if ok { MovedIs(before, files, source, target); }
        return;
      }
      if source in files {
        ghost var moved := history;
        var cleaned := CleanUpTarget(target, cleanUp);
        SafeStep(before, past, moved, files, source, target);
      }
    }
  
    // ----------------------------------------------------------- into quarantine

    function RecordOf(name: string): Path {
      Target(name) + SUFFIX
    }

    predicate Free(files: Files, name: string) {
      Target(name) !in files && RecordOf(name) !in files
    }

    /** All names that are tried before this serial number are taken, and fit. */
    ghost predicate TriedUpTo(files: Files, base: string, index: nat, nameMax: nat) {
      && FirstIndex(base) <= index
      && forall j | FirstIndex(base) <= j < index :: !Free(files, NameAt(base, j)) && Fits(NameAt(base, j), nameMax)
    }

    /** The search comes to a free name before it comes to one that is too long. */
    ghost predicate CanReserve(files: Files, base: string, nameMax: nat) {
      exists index: nat ::
        TriedUpTo(files, base, index, nameMax) && Free(files, NameAt(base, index)) && Fits(NameAt(base, index), nameMax)
    }

    /** The search that stops at a serial number decides. */
    lemma ReserveDecided(files: Files, base: string, index: nat, nameMax: nat)
      requires TriedUpTo(files, base, index, nameMax)
      requires !Fits(NameAt(base, index), nameMax) || Free(files, NameAt(base, index))
      ensures CanReserve(files, base, nameMax) <==> Fits(NameAt(base, index), nameMax)
    {
      if CanReserve(files, base, nameMax) {
        var k: nat :| TriedUpTo(files, base, k, nameMax) && Free(files, NameAt(base, k)) && Fits(NameAt(base, k), nameMax);
        assert !(k < index);
      }
    }

    /** Where the search stands: what it found taken, and what other scans added. */
    ghost predicate Searching(before: Files, past: seq<Files>, files: Files, history: seq<Files>, others: Files,
                              base: string, serial: nat, nameMax: nat) {
      && files == before + others && RecordsOnly(before, others)
      && OnlyGrewSince(before, past, history)
      && TriedUpTo(files, base, serial, nameMax)
    }

    /** `others` are new records. */
    ghost predicate RecordsOnly(before: Files, others: Files) {
      others.Keys !! before.Keys && forall path <- others :: HasSuffix(path, SUFFIX) && dir + "/" <= path
    }

    lemma SearchOn(before: Files, past: seq<Files>, files: Files, history: seq<Files>, others: Files,
                   base: string, serial: nat, nameMax: nat)
      requires Searching(before, past, files, history, others, base, serial, nameMax)
      requires !Free(files, NameAt(base, serial)) && Fits(NameAt(base, serial), nameMax)
      ensures Searching(before, past, files, history, others, base, serial + 1, nameMax)
    {
    }

    lemma NameIsLost(before: Files, past: seq<Files>, files: Files, history: seq<Files>, others: Files, other: Files,
                     base: string, serial: nat, nameMax: nat)
      requires Searching(before, past, files, history, others, base, serial, nameMax)
      requires RecordsOnly(files, other)
      ensures Searching(before, past, files + other, history + [files + other], others + other, base, serial, nameMax)
    {
      assert before + others + other == before + (others + other);
    }

    lemma NameIsTaken(before: Files, past: seq<Files>, files: Files, history: seq<Files>, others: Files,
                      base: string, serial: nat, nameMax: nat, path: Path)
      requires Searching(before, past, files, history, others, base, serial, nameMax) && path !in files
      ensures OnlyGrewSince(before, past, history + [files[path := ""]])
    {
    }

    /** reserve_quarantine_name: the first serial number whose name and record are
        both free, unless a name before it is too long. `others` are records that
        other scans created while this one searched. */
    method ReserveName(base: string, outcomes: nat -> Outcome, nameMax: nat)
      returns (found: bool, name: string, ghost index: nat, ghost others: Files)
      modifies this
      ensures RecordsOnly(old(files), others)
      ensures OnlyGrewSince(old(files), old(history), history)
      ensures name == NameAt(base, index) && TriedUpTo(old(files) + others, base, index, nameMax)
      ensures found <==> Fits(name, nameMax) && outcomes(index).ok
      ensures Fits(name, nameMax) ==> Free(old(files) + others, name)
      ensures files == if found then (old(files) + others)[RecordOf(name) := ""] else old(files) + others
      ensures (forall k :: outcomes(k).ok) ==> others == map[] && (found <==> CanReserve(old(files), base, nameMax))
    {
      found, name, index, others := false, "", 0, map[];
      ghost var before, past := files, history;
      ghost var allOk := forall k :: outcomes(k).ok;
      var serial := FirstIndex(base);
      while true
        invariant Searching(before, past, files, history, others, base, serial, nameMax)
        invariant allOk ==> others == map[]
        decreases Pow10(nameMax) - serial
      {
        name, index := NameAt(base, serial), serial;
        if |name| > nameMax || |name| + |SUFFIX| > nameMax {
          Decide(before, base, serial, nameMax, others);
          return;
        }
        IndexBound(base, serial, nameMax);
        if Target(name) in files || RecordOf(name) in files {
          SearchOn(before, past, files, history, others, base, serial, nameMax);
          serial := serial + 1;
          continue;
        }
        ghost var was, h, other := files, history, map[];
        found, other := TakeName(name, outcomes(serial));
        if found {
          NameIsTaken(before, past, was, h, others, base, serial, nameMax, RecordOf(name));
          Decide(before, base, serial, nameMax, others);
          return;
        }
        NameIsLost(before, past, was, h, others, other, base, serial, nameMax);
        others := others + other;
        if Target(name) in files || RecordOf(name) in files {
          SearchOn(before, past, files, history, others, base, serial, nameMax);
          serial := serial + 1;
          continue;
        }
        return;
      }
    }

    /** The empty record is created; if that fails, another scan may have created it. */
    method TakeName(name: string, outcome: Outcome) returns (found: bool, ghost other: Files)
      requires Free(files, name)
      modifies this
      ensures found == outcome.ok
      ensures files == if found then old(files)[RecordOf(name) := ""] else old(files) + other
      ensures RecordsOnly(old(files), other)
      ensures history == old(history) + [files]
    {
      found := Write(RecordOf(name), "", outcome);
      other := if RecordOf(name) in files then map[RecordOf(name) := files[RecordOf(name)]] else map[];
      assert RecordOf(name)[|RecordOf(name)| - 4..] == SUFFIX;
    }

    lemma Decide(before: Files, base: string, index: nat, nameMax: nat, others: Files)
      requires TriedUpTo(before + others, base, index, nameMax)
      requires !Fits(NameAt(base, index), nameMax) || Free(before + others, NameAt(base, index))
      ensures others == map[] ==> (CanReserve(before, base, nameMax) <==> Fits(NameAt(base, index), nameMax))
    {
      if others == map[] {
        assert before + others == before;
        ReserveDecided(before, base, index, nameMax);
      }
    }

    /** A file with a plain name that nobody took is given that name. */
    lemma PlainNameIsReserved(files: Files, base: string, nameMax: nat)
      requires DataName(base) && Fits(base, nameMax) && Free(files, base)
      ensures CanReserve(files, base, nameMax)
    {
      assert NameAt(base, 0) == base && TriedUpTo(files, base, 0, nameMax);
    }

    /** mktemp's name is new: not a file, and not a name a quarantined file can get. */
    ghost predicate FreshTmp(tmp: Path, base: string)
      reads this
    {
      tmp !in files && dir + "/" <= tmp && !HasSuffix(tmp, SUFFIX) && forall index: nat :: tmp != Target(NameAt(base, index))
    }

    /** What a scan leaves when it gives up: the file is complete at one of its two
        paths, and nothing else is touched but the record and its temporary file. */
    ghost predicate GivenUp(before: Files, source: Path, name: string, tmp: Path)
      reads this
    {
      && Kept(files, source, Target(name), Content(before, source))
      && SameBut(before, files, {source, Target(name), RecordOf(name), tmp})
    }

    /** quarantine_detected_file after a name was reserved. */
    method QuarantineAs(source: Path, owner: string, name: string, tmp: Path, outcomes: ScanOutcomes,
                        ghost before: Files, ghost past: seq<Files>)
      returns (ok: bool)
      requires Free(before, name) && files == before[RecordOf(name) := ""]
      requires tmp !in files && tmp != Target(name)
      requires source != Target(name) && source != RecordOf(name) && source != tmp
      requires KeptSince(past, history, source, Target(name), Content(before, source))
      modifies this
      ensures KeptSince(past, history, source, Target(name), Content(before, source))
      ensures ok ==> source in before &&
                     files == (before - {source})[Target(name) := before[source]][RecordOf(name) := PrintRecord(source, owner)]
      ensures !ok ==> GivenUp(before, source, name, tmp)
      ensures ok <==> source in before && outcomes.write.ok && MoveWorks(outcomes.move) && outcomes.publish.ok
    {
      var target, record := Target(name), RecordOf(name);
      ghost var data := Content(before, source);
      ghost var h := history;
      ghost var all := {source, target, record, tmp};
      ok := Write(tmp, PrintRecord(source, owner), outcomes.write);
      KeptStep(past, h, files, source, target, data);
      ghost var staged := files;
      assert SameBut(before, staged, {record, tmp});
      if !ok {
        TidyUp(tmp, record, outcomes, source, target, data, past);
        SameButChain(before, staged, files, {record, tmp}, {tmp, record}, all);
        return;
      }
      h := history;
      ok := MoveDetectedFile(source, target, outcomes.move);
      if source in staged { SafeIsKept(staged, past, h, history, source, target); }
      ghost var moved := files;
      SameButChain(before, staged, moved, {record, tmp}, {source, target}, all);
      if !ok {
        TidyUp(tmp, record, outcomes, source, target, data, past);
        SameButChain(before, moved, files, all, {tmp, record}, all);
        return;
      }
      ok := Publish(source, name, tmp, outcomes, data, past);
      if !ok { SameButChain(before, moved, files, all, all, all); }
    }

    /** The end of quarantine_detected_file: the record appears, or the file goes
        back where it came from. */
    method Publish(source: Path, name: string, tmp: Path, outcomes: ScanOutcomes, ghost data: Option<Data>, ghost past: seq<Files>)
      returns (ok: bool)
      requires source !in files && tmp in files && Target(name) in files && Content(files, Target(name)) == data
      requires tmp !in {source, Target(name), RecordOf(name)} && source !in {Target(name), RecordOf(name)}
      requires KeptSince(past, history, source, Target(name), data)
      modifies this
      ensures KeptSince(past, history, source, Target(name), data)
      ensures Kept(files, source, Target(name), data)
      ensures ok ==> files == (old(files) - {tmp})[RecordOf(name) := old(files)[tmp]]
      ensures SameBut(old(files), files, {source, Target(name), RecordOf(name), tmp})
      ensures ok <==> outcomes.publish.ok
    {
      var target, record := Target(name), RecordOf(name);
      ghost var before, h := files, history;
      ok := Move(tmp, record, outcomes.publish);
      KeptStep(past, h, files, source, target, data);
      if ok {
        return;
      }
      ghost var unpublished := files;
      TidyUp(tmp, record, outcomes, source, target, data, past);
      ghost var tidied := files;
      SameButChain(before, unpublished, tidied, {record, tmp}, {tmp, record}, {record, tmp});
      h := history;
      var rolledBack := Move(target, source, outcomes.rollBack);
      KeptStep(past, h, files, source, target, data);
      SameButChain(before, tidied, files, {record, tmp}, {source, target}, {source, target, record, tmp});
    }

    /** rm -f of the temporary record and the record. */
    method TidyUp(tmp: Path, record: Path, outcomes: ScanOutcomes,
                  ghost source: Path, ghost target: Path, ghost data: Option<Data>, ghost past: seq<Files>)
      requires record != target && tmp != target && (source in files ==> source != tmp && source != record)
      requires Kept(files, source, target, data) && KeptSince(past, history, source, target, data)
      modifies this
      ensures Kept(files, source, target, data) && KeptSince(past, history, source, target, data)
      ensures files == old(files) - (if outcomes.tidyTmp.done then {tmp} else {}) -
                       (if outcomes.tidyRecord.done then {record} else {})
      ensures SameBut(old(files), files, {tmp, record})
      ensures target in files <==> target in old(files)
      ensures target in files ==> files[target] == old(files)[target]
    {
      ghost var h := history;
      var tidied := Remove(tmp, outcomes.tidyTmp);
      KeptStep(past, h, files, source, target, data);
      h := history;
      tidied := Remove(record, outcomes.tidyRecord);
      KeptStep(past, h, files, source, target, data);
    }
  
    lemma OutsideNames(source: Path, name: string)
      requires !(dir + "/" <= source)
      ensures source != Target(name) && source != RecordOf(name)
    {
      assert dir + "/" <= Target(name) && dir + "/" <= RecordOf(name);
    }

    /** quarantine_detected_file. Whatever fails, the file is complete at its path or
        at the reserved target after every command; a success moves it and publishes
        its record, and touches nothing else. It succeeds exactly if the file is there,
        the first free name fits, its record can be created and the commands work. */
    method QuarantineDetectedFile(source: Path, owner: string, outcomes: ScanOutcomes, nameMax: nat)
      returns (ok: bool, name: string, ghost index: nat, ghost others: Files)
      requires outcomes.tmpRecord.Some? ==> FreshTmp(outcomes.tmpRecord.value, BaseName(source))
      requires source in files || !(dir + "/" <= source)
      modifies this
      ensures others.Keys !! old(files).Keys
      ensures KeptSince(old(history), history, source, Target(name), Content(old(files), source))
      ensures Kept(files, source, Target(name), Content(old(files), source))
      ensures ok ==> Free(old(files) + others, name) && DataName(name)
      ensures ok ==> source in old(files) &&
                     files == (old(files) + others - {source})[Target(name) := old(files)[source]]
                                                              [RecordOf(name) := PrintRecord(source, owner)]
      ensures name == NameAt(BaseName(source), index) && TriedUpTo(old(files) + others, BaseName(source), index, nameMax)
      ensures ok <==> source in old(files) && Works(outcomes) && Fits(name, nameMax) && outcomes.reserve(index).ok
      ensures !ok && source in old(files) && Works(outcomes) ==> files == old(files) + others
      ensures (forall k :: outcomes.reserve(k).ok) ==>
                others == map[] &&
                (ok <==> source in old(files) && Works(outcomes) && CanReserve(old(files), BaseName(source), nameMax))
    {
      ghost var before, past := files, history;
      ghost var data := Content(files, source);
      ok, name, index, others := ReserveName(BaseName(source), outcomes.reserve, nameMax);
      GrownIsKept(before, past, history, source, Target(name));
      if !ok {
        return;
      }
      NameIsDataName(BaseName(source), index);
      if outcomes.tmpRecord.None? {
        ghost var h := history;
        var removed := Remove(RecordOf(name), outcomes.tidyRecord);
        KeptStep(past, h, files, source, Target(name), data);
        return false, name, index, others;
      }
      if source !in before { OutsideNames(source, name); }
      assert Content(before + others, source) == data;
      ok := QuarantineAs(source, owner, name, outcomes.tmpRecord.value, outcomes, before + others, past);
    }
  
    // ----------------------------------------------------------- out of quarantine

    /** copyRegularFile: the target is created exclusively, so a file that is there
        already, or appears at the last moment, is neither written nor removed. */
    method CopyRegularFile(source: Path, target: Path, o: RestoreOutcomes) returns (error: Error)
      requires source != target
      modifies this
      ensures error in {Fine, NotFound, AlreadyExists, CopyFailed}
      ensures old(history) <= history
      ensures error == Fine <==> source in old(files) && target !in old(files) && CopyWorks(o)
      ensures error == Fine ==> files == old(files)[target := old(files)[source]]
      ensures error != Fine ==> SameBut(old(files), files, {target})
      ensures target in old(files) ==> files == old(files) && error in {NotFound, AlreadyExists}
      ensures error == AlreadyExists ==> target in files && files == WithIntruder(old(files), target, o.intruder)
      ensures forall k | |old(history)| <= k < |history| ::
                SameBut(old(files), history[k], {target}) &&
                (target in old(files) ==> Content(history[k], target) == Content(old(files), target))
    {
      if source !in files {
        return NotFound;
      }
      var data := files[source];
      if o.intruder.Some? && target !in files {
        files := files[target := o.intruder.value];
        history := history + [files];
      }
      if target in files {
        return AlreadyExists;
      }
      if !o.create.ok {
        return CopyFailed;
      }
      var ok := Write(target, data, o.copy);
      if ok && o.close.ok && o.chmod.ok {
        return Fine;
      }
      var undone := Remove(target, o.undoCopy);
      return CopyFailed;
    }
  
    /** os.Remove: success means gone, failure may mean gone too. */
    method Unlink(path: Path, outcome: Outcome) returns (ok: bool)
      modifies this
      ensures ok == outcome.ok
      ensures files == if outcome.ok || outcome.done then old(files) - {path} else old(files)
      ensures history == old(history) + [files]
    {
      ok := outcome.ok;
      files := if outcome.ok || outcome.done then files - {path} else files;
      history := history + [files];
    }

    /** restoreQuarantinedFile. The file is complete in quarantine or at the target
        after every step, if and only if it is not lost in the one way there is. */
    method RestoreQuarantinedFile(quarantined: Path, source: Path, o: RestoreOutcomes) returns (error: Error)
      requires quarantined != source
      modifies this
      ensures old(history) <= history && error in {Fine, NotFound, AlreadyExists, CopyFailed, RemoveFailed}
      ensures error == Fine <==> quarantined in old(files) && source !in old(files) && CopyWorks(o) && o.remove.ok
      ensures error == Fine ==> files == (old(files) - {quarantined})[source := old(files)[quarantined]]
      ensures SameBut(old(files), files, {quarantined, source})
      ensures source in old(files) ==> files == old(files) && error in {NotFound, AlreadyExists}
      ensures error == AlreadyExists ==> files == WithIntruder(old(files), source, o.intruder)
      ensures quarantined in old(files) ==>
                (KeptSince(old(history), history, source, quarantined, Content(old(files), quarantined)) <==>
                   !Loses(old(files), quarantined, source, o))
      ensures Loses(old(files), quarantined, source, o) ==> quarantined !in files && source !in files
    {
      ghost var before, past := files, history;
      ghost var data := Content(before, quarantined);
      error := CopyRegularFile(quarantined, source, o);
      QuarantinedStays(before, past, history, source, quarantined);
      if error != Fine {
        SameButChain(before, files, files, {source}, {}, {quarantined, source});
        return;
      }
      ghost var h := history;
      var ok := Unlink(quarantined, o.remove);
      KeptStep(past, h, files, source, quarantined, data);
      if ok {
        return Fine;
      }
      h := history;
      ok := Remove(source, o.undoRestore);
      if o.remove.done && o.undoRestore.done {
        assert history[|h|] == files;
      } else {
        KeptStep(past, h, files, source, quarantined, data);
      }
      return RemoveFailed;
    }

    /** recoverQuarantineSubject. Only the owner named in a readable record gets a
        file back, only where nothing is, and only at a permitted path. */
    method RecoverSubject(name: string, user: string, permitted: Path -> bool, o: RestoreOutcomes) returns (error: Error)
      modifies this
      ensures !MayRecover(old(files), name, user, permitted) ==> files == old(files) && history == old(history)
      ensures error == Fine <==> MayRecover(old(files), name, user, permitted) && Untroubled(o)
      ensures error == Fine ==> files == Recovered(old(files), name)
      ensures MayRecover(old(files), name, user, permitted) ==>
                (KeptSince(old(history), history, RecordedSource(old(files), name), Target(name),
                           Content(old(files), Target(name))) <==>
                   !Loses(old(files), Target(name), RecordedSource(old(files), name), o))
      ensures MayRecover(old(files), name, user, permitted) ==>
                SameBut(old(files), files, {Target(name), RecordOf(name), RecordedSource(old(files), name)})
    {
      if !ValidUserId(user) || RecordOf(name) !in files {
        return NotFound;
      }
      var record := ParseRecord(files[RecordOf(name)]);
      if record.Invalid? {
        return BadRecord;
      }
      if record.owner != user {
        return NotFound;
      }
      if record.source == "" {
        return BadRecord;
      }
      if !permitted(record.source) {
        return Denied;
      }
      if Target(name) !in files {
        return NotFound;
      }
      if record.source in files {
        return AlreadyExists;
      }
      ghost var before := files;
      error := RestoreQuarantinedFile(Target(name), record.source, o);
      ghost var restored := files;
      if error != Fine {
        SameButChain(before, files, files, {Target(name), record.source}, {}, {Target(name), RecordOf(name), record.source});
        return;
      }
      ghost var h := history;
      var ok := Unlink(RecordOf(name), o.removeRecord);
      KeptStep(old(history), h, files, record.source, Target(name), Content(before, Target(name)));
      SameButChain(before, restored, files, {Target(name), record.source}, {RecordOf(name)},
                   {Target(name), RecordOf(name), record.source});
      return if ok then Fine else RecordStays;
    }

    predicate MayRecover(files: Files, name: string, user: string, permitted: Path -> bool) {
      && ValidUserId(user) && RecordOf(name) in files
      && ParseRecord(files[RecordOf(name)]).Record? && ParseRecord(files[RecordOf(name)]).owner == user
      && RecordedSource(files, name) != "" && permitted(RecordedSource(files, name))
      && Target(name) in files && RecordedSource(files, name) !in files
    }

    function RecordedSource(files: Files, name: string): Path {
      if RecordOf(name) in files && ParseRecord(files[RecordOf(name)]).Record? then
        ParseRecord(files[RecordOf(name)]).source
      else ""
    }

    function Recovered(files: Files, name: string): Files {
      if Target(name) in files then
        (files - {Target(name), RecordOf(name)})[RecordedSource(files, name) := files[Target(name)]]
      else files
    }

    /** deleteQuarantineSubject. */
    method DeleteSubject(name: string, user: string, remove: Outcome, removeRecord: Outcome) returns (error: Error)
      modifies this
      ensures !OwnsRecord(old(files), name, user) ==> files == old(files) && error == NotFound
      ensures error == Fine <==> OwnsRecord(old(files), name, user) && Target(name) in old(files) && remove.ok && removeRecord.ok
      ensures error == Fine ==> files == old(files) - {Target(name), RecordOf(name)}
      ensures SameBut(old(files), files, {Target(name), RecordOf(name)})
      ensures Target(name) in files ==> RecordOf(name) in files || RecordOf(name) !in old(files)
    {
      if !ValidUserId(user) || RecordOf(name) !in files {
        return NotFound;
      }
      var record := ParseRecord(files[RecordOf(name)]);
      if record.Invalid? || record.owner != user {
        return NotFound;
      }
      if Target(name) !in files {
        return NotFound;
      }
      ghost var before := files;
      var ok := Unlink(Target(name), remove);
      if !ok {
        return RemoveFailed;
      }
      ok := Unlink(RecordOf(name), removeRecord);
      assert files == before - {Target(name)} || files == before - {Target(name), RecordOf(name)};
      return if ok then Fine else RecordStays;
    }

    predicate OwnsRecord(files: Files, name: string, user: string) {
      && ValidUserId(user) && RecordOf(name) in files
      && ParseRecord(files[RecordOf(name)]).Record? && ParseRecord(files[RecordOf(name)]).owner == user
    }

    /** What recovery will make of a file that was just quarantined. */
    lemma RecordReadsBack(before: Files, away: Files, source: Path, owner: string, name: string)
      requires source in before && source != "" && ValidUserId(owner) && Free(before, name)
      requires away == (before - {source})[Target(name) := before[source]][RecordOf(name) := PrintRecord(source, owner)]
      ensures MayRecover(away, name, owner, path => true) <==> QUOTE !in source
      ensures QUOTE !in source ==> Recovered(away, name) == before
      ensures QUOTE in source ==> away != before
    {
      ParseOfPrint(source, owner);
      assert RecordOf(name) in away && RecordOf(name) !in before;
      PutBack(before, source, Target(name), RecordOf(name), PrintRecord(source, owner));
    }

    /** The one way happens: whatever file it is, this outcome loses it. */
    method LoseTheFile(quarantined: Path, source: Path) returns (error: Error)
      requires quarantined in files && source !in files
      modifies this
      ensures quarantined !in files && source !in files && error != Fine
    {
      var late := Outcome(false, true, None);
      error := RestoreQuarantinedFile(quarantined, source,
                                      RestoreOutcomes(None, FINE, FINE, FINE, FINE, FINE, late, FINE, FINE));
    }

    // ----------------------------------------------------------- there and back

    /** A file is quarantined if and only if a free name for it fits. One that is
        quarantined and then recovered by its owner is back, byte for byte, with
        nothing left over, if and only if its path has no double quote; with one, the
        record cannot be read and the file stays in quarantine. */
    method RoundTrip(source: Path, owner: string, outcomes: ScanOutcomes, o: RestoreOutcomes, nameMax: nat)
      returns (quarantined: bool, error: Error)
      requires source in files && source != "" && ValidUserId(owner)
      requires Works(outcomes) && (forall k :: outcomes.reserve(k).ok) && Untroubled(o)
      requires FreshTmp(outcomes.tmpRecord.value, BaseName(source))
      modifies this
      ensures quarantined <==> CanReserve(old(files), BaseName(source), nameMax)
      ensures quarantined ==> (error == Fine <==> QUOTE !in source) && (files == old(files) <==> QUOTE !in source)
      ensures !quarantined ==> files == old(files)
    {
      ghost var before := files;
      var name: string;
      ghost var index: nat;
      ghost var others: Files;
      quarantined, name, index, others := QuarantineDetectedFile(source, owner, outcomes, nameMax);
      if !quarantined {
        return false, NotFound;
      }
      assert before + others == before;
      RecordReadsBack(before, files, source, owner, name);
      error := RecoverSubject(name, owner, path => true, o);
    }
  }
}
