/** The rotating application log (server/internal/applog/logger.go).

    File 0 is the active log, file k its k-th archive. A file is the sequence of the
    records written to it; what was in a file before the writer was opened counts as
    records too. File operations succeed: on a failure the original writes to standard
    error instead. */
module LogRotation {
  import opened Optional

  type Record = string

  type Files = map<nat, seq<Record>>

  function Size(records: seq<Record>): nat {
    if records == [] then 0 else Size(records[..|records| - 1]) + |records[|records| - 1]|
  }

  function Get(files: Files, k: int): Option<seq<Record>> {
    if k >= 0 && k in files then Some(files[k]) else None
  }

  function RecordsIn(file: Option<seq<Record>>): seq<Record> {
    match file
    case None => []
    case Some(records) => records
  }

  /** The records of file n and all newer ones, oldest first. */
  function From(files: Files, n: nat): seq<Record> {
    if n == 0 then RecordsIn(Get(files, 0)) else RecordsIn(Get(files, n)) + From(files, n - 1)
  }

  /** The files after a rotation that keeps `max` of them: a new active one, every
      other one up from its place, and what is beyond the limit as it was. */
  ghost predicate IsRotated(files: Files, files': Files, max: nat) {
    && Get(files', 0) == Some([])
    && (forall k | 0 < k < max :: Get(files', k) == Get(files, k - 1))
    && (forall k | k >= max && k > 0 :: Get(files', k) == Get(files, k))
  }

  predicate IsSuffix(part: seq<Record>, whole: seq<Record>) {
    |part| <= |whole| && whole[|whole| - |part|..] == part
  }

  /** Within the size limit, or a single record (with nothing before it). */
  predicate Fits(records: seq<Record>, maxSize: nat) {
    Size(records) <= maxSize || (records != [] && Size(records[..|records| - 1]) == 0)
  }

  /** A rotation moves every file one up. */
  lemma {:induction false} FromRotated(files: Files, files': Files, max: nat, n: nat)
    requires IsRotated(files, files', max) && n + 1 < max
    ensures From(files', n + 1) == From(files, n)
  {
    assert Get(files', n + 1) == Get(files, n);
    if n == 0 {
      assert From(files', 0) == [];
    } else {
      FromRotated(files, files', max, n - 1);
    }
  }

  /** A rotation drops the oldest file of those it keeps, and nothing else. */
  lemma RotationDropsOldest(files: Files, files': Files, max: nat)
    requires max > 0 && IsRotated(files, files', max)
    ensures From(files, max - 1) == RecordsIn(Get(files, max - 1)) + From(files', max - 1)
  {
    if max == 1 {
      assert From(files', 0) == [];
    } else {
      FromRotated(files, files', max, max - 2);
    }
  }

  lemma {:induction false} FromAppended(files: Files, data: Record, n: nat)
    requires 0 in files
    ensures From(files[0 := files[0] + [data]], n) == From(files, n) + [data]
  {
    if n > 0 {
      FromAppended(files, data, n - 1);
      var first := RecordsIn(Get(files, n));
      assert first + (From(files, n - 1) + [data]) == first + From(files, n - 1) + [data];
    }
  }

  lemma SuffixChain(a: seq<Record>, b: seq<Record>, c: seq<Record>, data: Record)
    requires IsSuffix(a, b) && IsSuffix(b, c)
    ensures IsSuffix(a, c) && IsSuffix(a + [data], c + [data])
  {
    assert c[|c| - |a|..] == c[|c| - |b|..][|b| - |a|..];
    assert (c + [data])[|c| - |a|..] == c[|c| - |a|..] + [data];
  }

  /** Files that a writer with these limits may leave, given everything that was ever
      written, which files were there before, and those beyond the limit. */
  ghost predicate Sound(files: Files, maxSize: nat, maxFiles: nat, written: seq<Record>, inherited: set<int>, beyond: Files)
    requires maxFiles > 0
  {
    && 0 in files
    && IsSuffix(From(files, maxFiles - 1), written)
    && (forall k | 0 <= k < maxFiles && k !in inherited && Get(files, k).Some? :: Fits(RecordsIn(Get(files, k)), maxSize))
    && (forall k | k >= maxFiles :: Get(files, k) == Get(beyond, k))
  }

  function MovedUp(inherited: set<int>): set<int> {
    set k <- inherited :: k + 1
  }

  lemma RotationIsSound(files: Files, files': Files, maxSize: nat, maxFiles: nat, written: seq<Record>,
                        inherited: set<int>, beyond: Files)
    requires maxFiles > 0 && Sound(files, maxSize, maxFiles, written, inherited, beyond)
    requires IsRotated(files, files', maxFiles)
    ensures Sound(files', maxSize, maxFiles, written, MovedUp(inherited), beyond)
  {
    RotationDropsOldest(files, files', maxFiles);
    forall k | 0 <= k < maxFiles && k !in MovedUp(inherited) && Get(files', k).Some?
      ensures Fits(RecordsIn(Get(files', k)), maxSize)
    {
      if k > 0 { assert k - 1 !in inherited; }
    }
  }

  lemma AppendIsSound(files: Files, data: Record, maxSize: nat, maxFiles: nat, written: seq<Record>,
                      inherited: set<int>, beyond: Files)
    requires maxFiles > 0 && Sound(files, maxSize, maxFiles, written, inherited, beyond)
    requires Size(files[0]) == 0 || Size(files[0]) + |data| <= maxSize
    ensures Sound(files[0 := files[0] + [data]], maxSize, maxFiles, written + [data], inherited, beyond)
  {
    FromAppended(files, data, maxFiles - 1);
    SuffixChain(From(files, maxFiles - 1), From(files, maxFiles - 1), written, data);
    SizeAppended(files[0], data);
    assert (files[0] + [data])[..|files[0]|] == files[0];
    SetActive(files, files[0] + [data]);
  }

  lemma SetActive(files: Files, records: seq<Record>)
    ensures Get(files[0 := records], 0) == Some(records)
    ensures forall k | k != 0 :: Get(files[0 := records], k) == Get(files, k)
  {
  }

  /** One rename of the chain: file k, if there is one, becomes file k + 1. */
  function RenamedUp(files: Files, k: nat): Files {
    if k in files then files[k + 1 := files[k]] - {k} else files
  }

  lemma RenameMoves(files: Files, k: nat)
    requires k + 1 !in files
    ensures Get(RenamedUp(files, k), k) == None && Get(RenamedUp(files, k), k + 1) == Get(files, k)
    ensures forall j | j != k && j != k + 1 :: Get(RenamedUp(files, k), j) == Get(files, j)
  {
  }

  /** The files once the active one is open. */
  function Opened(found: Files): (files: Files)
    ensures 0 in files
  {
    if 0 in found then found else found[0 := []]
  }

  /** A record that does not fit behind what is in the active file starts a new one. */
  predicate Rotates(maxSize: nat, size: nat, data: Record) {
    size > 0 && size + |data| > maxSize
  }

  /** The size of the active file after some records. */
  function ActiveSize(maxSize: nat, size: nat, records: seq<Record>): nat {
    if records == [] then size
    else
      var before, last := ActiveSize(maxSize, size, records[..|records| - 1]), records[|records| - 1];
      if Rotates(maxSize, before, last) then |last| else before + |last|
  }

  /** How many files these records start. */
  function Rotations(maxSize: nat, size: nat, records: seq<Record>): nat {
    if records == [] then 0
    else
      var front, last := records[..|records| - 1], records[|records| - 1];
      Rotations(maxSize, size, front) + if Rotates(maxSize, ActiveSize(maxSize, size, front), last) then 1 else 0
  }

  lemma OneMore(maxSize: nat, size: nat, records: seq<Record>, n: nat)
    requires n < |records|
    ensures var before := ActiveSize(maxSize, size, records[..n]);
            && ActiveSize(maxSize, size, records[..n + 1]) ==
               (if Rotates(maxSize, before, records[n]) then |records[n]| else before + |records[n]|)
            && Rotations(maxSize, size, records[..n + 1]) ==
               Rotations(maxSize, size, records[..n]) + if Rotates(maxSize, before, records[n]) then 1 else 0
  {
    assert records[..n + 1][..n] == records[..n];
  }

  /** The files after a write, with a rotation before it or without. */
  ghost predicate IsWritten(files: Files, files': Files, rotated: bool, max: nat, data: Record) {
    if rotated then
      && Get(files', 0) == Some([data])
      && (forall k | 0 < k < max :: Get(files', k) == Get(files, k - 1))
      && (forall k | k >= max && k > 0 :: Get(files', k) == Get(files, k))
    else
      0 in files && files' == files[0 := files[0] + [data]]
  }

  /** A write that finds room, or has made room, is one. */
  lemma ActiveAfter(files: Files, room: Files, files': Files, rotated: bool, max: nat, data: Record)
    requires if rotated then IsRotated(files, room, max) else room == files
    requires 0 in room && files' == room[0 := room[0] + [data]]
    ensures IsWritten(files, files', rotated, max, data)
    ensures 0 in files' && files'[0] != [] && files'[0][|files'[0]| - 1] == data
  {
    if rotated { WrittenAfterRotation(files, room, max, data); }
  }

  lemma WrittenAfterRotation(files: Files, rotated: Files, max: nat, data: Record)
    requires IsRotated(files, rotated, max)
    ensures IsWritten(files, rotated[0 := rotated[0] + [data]], true, max, data)
  {
    assert rotated[0] + [data] == [data];
    var files' := rotated[0 := rotated[0] + [data]];
    SetActive(rotated, rotated[0] + [data]);
    forall k | 0 < k < max ensures Get(files', k) == Get(files, k - 1) { assert Get(files', k) == Get(rotated, k); }
    forall k | k >= max && k > 0 ensures Get(files', k) == Get(files, k) { assert Get(files', k) == Get(rotated, k); }
  }

  /** What a rotating write leaves was a rotation before the record came. */
  lemma BeforeWrite(files: Files, files': Files, max: nat, data: Record)
    requires IsWritten(files, files', true, max, data)
    ensures IsRotated(files, files'[0 := []], max)
    ensures files'[0 := []][0 := [] + [data]] == files'
  {
    var renewed := files'[0 := []];
    SetActive(files', []);
    forall k | 0 < k < max ensures Get(renewed, k) == Get(files, k - 1) { assert Get(renewed, k) == Get(files', k); }
    forall k | k >= max && k > 0 ensures Get(renewed, k) == Get(files, k) { assert Get(renewed, k) == Get(files', k); }
    assert [] + [data] == [data];
  }

  /** Without a rotation a write loses nothing, with one exactly the oldest file. */
  lemma WriteLosesOldest(files: Files, files': Files, rotated: bool, max: nat, data: Record)
    requires max > 0 && IsWritten(files, files', rotated, max, data)
    ensures (if rotated then RecordsIn(Get(files, max - 1)) else []) + From(files', max - 1) ==
            From(files, max - 1) + [data]
  {
    if rotated {
      var renewed := files'[0 := []];
      BeforeWrite(files, files', max, data);
      RotationDropsOldest(files, renewed, max);
      FromAppended(renewed, data, max - 1);
      AppendAssociates(RecordsIn(Get(files, max - 1)), From(renewed, max - 1), data);
    } else {
      FromAppended(files, data, max - 1);
      assert [] + From(files', max - 1) == From(files', max - 1);
    }
  }

  class RotatingWriter {
    const maxSize: nat
    const maxFiles: nat
    var files: Files
    var size: nat

    /** Everything that was in the files at first, and everything written since. */
    ghost var written: seq<Record>
    /** The files that were there at first, under their present numbers. */
    ghost var inherited: set<int>
    /** The files at first, for those that the limit does not reach. */
    ghost var beyond: Files

    ghost predicate Valid()
      reads this
    {
      && maxFiles > 0 && Sound(files, maxSize, maxFiles, written, inherited, beyond)
      && size == Size(files[0])
    }

    /** newRotatingWriter on whatever files there are. */
    constructor (maxSize: nat, maxFiles: nat, found: Files)
      requires maxSize > 0 && maxFiles > 0
      ensures Valid() && this.maxSize == maxSize && this.maxFiles == maxFiles
      ensures files == Opened(found)
      ensures written == From(found, maxFiles - 1) && inherited == (set k <- found :: k) && beyond == found
    {
      var start := Opened(found);
      this.maxSize, this.maxFiles, files, size := maxSize, maxFiles, start, Size(start[0]);
      written, inherited, beyond := From(found, maxFiles - 1), (set k <- found :: k), found;
      new;
      OpenedSame(found, maxFiles - 1);
    }

    /** The renames of rotate: file k becomes file k + 1, from the oldest on. */
    method Shift()
      requires maxFiles >= 2
      modifies this`files
      ensures forall k | 0 < k < maxFiles :: Get(files, k) == Get(old(files), k - 1)
      ensures forall k | k >= maxFiles :: Get(files, k) == Get(old(files), k)
    {
      var index := maxFiles - 1;
      files := files - {index};
      while index >= 1
        invariant 0 <= index < maxFiles
        invariant Get(files, index) == None
        invariant forall k | 0 <= k < index || k >= maxFiles :: Get(files, k) == Get(old(files), k)
        invariant forall k | index < k < maxFiles :: Get(files, k) == Get(old(files), k - 1)
      {
        index := index - 1;
        RenameMoves(files, index);
        files := RenamedUp(files, index);
      }
    }

    /** rotate: the oldest goes, the others move one up, a new active file is opened. */
    method Rotate()
      requires maxFiles > 0
      modifies this`files, this`size
      ensures IsRotated(old(files), files, maxFiles) && 0 in files && files[0] == [] && size == 0
    {
      ghost var was := files;
      if maxFiles >= 2 {
        Shift();
      }
      ghost var shifted := files;
      SetActive(shifted, []);
      files := files[0 := []];
      size := 0;
      assert forall k | 0 < k < maxFiles :: Get(files, k) == Get(shifted, k) == Get(was, k - 1);
      assert forall k | k >= maxFiles :: Get(files, k) == Get(shifted, k) == Get(was, k);
    }

    /** Rotating keeps everything but the oldest file. */
    method MakeRoom()
      requires Valid()
      modifies this`files, this`size, this`inherited
      ensures Valid() && size == 0 && inherited == MovedUp(old(inherited))
      ensures IsRotated(old(files), files, maxFiles)
    {
      ghost var before := files;
      Rotate();
      RotationIsSound(before, files, maxSize, maxFiles, written, inherited, beyond);
      inherited := MovedUp(inherited);
    }

    /** Write. The record goes to the end of the active file, before which, if it does
        not fit, all files move one up and the oldest goes. So nothing is lost but
        whole oldest files: the archives, oldest first, and the active file always are
        the end of everything ever written, cut between records; the files within the
        limit that this writer started keep to the size limit or hold a single record;
        and files beyond the limit are not touched. */
    method Write(data: Record)
      requires Valid()
      modifies this
      ensures Valid() && written == old(written) + [data] && beyond == old(beyond)
      ensures IsWritten(old(files), files, Rotates(maxSize, old(size), data), maxFiles, data)
      ensures 0 in files && files[0] != [] && files[0][|files[0]| - 1] == data
      ensures (if Rotates(maxSize, old(size), data) then RecordsIn(Get(old(files), maxFiles - 1)) else []) +
              From(files, maxFiles - 1) == From(old(files), maxFiles - 1) + [data]
      ensures size == if Rotates(maxSize, old(size), data) then |data| else old(size) + |data|
      ensures inherited == if Rotates(maxSize, old(size), data) then MovedUp(old(inherited)) else old(inherited)
    {
      ghost var before, rotated := files, Rotates(maxSize, size, data);
      if size > 0 && size + |data| > maxSize {
        MakeRoom();
      }
      ghost var room := files;
      Append(data);
      ActiveAfter(before, room, files, rotated, maxFiles, data);
      WriteLosesOldest(before, files, rotated, maxFiles, data);
    }

    /** The write to the active file. */
    method Append(data: Record)
      requires Valid() && (size == 0 || size + |data| <= maxSize)
      modifies this`files, this`size, this`written
      ensures Valid() && written == old(written) + [data]
      ensures files == old(files)[0 := old(files)[0] + [data]] && size == old(size) + |data|
    {
      AppendIsSound(files, data, maxSize, maxFiles, written, inherited, beyond);
      SizeAppended(files[0], data);
      files := files[0 := files[0] + [data]];
      size := size + |data|;
      written := written + [data];
    }
  }

  /** Nothing that was found has reached the limit after so many new files. */
  predicate RoomFor(found: Files, maxFiles: nat, started: nat) {
    started < maxFiles && forall k <- found | k < maxFiles :: k + started < maxFiles
  }

  /** Each file within the limit was opened or started by the run, or was found. */
  predicate Known(files: Files, found: Files, maxFiles: nat, started: nat) {
    forall k <- files | k < maxFiles :: k <= started || k - started in found
  }

  predicate FoundOnly(inherited: set<int>, found: Files, started: nat) {
    forall k <- inherited :: k >= started && k - started in found
  }

  lemma KnownNext(files: Files, files': Files, found: Files, maxFiles: nat, started: nat, rotated: bool, data: Record)
    requires Known(files, found, maxFiles, started) && IsWritten(files, files', rotated, maxFiles, data)
    ensures Known(files', found, maxFiles, if rotated then started + 1 else started)
  {
    if rotated {
      forall k <- files' | k < maxFiles && k != 0 ensures k <= started + 1 || k - started - 1 in found {
        assert Get(files', k) == Get(files, k - 1);
      }
    }
  }

  lemma FoundNext(inherited: set<int>, found: Files, started: nat)
    requires FoundOnly(inherited, found, started)
    ensures FoundOnly(MovedUp(inherited), found, started + 1)
  {
  }

  /** With room left the oldest file there could be is not there. */
  lemma NothingToLose(files: Files, found: Files, maxFiles: nat, started: nat)
    requires Known(files, found, maxFiles, started) && RoomFor(found, maxFiles, started + 1)
    ensures RecordsIn(Get(files, maxFiles - 1)) == []
  {
  }

  lemma CompleteNext(files: Files, files': Files, found: Files, maxFiles: nat, started: nat, rotated: bool,
                     data: Record, written: seq<Record>)
    requires maxFiles > 0 && Known(files, found, maxFiles, started) && IsWritten(files, files', rotated, maxFiles, data)
    requires RoomFor(found, maxFiles, started) ==> From(files, maxFiles - 1) == written
    requires (if rotated then RecordsIn(Get(files, maxFiles - 1)) else []) + From(files', maxFiles - 1) ==
             From(files, maxFiles - 1) + [data]
    ensures RoomFor(found, maxFiles, if rotated then started + 1 else started) ==>
              From(files', maxFiles - 1) == written + [data]
  {
    if RoomFor(found, maxFiles, if rotated then started + 1 else started) {
      assert RoomFor(found, maxFiles, started) by {
        forall k <- found | k < maxFiles ensures k + started < maxFiles {}
      }
      if rotated { NothingToLose(files, found, maxFiles, started); }
      assert [] + From(files', maxFiles - 1) == From(files', maxFiles - 1);
    }
  }

  /** What a run has come to after `done`: the text so far, the size of the active
      file, and where the files come from. */
  ghost predicate Progress(files: Files, inherited: set<int>, written: seq<Record>, activeSize: nat, maxSize: nat, maxFiles: nat,
                           found: Files, done: seq<Record>, size: nat, started: nat)
    requires maxFiles > 0
  {
    && written == From(found, maxFiles - 1) + done
    && activeSize == ActiveSize(maxSize, size, done) && started == Rotations(maxSize, size, done)
    && FoundOnly(inherited, found, started) && Known(files, found, maxFiles, started)
    && (RoomFor(found, maxFiles, started) ==> From(files, maxFiles - 1) == written)
  }

  lemma ProgressNext(files: Files, inherited: set<int>, written: seq<Record>, activeSize: nat, maxSize: nat, maxFiles: nat,
                     found: Files, done: seq<Record>, size: nat, started: nat, data: Record, files': Files)
    requires maxFiles > 0 && Progress(files, inherited, written, activeSize, maxSize, maxFiles, found, done, size, started)
    requires IsWritten(files, files', Rotates(maxSize, activeSize, data), maxFiles, data)
    ensures var rotated := Rotates(maxSize, activeSize, data);
            Progress(files', if rotated then MovedUp(inherited) else inherited, written + [data],
                     if rotated then |data| else activeSize + |data|, maxSize, maxFiles,
                     found, done + [data], size, if rotated then started + 1 else started)
  {
    var rotated := Rotates(maxSize, activeSize, data);
    OneMore(maxSize, size, done + [data], |done|);
    assert (done + [data])[..|done|] == done && (done + [data])[..|done| + 1] == done + [data];
    FoundNext(inherited, found, started);
    KnownNext(files, files', found, maxFiles, started, rotated, data);
    WriteLosesOldest(files, files', rotated, maxFiles, data);
    CompleteNext(files, files', found, maxFiles, started, rotated, data, written);
    AppendAssociates(From(found, maxFiles - 1), done, data);
  }

  /** The files of a run, for what was found and what was written. */
  ghost predicate IsRun(found: Files, records: seq<Record>, files: Files, maxSize: nat, maxFiles: nat)
    requires maxFiles > 0
  {
    var started := Rotations(maxSize, Size(RecordsIn(Get(found, 0))), records);
    && IsSuffix(From(files, maxFiles - 1), From(found, maxFiles - 1) + records)
    && (RoomFor(found, maxFiles, started) ==> From(files, maxFiles - 1) == From(found, maxFiles - 1) + records)
    && (forall k | 0 <= k < maxFiles && Get(files, k).Some? && (k < started || Get(found, k - started).None?) ::
          Fits(RecordsIn(Get(files, k)), maxSize))
    && (forall k | k >= maxFiles :: Get(files, k) == Get(found, k))
  }

  lemma ProgressEnds(files: Files, inherited: set<int>, written: seq<Record>, activeSize: nat, maxSize: nat, maxFiles: nat,
                     found: Files, records: seq<Record>, started: nat)
    requires maxFiles > 0 && Sound(files, maxSize, maxFiles, written, inherited, found)
    requires Progress(files, inherited, written, activeSize, maxSize, maxFiles, found, records,
                      Size(RecordsIn(Get(found, 0))), started)
    ensures IsRun(found, records, files, maxSize, maxFiles)
  {
  }

  /** The file system before each of the records and at the end, as Write leaves it. */
  ghost predicate IsHistory(found: Files, records: seq<Record>, states: seq<Files>, maxSize: nat, maxFiles: nat) {
    && |states| == |records| + 1 && states[0] == Opened(found)
    && (forall n | 0 <= n < |records| ::
          0 in states[n] && IsWritten(states[n], states[n + 1], Rotates(maxSize, Size(states[n][0]), records[n]), maxFiles, records[n]))
  }

  lemma WriteIsSound(files: Files, files': Files, data: Record, maxSize: nat, maxFiles: nat, written: seq<Record>,
                     inherited: set<int>, beyond: Files)
    requires maxFiles > 0 && Sound(files, maxSize, maxFiles, written, inherited, beyond)
    requires IsWritten(files, files', Rotates(maxSize, Size(files[0]), data), maxFiles, data)
    ensures Sound(files', maxSize, maxFiles, written + [data],
                  if Rotates(maxSize, Size(files[0]), data) then MovedUp(inherited) else inherited, beyond)
    ensures Size(files'[0]) == if Rotates(maxSize, Size(files[0]), data) then |data| else Size(files[0]) + |data|
  {
    SizeAppended(files[0], data);
    SizeAppended([], data);
    assert [] + [data] == [data];
    if Rotates(maxSize, Size(files[0]), data) {
      BeforeWrite(files, files', maxFiles, data);
      RotationIsSound(files, files'[0 := []], maxSize, maxFiles, written, inherited, beyond);
      AppendIsSound(files'[0 := []], data, maxSize, maxFiles, written, MovedUp(inherited), beyond);
    } else {
      AppendIsSound(files, data, maxSize, maxFiles, written, inherited, beyond);
    }
  }

  /** What holds along a history, after the records `done`. */
  ghost predicate Along(files: Files, inherited: set<int>, maxSize: nat, maxFiles: nat, found: Files, done: seq<Record>, started: nat)
    requires maxFiles > 0
  {
    && Sound(files, maxSize, maxFiles, From(found, maxFiles - 1) + done, inherited, found)
    && Progress(files, inherited, From(found, maxFiles - 1) + done, Size(files[0]), maxSize, maxFiles,
                found, done, Size(Opened(found)[0]), started)
  }

  lemma AlongNext(files: Files, files': Files, inherited: set<int>, maxSize: nat, maxFiles: nat, found: Files,
                  done: seq<Record>, started: nat, data: Record)
    returns (inherited': set<int>, started': nat)
    requires maxFiles > 0 && Along(files, inherited, maxSize, maxFiles, found, done, started)
    requires IsWritten(files, files', Rotates(maxSize, Size(files[0]), data), maxFiles, data)
    ensures Along(files', inherited', maxSize, maxFiles, found, done + [data], started')
  {
    var rotated, text := Rotates(maxSize, Size(files[0]), data), From(found, maxFiles - 1) + done;
    inherited', started' := if rotated then MovedUp(inherited) else inherited, if rotated then started + 1 else started;
    WriteIsSound(files, files', data, maxSize, maxFiles, text, inherited, found);
    ProgressNext(files, inherited, text, Size(files[0]), maxSize, maxFiles, found, done, Size(Opened(found)[0]), started,
                 data, files');
    AppendAssociates(From(found, maxFiles - 1), done, data);
  }

  lemma {:induction false} HistoryInv(found: Files, records: seq<Record>, states: seq<Files>, maxSize: nat, maxFiles: nat, n: nat)
    returns (inherited: set<int>, started: nat)
    requires maxSize > 0 && maxFiles > 0 && IsHistory(found, records, states, maxSize, maxFiles) && n <= |records|
    ensures Along(states[n], inherited, maxSize, maxFiles, found, records[..n], started)
  {
    if n == 0 {
      inherited, started := (set k <- found :: k), 0;
      RunStarts(found, maxSize, maxFiles, states[0], inherited);
      assert records[..0] == [] && From(found, maxFiles - 1) + [] == From(found, maxFiles - 1);
    } else {
      inherited, started := HistoryInv(found, records, states, maxSize, maxFiles, n - 1);
      assert states[n] == states[n - 1 + 1] && records[..n] == records[..n - 1] + [records[n - 1]];
      inherited, started := AlongNext(states[n - 1], states[n], inherited, maxSize, maxFiles, found, records[..n - 1],
                                      started, records[n - 1]);
    }
  }

  /** Every history of the writer: whatever files are found and whatever is written,
      the files within the limit end up as the end of it all, and as all of it as long
      as none had to go; every one of them that the writer started, or that was not
      there, is within the size limit or holds a single record; and the files beyond
      the limit are as they were. */
  lemma EveryRun(found: Files, records: seq<Record>, states: seq<Files>, maxSize: nat, maxFiles: nat)
    requires maxSize > 0 && maxFiles > 0 && IsHistory(found, records, states, maxSize, maxFiles)
    ensures IsRun(found, records, states[|records|], maxSize, maxFiles)
  {
    var inherited, started := HistoryInv(found, records, states, maxSize, maxFiles, |records|);
    assert records[..|records|] == records;
    ProgressEnds(states[|records|], inherited, From(found, maxFiles - 1) + records, Size(states[|records|][0]),
                 maxSize, maxFiles, found, records, started);
  }

  lemma RunStarts(found: Files, maxSize: nat, maxFiles: nat, files: Files, inherited: set<int>)
    requires maxFiles > 0 && files == Opened(found) && inherited == (set k <- found :: k)
    ensures Sound(files, maxSize, maxFiles, From(found, maxFiles - 1), inherited, found)
    ensures Progress(files, inherited, From(found, maxFiles - 1), Size(files[0]), maxSize, maxFiles, found, [], Size(files[0]), 0)
  {
    OpenedSame(found, maxFiles - 1);
    OpenedIsSound(found, maxSize, maxFiles, files, inherited, From(found, maxFiles - 1));
    OpenedIsKnown(found, maxFiles, files, inherited);
    assert From(found, maxFiles - 1) + [] == From(found, maxFiles - 1);
  }

  lemma OpenedIsSound(found: Files, maxSize: nat, maxFiles: nat, files: Files, inherited: set<int>, text: seq<Record>)
    requires maxFiles > 0 && files == Opened(found) && inherited == (set k <- found :: k)
    requires From(files, maxFiles - 1) == text
    ensures Sound(files, maxSize, maxFiles, text, inherited, found)
  {
  }

  lemma OpenedIsKnown(found: Files, maxFiles: nat, files: Files, inherited: set<int>)
    requires files == Opened(found) && inherited == (set k <- found :: k)
    ensures FoundOnly(inherited, found, 0) && Known(files, found, maxFiles, 0)
  {
  }

  lemma AppendAssociates(a: seq<Record>, b: seq<Record>, data: Record)
    ensures a + (b + [data]) == a + b + [data]
  {
  }

  lemma SizeAppended(records: seq<Record>, data: Record)
    ensures Size(records + [data]) == Size(records) + |data|
  {
    assert (records + [data])[..|records|] == records;
  }

  lemma {:induction false} OpenedSame(found: Files, n: nat)
    ensures From(Opened(found), n) == From(found, n)
  {
    if n > 0 { OpenedSame(found, n - 1); }
  }
}
