/** When the log writer starts a new file, and how full the old ones are
    (server/internal/applog/logger.go). */
module LogLaws {
  import opened Optional
  import opened LogRotation

  /** A record goes behind what is in the active file if that file is empty or the two
      together keep to the limit, and into a new file otherwise, when every file moves
      one up and only what had the last number is lost. */
  lemma WriteExactly(files: Files, files': Files, maxSize: nat, maxFiles: nat, data: Record)
    requires 0 in files && maxFiles > 0
    requires IsWritten(files, files', Rotates(maxSize, Size(files[0]), data), maxFiles, data)
    ensures Size(files[0]) == 0 || Size(files[0]) + |data| <= maxSize ==> files' == files[0 := files[0] + [data]]
    ensures Size(files[0]) > 0 && Size(files[0]) + |data| > maxSize ==>
              && 0 in files' && files'[0] == [data]
              && (forall k: nat | 0 < k < maxFiles :: (k in files' <==> k - 1 in files) && (k - 1 in files ==> files'[k] == files[k - 1]))
              && (forall k: nat | k >= maxFiles :: (k in files' <==> k in files) && (k in files ==> files'[k] == files[k]))
  {
    if Size(files[0]) > 0 && Size(files[0]) + |data| > maxSize {
      forall k: nat | 0 < k < maxFiles
        ensures (k in files' <==> k - 1 in files) && (k - 1 in files ==> files'[k] == files[k - 1])
      {
        assert Get(files', k) == Get(files, k - 1);
      }
      forall k: nat | k >= maxFiles
        ensures (k in files' <==> k in files) && (k in files ==> files'[k] == files[k])
      {
        assert Get(files', k) == Get(files, k);
      }
    }
  }

  /** The size of a file is the sum of its records'. */
  lemma SizeExactly(records: seq<Record>, data: Record)
    ensures Size([]) == 0 && Size(records + [data]) == Size(records) + |data|
  {
    SizeAppended(records, data);
  }

  /** File k was started because its first record did not fit behind the older one. */
  predicate Crowded(files: Files, k: nat, maxSize: nat) {
    k in files && k + 1 in files && files[k] != [] && Size(files[k + 1]) + |files[k][0]| > maxSize
  }

  predicate Full(files: Files, maxSize: nat, maxFiles: nat, n: nat) {
    forall k | 0 <= k < n && k + 1 < maxFiles :: Crowded(files, k, maxSize)
  }

  lemma CrowdedMoves(files: Files, files': Files, maxSize: nat, maxFiles: nat, k: nat, data: Record)
    requires 0 in files && k + 1 < maxFiles && (k > 0 ==> Crowded(files, k - 1, maxSize))
    requires Size(files[0]) + |data| > maxSize && IsWritten(files, files', true, maxFiles, data)
    ensures Crowded(files', k, maxSize)
  {
    assert Get(files', k + 1) == Get(files, k);
    if k > 0 { assert Get(files', k) == Get(files, k - 1); }
  }

  lemma CrowdedStays(files: Files, files': Files, maxSize: nat, k: nat, data: Record)
    requires 0 in files && Crowded(files, k, maxSize) && files' == files[0 := files[0] + [data]]
    ensures Crowded(files', k, maxSize)
  {
  }

  /** What is known after some records: how full the files are, and the size of the
      active one. */
  predicate After(files: Files, maxSize: nat, maxFiles: nat, n: nat, size: nat) {
    0 in files && Size(files[0]) == size && Full(files, maxSize, maxFiles, n)
  }

  lemma AfterNext(files: Files, files': Files, maxSize: nat, maxFiles: nat, n: nat, size: nat, data: Record)
    requires maxFiles > 0 && After(files, maxSize, maxFiles, n, size)
    requires IsWritten(files, files', Rotates(maxSize, size, data), maxFiles, data)
    ensures var rotated := Rotates(maxSize, size, data);
            After(files', maxSize, maxFiles, if rotated then n + 1 else n, if rotated then |data| else size + |data|)
  {
    if Rotates(maxSize, size, data) {
      forall k | 0 <= k < n + 1 && k + 1 < maxFiles ensures Crowded(files', k, maxSize) {
        CrowdedMoves(files, files', maxSize, maxFiles, k, data);
      }
      SizeExactly([], data);
      assert [] + [data] == [data];
    } else {
      forall k | 0 <= k < n && k + 1 < maxFiles ensures Crowded(files', k, maxSize) {
        CrowdedStays(files, files', maxSize, k, data);
      }
      SizeExactly(files[0], data);
    }
  }

  lemma {:induction false} HistoryIsFull(found: Files, records: seq<Record>, states: seq<Files>, maxSize: nat, maxFiles: nat, n: nat)
    requires maxFiles > 0 && IsHistory(found, records, states, maxSize, maxFiles) && n <= |records|
    ensures var size := Size(Opened(found)[0]);
            After(states[n], maxSize, maxFiles, Rotations(maxSize, size, records[..n]), ActiveSize(maxSize, size, records[..n]))
  {
    var size := Size(Opened(found)[0]);
    if n > 0 {
      HistoryIsFull(found, records, states, maxSize, maxFiles, n - 1);
      var before, m := ActiveSize(maxSize, size, records[..n - 1]), Rotations(maxSize, size, records[..n - 1]);
      OneMore(maxSize, size, records, n - 1);
      assert states[n - 1 + 1] == states[n];
      AfterNext(states[n - 1], states[n], maxSize, maxFiles, m, before, records[n - 1]);
    }
  }

  /** No file is given up early: at the end of every history, for each file that its
      records started, its first record would not have fitted into the next older file. */
  lemma NoFileIsGivenUpEarly(found: Files, records: seq<Record>, states: seq<Files>, maxSize: nat, maxFiles: nat, k: nat)
    requires maxFiles > 0 && IsHistory(found, records, states, maxSize, maxFiles)
    requires k < Rotations(maxSize, Size(Opened(found)[0]), records) && k + 1 < maxFiles
    ensures var files := states[|records|];
            k in files && k + 1 in files && files[k] != [] && Size(files[k + 1]) + |files[k][0]| > maxSize
  {
    HistoryIsFull(found, records, states, maxSize, maxFiles, |records|);
    assert records[..|records|] == records;
    assert Crowded(states[|records|], k, maxSize);
  }
}
