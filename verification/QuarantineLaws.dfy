/** Names, records and rights in quarantine (scan_once.sh, server/quarantine.go), in
    terms of the texts on disk and the answers of the commands. */
module QuarantineLaws {
  import opened Optional
  import opened UserIds
  import opened Text
  import opened QuarantineRecords
  import opened Quarantine

  // ------------------------------------------------------------- names

  /** The base name of a path in a directory is what follows the last slash, without
      newlines at its end. */
  lemma {:induction false} BaseNameIs(before: string, name: string, newlines: string)
    requires '/' !in name && (name == "" || name[|name| - 1] != '\n')
    requires forall c <- newlines :: c == '\n'
    ensures BaseName(before + "/" + name + newlines) == name
    ensures BaseName(name + newlines) == name
  {
    AfterLastSlash(before, name + newlines);
    WithoutAll(name, newlines);
    assert before + "/" + name + newlines == before + "/" + (name + newlines);
    NoSlash(name + newlines);
  }

  lemma NoSlash(s: string)
    requires '/' !in s
    ensures AfterSlash(s) == s
  {
    assert IndexOf(s, '/') == |s|;
  }

  lemma {:induction false} AfterLastSlash(before: string, rest: string)
    requires '/' !in rest
    ensures AfterSlash(before + "/" + rest) == rest
    decreases |before|
  {
    var s := before + "/" + rest;
    var k := IndexOf(s, '/');
    if '/' !in before {
      IndexOfAt(before, '/', rest);
      assert before + ['/'] + rest == s && s[|before| + 1..] == rest;
      NoSlash(rest);
    } else {
      var j := IndexOf(before, '/');
      IndexOfAt(before[..j], '/', before[j + 1..] + "/" + rest);
      assert s == before[..j] + ['/'] + (before[j + 1..] + "/" + rest);
      assert s[j + 1..] == before[j + 1..] + "/" + rest;
      AfterLastSlash(before[j + 1..], rest);
    }
  }

  lemma {:induction false} WithoutAll(name: string, newlines: string)
    requires name == "" || name[|name| - 1] != '\n'
    requires forall c <- newlines :: c == '\n'
    ensures WithoutNewlines(name + newlines) == name
    decreases |newlines|
  {
    if newlines == "" {
      assert name + newlines == name;
    } else {
      var front := newlines[..|newlines| - 1];
      assert newlines[|newlines| - 1] in newlines;
      assert newlines == front + ['\n'];
      assert (name + newlines)[|name + newlines| - 1] == '\n';
      assert (name + newlines)[..|name + newlines| - 1] == name + front;
      assert forall c <- front :: c in newlines;
      WithoutAll(name, front);
    }
  }

  /** The names that are tried: the base name, unless it looks like a record or is the
      lock's, and then the base name, a dot, and the numbers 1, 2, 3 ... in decimal with
      at least three digits. */
  lemma TriedNames(base: string, n: nat)
    ensures NameAt(base, 0) == base
    ensures FirstIndex(base) == 0 <==>
            base != "clamav-quarantine-lock" && !(|base| >= 4 && base[|base| - 4..] == ".rec")
    ensures FirstIndex(base) <= 1
    ensures n > 0 ==> NameAt(base, n) == base + "." + Serial(n)
    ensures ValueOf(Serial(n)) == n && |Serial(n)| >= 3
    ensures |Serial(n)| > 3 ==> Serial(n)[0] != '0'
  {
    SerialValue(n);
    FirstDigit(n);
    DecimalLength(n);
  }

  lemma {:induction false} FirstDigit(n: nat)
    ensures n > 0 ==> Decimal(n)[0] != '0'
  {
    if n >= 10 { FirstDigit(n / 10); }
  }

  lemma DecimalLength(n: nat)
    ensures n >= 10 ==> |Decimal(n)| >= 2
    ensures n >= 100 ==> |Decimal(n)| >= 3
    ensures n < 100 ==> |Serial(n)| == 3
  {
    if n >= 100 { assert |Decimal(n / 10)| >= 2; }
  }

  /** No name is tried twice. */
  lemma NamesDiffer(base: string, i: nat, j: nat)
    requires i != j
    ensures NameAt(base, i) != NameAt(base, j)
  {
    SerialValue(i);
    SerialValue(j);
    assert i > 0 ==> NameAt(base, i)[|base| + 1..] == Serial(i);
    assert j > 0 ==> NameAt(base, j)[|base| + 1..] == Serial(j);
  }

  /** A reserved name and its record fit the limit, and its path and its record's were
      free: no file is overwritten. */
  lemma ReservedIsFree(fs: FileSystem, files: Files, name: string, nameMax: nat)
    ensures Fits(name, nameMax) <==> |name| + 4 <= nameMax
    ensures fs.Free(files, name) <==> fs.dir + "/" + name !in files && fs.dir + "/" + name + ".rec" !in files
  {
  }

  // ------------------------------------------------------------- who gets a file back

  /** A record as the scan writes it. */
  predicate HasRecord(fs: FileSystem, files: Files, name: string, source: string, owner: string) {
    var record := fs.dir + "/" + name + ".rec";
    record in files && files[record] == "\"" + source + "\" " + owner + "\n"
  }

  lemma RecordRead(fs: FileSystem, files: Files, name: string, source: string, owner: string)
    requires HasRecord(fs, files, name, source, owner) && ValidUserId(owner)
    ensures fs.RecordOf(name) in files
    ensures ParseRecord(files[fs.RecordOf(name)]) == if '\"' in source then Invalid else Record(source, owner)
  {
    ParseOfPrint(source, owner);
    assert "\"" + source + "\" " + owner + "\n" == PrintRecord(source, owner);
  }

  /** With a record that was written for this file, recovery is granted exactly to its
      owner, to a permitted path where nothing is, while the file is in quarantine, and
      never if the path has a double quote. Then the file goes there with what it
      contains, and nothing is left in quarantine. */
  lemma RecoverExactly(fs: FileSystem, files: Files, name: string, user: string, permitted: Path -> bool, source: string,
                       owner: string)
    requires HasRecord(fs, files, name, source, owner) && ValidUserId(owner)
    ensures fs.MayRecover(files, name, user, permitted) <==>
            && user == owner && '\"' !in source && source != "" && permitted(source)
            && fs.dir + "/" + name in files && source !in files
    ensures fs.MayRecover(files, name, user, permitted) ==>
              fs.RecordedSource(files, name) == source &&
              fs.Recovered(files, name) ==
              (files - {fs.dir + "/" + name, fs.dir + "/" + name + ".rec"})[source := files[fs.dir + "/" + name]]
  {
    RecordRead(fs, files, name, source, owner);
  }

  /** Deletion is granted exactly to the owner. */
  lemma DeleteExactly(fs: FileSystem, files: Files, name: string, user: string, source: string, owner: string)
    requires HasRecord(fs, files, name, source, owner) && ValidUserId(owner)
    ensures fs.OwnsRecord(files, name, user) <==> user == owner && '\"' !in source
  {
    RecordRead(fs, files, name, source, owner);
  }

  /** Nobody gets anything without a record, or while the name is only reserved. */
  lemma NoRecordNoAccess(fs: FileSystem, files: Files, name: string, user: string, permitted: Path -> bool)
    requires var record := fs.dir + "/" + name + ".rec"; record in files ==> files[record] == ""
    ensures !fs.MayRecover(files, name, user, permitted) && !fs.OwnsRecord(files, name, user)
  {
    ParseIsSafe("");
  }

  // ------------------------------------------------------------- which commands must work

  /** The three ways of moving, by the answers of their commands. */
  lemma WaysToMove(o: nat -> Outcome)
    ensures o(0).ok && o(1).ok && o(1).done ==> MoveWorks(o)
    ensures !o(0).ok && (o(0).left == None || o(2).ok) && o(3).ok && o(4).ok && o(4).done ==> MoveWorks(o)
    ensures !o(0).ok && (o(0).left == None || o(2).ok) && !o(3).ok && (o(3).left == None || o(5).ok) && o(6).ok ==> MoveWorks(o)
    ensures o(0).ok && o(1).ok && !o(1).done ==> !MoveWorks(o)
    ensures o(0).ok && !o(1).ok && o(1).done ==> !MoveWorks(o)
    ensures (!o(0).ok || !o(1).ok) && (!o(3).ok || !o(4).ok) && !o(6).ok ==> !MoveWorks(o)
  {
  }

  /** A restore that succeeds had every command succeed and met no other process. */
  lemma NothingIgnored(o: RestoreOutcomes)
    ensures Untroubled(o) <==>
            o.intruder == None && o.create.ok && o.copy.ok && o.close.ok && o.chmod.ok && o.remove.ok && o.removeRecord.ok
    ensures CopyWorks(o) <==> o.intruder == None && o.create.ok && o.copy.ok && o.close.ok && o.chmod.ok
  {
  }

  /** A quarantine that succeeds had its temporary record made and written, the file
      moved, and the record published. */
  lemma NothingSkipped(o: ScanOutcomes)
    ensures Works(o) <==> o.tmpRecord != None && o.write.ok && o.publish.ok && MoveWorks(o.move)
  {
  }
}
