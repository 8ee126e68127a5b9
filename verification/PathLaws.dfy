/** What the path checks mean (server/browse.go): cleaning against the way the kernel
    walks, containment name by name, and which directories an account has. */
module PathLaws {
  import opened Optional
  import opened UserIds
  import opened Text
  import opened Paths

  // ------------------------------------------------------------- cleaning

  predicate NoLinks(fs: FileSystem) {
    forall path <- fs :: !fs[path].Link?
  }

  lemma {:induction false} WalkIsClean(fs: FileSystem, at: Components, parts: seq<string>, links: nat, end: Components)
    requires NoLinks(fs) && Resolve(fs, at, parts, links) == Found(end)
    ensures CleanParts(parts, at) == end
    decreases |parts|
  {
    if parts != [] {
      if parts[0] == "" || parts[0] == "." {
        WalkIsClean(fs, at, parts[1..], links, end);
      } else if parts[0] == ".." {
        WalkIsClean(fs, if at == [] then [] else at[..|at| - 1], parts[1..], links, end);
      } else {
        WalkIsClean(fs, at + [parts[0]], parts[1..], links, end);
      }
    }
  }

  /** Cleaning does to the text what the kernel does when there are no links: wherever
      the walk along the uncleaned path ends, that is the cleaned path. */
  lemma CleanIsTheWalk(fs: FileSystem, input: string, links: nat, end: Components)
    requires NoLinks(fs) && Resolve(fs, [], Split(input, '/'), links) == Found(end)
    ensures Clean(input) == end
  {
    WalkIsClean(fs, [], Split(input, '/'), links, end);
  }

  lemma {:induction false} CleanPartsConcat(a: seq<string>, b: seq<string>, stack: Components)
    ensures CleanParts(a + b, stack) == CleanParts(b, CleanParts(a, stack))
    decreases |a|
  {
    if a == [] {
      assert a + b == b;
    } else {
      assert (a + b)[1..] == a[1..] + b;
      if a[0] == "" || a[0] == "." {
        CleanPartsConcat(a[1..], b, stack);
      } else if a[0] == ".." {
        CleanPartsConcat(a[1..], b, if stack == [] then [] else stack[..|stack| - 1]);
      } else {
        CleanPartsConcat(a[1..], b, stack + [a[0]]);
      }
    }
  }

  lemma {:induction false} SplitMore(input: string, part: string)
    requires '/' !in part
    ensures Split(input + "/" + part, '/') == Split(input, '/') + [part]
    decreases |input|
  {
    var k := IndexOf(input, '/');
    if k == |input| {
      assert input + "/" + part == input + ['/'] + part;
      SplitAtFirst(input, '/', part);
      SplitNone(part);
      SplitNone(input);
    } else {
      var rest := input[k + 1..];
      assert input == input[..k] + ['/'] + rest;
      Regroup(input[..k], rest, part);
      SplitAtFirst(input[..k], '/', rest + "/" + part);
      SplitAtFirst(input[..k], '/', rest);
      SplitMore(rest, part);
    }
  }

  lemma Regroup(front: string, rest: string, part: string)
    ensures front + ['/'] + rest + "/" + part == front + ['/'] + (rest + "/" + part)
  {
  }

  lemma SplitNone(s: string)
    requires '/' !in s
    ensures Split(s, '/') == [s]
  {
    IndexOfNone(s, '/');
  }

  /** One more part: nothing and a dot stay, two dots go up but not above the root
      directory, and a name goes into it. */
  lemma CleanExactly(input: string, part: string)
    requires '/' !in part
    ensures Clean("/") == []
    ensures Clean(input + "/" + part) ==
            if part == "" || part == "." then Clean(input)
            else if part == ".." then (if Clean(input) == [] then [] else Clean(input)[..|Clean(input)| - 1])
            else Clean(input) + [part]
  {
    CleanOfRender([]);
    SplitMore(input, part);
    CleanPartsConcat(Split(input, '/'), [part], []);
    assert [part][1..] == [];
  }

  // ------------------------------------------------------------- containment

  /** The containment that accepted paths have is by whole names from the front. */
  lemma ContainsExactly(root: Components, path: Components)
    ensures Contains(root, path) <==>
            |root| <= |path| && (forall i | 0 <= i < |root| :: root[i] == path[i]) && (root == [] ==> path == [])
  {
    assert root <= path <==> |root| <= |path| && root == path[..|root|];
  }

  // ------------------------------------------------------------- links

  /** Without missing ends allowed, a path is free of links exactly if each of its
      prefixes exists, none is a link, and all but the last are directories. */
  lemma SolidExactly(fs: FileSystem, path: Components)
    ensures SolidWay(fs, path, false) <==>
            forall i | 0 < i <= |path| :: path[..i] in fs && !fs[path[..i]].Link? && (i < |path| ==> fs[path[..i]].Dir?)
  {
    if SolidWay(fs, path, false) {
      var n :| 0 <= n <= |path| && SolidUntil(fs, path, n, false);
    } else {
      assert !SolidUntil(fs, path, |path|, false);
    }
  }

  /** A missing end helps no link through: the first that the way comes to decides. */
  lemma LinkDecides(fs: FileSystem, path: Components, i: nat, allowMissing: bool)
    requires 0 < i <= |path| && path[..i] in fs && fs[path[..i]].Link?
    requires forall j | 0 < j < i :: path[..j] in fs
    ensures !SolidWay(fs, path, allowMissing)
  {
    forall n | 0 <= n <= |path| ensures !SolidUntil(fs, path, n, allowMissing) {
      StopsAtLink(fs, path, i, n, allowMissing);
    }
  }

  lemma StopsAtLink(fs: FileSystem, path: Components, i: nat, n: nat, allowMissing: bool)
    requires 0 < i <= |path| && n <= |path| && path[..i] in fs && fs[path[..i]].Link?
    requires forall j | 0 < j < i :: path[..j] in fs
    ensures !SolidUntil(fs, path, n, allowMissing)
  {
    if n < i { assert path[..n + 1] in fs; }
  }

  /** A path whose names are directories up to one that is missing there passes exactly
      if that is allowed. */
  lemma MissingDecides(fs: FileSystem, path: Components, n: nat, allowMissing: bool)
    requires n < |path| && path[..n + 1] !in fs
    requires forall i | 0 < i <= n :: path[..i] in fs && fs[path[..i]].Dir?
    ensures SolidWay(fs, path, allowMissing) <==> allowMissing
  {
    if allowMissing {
      assert SolidUntil(fs, path, n, true);
    } else {
      SolidExactly(fs, path);
    }
  }

  // ------------------------------------------------------------- accounts

  /** extdev, or usb and one digit or more. */
  lemma DeviceExactly(name: Name)
    ensures DeviceName(name) <==>
            name == "extdev" ||
            (|name| >= 4 && name[0] == 'u' && name[1] == 's' && name[2] == 'b' &&
             forall i | 3 <= i < |name| :: '0' <= name[i] <= '9')
  {
    assert "usb" <= name <==> |name| >= 3 && name[0] == 'u' && name[1] == 's' && name[2] == 'b';
    if "usb" <= name {
      assert forall i | 3 <= i < |name| :: name[i] == name[3..][i - 3];
      if Numeral(name[3..]) {
        forall i | 3 <= i < |name| ensures '0' <= name[i] <= '9' { assert IsDigit(name[3..][i - 3]); }
      }
    }
  }

  /** Under a root without links on its way, the directories of an account are those
      that really are directories, on devices that are: a link in either place is none. */
  lemma AccountExactly(fs: FileSystem, root: Components, account: Name, device: Name, links: nat)
    requires Proper(root) && Solid(fs, root, |root|) && IntoDirectory(fs, root, |root|)
    requires ValidName(account)
    ensures AccountRoot(fs, root, account, device, links) <==>
            && DeviceName(device)
            && root + [device] in fs && fs[root + [device]] == Dir
            && root + [device, account] in fs && fs[root + [device, account]] == Dir
  {
    var path := root + [device, account];
    assert path[..|root|] == root && path[..|root| + 1] == root + [device] && path[..|root| + 2] == path;
    SolidResolves(fs, root, |root|, 0, links);
    assert root[..0] == [] && root[0..|root|] == root && root[..|root|] == root;
    if DeviceName(device) && root + [device] in fs && fs[root + [device]].Dir? {
      DeviceIsName(device);
      assert Proper(path);
      SolidFurther(fs, root, path);
      LstatOfNext(fs, path, |root| + 1, links);
    }
  }

  lemma SolidFurther(fs: FileSystem, root: Components, path: Components)
    requires Solid(fs, root, |root|) && IntoDirectory(fs, root, |root|)
    requires |root| < |path| && root == path[..|root|] && path[..|root| + 1] in fs && fs[path[..|root| + 1]].Dir?
    ensures Solid(fs, path, |root| + 1) && IntoDirectory(fs, path, |root| + 1)
  {
    forall i | 0 < i <= |root| ensures path[..i] == root[..i] {}
  }
}
