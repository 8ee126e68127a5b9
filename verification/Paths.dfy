/** Which paths may be browsed, scanned and restored to (server/browse.go).

    A clean absolute path is a list of names; Render gives its text. The file system
    is fixed during a check: a map from resolved paths to nodes. Roots are clean. */
module Paths {
  import opened Optional
  import opened UserIds
  import opened Text

  type Name = string
  type Components = seq<Name>

  predicate ValidName(name: Name) {
    name != "" && '/' !in name && name != "." && name != ".."
  }

  predicate Proper(path: Components) {
    forall name <- path :: ValidName(name)
  }

  /** The names, each after a slash. */
  function Body(path: Components): string {
    if path == [] then "" else ['/'] + path[0] + Body(path[1..])
  }

  function Render(path: Components): string {
    if path == [] then "/" else Body(path)
  }

  // ------------------------------------------------------------- filepath.Clean

  function CleanParts(parts: seq<string>, stack: Components): Components {
    if parts == [] then stack
    else if parts[0] == "" || parts[0] == "." then CleanParts(parts[1..], stack)
    else if parts[0] == ".." then CleanParts(parts[1..], if stack == [] then [] else stack[..|stack| - 1])
    else CleanParts(parts[1..], stack + [parts[0]])
  }

  /** filepath.Clean of an absolute path. */
  function Clean(input: string): Components {
    CleanParts(Split(input, '/'), [])
  }

  lemma {:induction false} PartsHaveNoSlash(input: string)
    ensures forall part <- Split(input, '/') :: '/' !in part
  {
    if IndexOf(input, '/') < |input| { PartsHaveNoSlash(input[IndexOf(input, '/') + 1..]); }
  }

  lemma {:induction false} CleanPartsProper(parts: seq<string>, stack: Components)
    requires Proper(stack) && forall part <- parts :: '/' !in part
    ensures Proper(CleanParts(parts, stack))
  {
    if parts != [] {
      var rest := parts[1..];
      if parts[0] == "" || parts[0] == "." {
        CleanPartsProper(rest, stack);
      } else if parts[0] == ".." {
        CleanPartsProper(rest, if stack == [] then [] else stack[..|stack| - 1]);
      } else {
        CleanPartsProper(rest, stack + [parts[0]]);
      }
    }
  }

  /** A cleaned path has no empty, dot or slash-bearing names in it. */
  lemma CleanIsProper(input: string)
    ensures Proper(Clean(input))
  {
    PartsHaveNoSlash(input);
    CleanPartsProper(Split(input, '/'), []);
  }

  /** The text of a path without its first slash. */
  function Tail(path: Components): string
    requires path != []
  {
    path[0] + Body(path[1..])
  }

  lemma {:induction false} SplitTail(path: Components)
    requires Proper(path) && path != []
    ensures Split(Tail(path), '/') == path
  {
    var name, rest := path[0], path[1..];
    assert name in path;
    TailIs(path);
    if rest == [] {
      IndexOfNone(name, '/');
    } else {
      SplitAtFirst(name, '/', Tail(rest));
      SplitTail(rest);
    }
  }

  lemma TailIs(path: Components)
    requires path != []
    ensures Tail(path) == if path[1..] == [] then path[0] else path[0] + ['/'] + Tail(path[1..])
  {
    if path[1..] == [] {
      assert path[0] + "" == path[0];
    } else {
      assert path[0] + (['/'] + path[1..][0] + Body(path[1..][1..])) == path[0] + ['/'] + (path[1..][0] + Body(path[1..][1..]));
    }
  }

  lemma {:induction false} CleanPartsKeeps(parts: Components, stack: Components)
    requires Proper(parts)
    ensures CleanParts(parts, stack) == stack + parts
  {
    if parts != [] {
      assert parts[0] in parts;
      CleanPartsKeeps(parts[1..], stack + [parts[0]]);
      assert stack + [parts[0]] + parts[1..] == stack + parts;
    } else {
      assert stack + parts == stack;
    }
  }

  /** Cleaning the text of a clean path changes nothing. */
  lemma CleanOfRender(path: Components)
    requires Proper(path)
    ensures Clean(Render(path)) == path
  {
    if path == [] {
      assert Split("/", '/') == ["", ""];
      assert ["", ""][1..] == [""];
    } else {
      assert Body(path) == "" + ['/'] + Tail(path);
      SplitAtFirst("", '/', Tail(path));
      SplitTail(path);
      assert ([""] + path)[1..] == path;
      CleanPartsKeeps(path, []);
      assert [] + path == path;
    }
  }

  // ------------------------------------------------------------- pathWithin

  /** pathWithin, on the texts of clean paths. */
  predicate TextWithin(path: Components, root: Components) {
    Render(path) == Render(root) || Render(root) + "/" <= Render(path)
  }

  lemma NameEnds(name: Name, rest: string)
    requires ValidName(name) && (rest == "" || rest[0] == '/')
    ensures IndexOf(name + rest, '/') == |name|
  {
    if rest == "" {
      assert name + rest == name;
      IndexOfNone(name, '/');
    } else {
      var after := rest[1..];
      assert rest == ['/'] + after;
      assert name + rest == name + ['/'] + after;
      IndexOfAt(name, '/', after);
    }
  }

  /** Two texts that start with a name and a slash, or end after a name, start with
      the same name if one is a prefix of the other. */
  lemma SameFirst(name: Name, rest: string, name': Name, rest': string)
    requires ValidName(name) && ValidName(name') && rest != "" && rest[0] == '/'
    requires rest' == "" || rest'[0] == '/'
    requires name + rest <= name' + rest'
    ensures name == name' && rest <= rest'
  {
    var text := name' + rest';
    NameEnds(name', rest');
    assert text == name + ['/'] + text[|name| + 1..];
    IndexOfAt(name, '/', text[|name| + 1..]);
    assert name == text[..|name|] == name';
    assert rest' == text[|name|..];
    assert rest == (name + rest)[|name|..];
  }

  lemma BodyStarts(path: Components)
    ensures path == [] ==> Body(path) == ""
    ensures path != [] ==> Body(path) != "" && Body(path)[0] == '/'
  {
  }

  lemma PrefixAfter(front: string, a: string, b: string)
    ensures front + a <= front + b <==> a <= b
  {
    assert (front + a)[|front|..] == a && (front + b)[|front|..] == b;
    if front + a <= front + b {
      assert (front + b)[..|front + a|] == front + a;
      assert b[..|a|] == (front + b)[|front|..|front + a|];
    }
  }

  /** The same for a slash, a name and what follows it. */
  lemma PrefixAfterName(name: Name, rest: string, name': Name, rest': string)
    requires ValidName(name) && ValidName(name') && rest != "" && rest[0] == '/'
    requires rest' == "" || rest'[0] == '/'
    ensures ['/'] + (name + rest) <= ['/'] + (name' + rest') <==> name == name' && rest <= rest'
  {
    PrefixAfter(['/'], name + rest, name' + rest');
    if name + rest <= name' + rest' { SameFirst(name, rest, name', rest'); }
    PrefixAfter(name, rest, rest');
  }

  lemma BodyWithSlash(path: Components)
    requires path != []
    ensures Body(path) + "/" == ['/'] + (path[0] + (Body(path[1..]) + "/"))
    ensures Body(path) == ['/'] + (path[0] + Body(path[1..]))
  {
  }

  lemma FirstNames(root: Components, path: Components)
    requires Proper(root) && Proper(path) && root != [] && path != []
    ensures Body(root) + "/" <= Body(path) <==> root[0] == path[0] && Body(root[1..]) + "/" <= Body(path[1..])
  {
    assert root[0] in root && path[0] in path;
    BodyStarts(root[1..]);
    BodyStarts(path[1..]);
    BodyWithSlash(root);
    BodyWithSlash(path);
    PrefixAfterName(root[0], Body(root[1..]) + "/", path[0], Body(path[1..]));
  }

  lemma {:induction false} PrefixOfBody(root: Components, path: Components)
    requires Proper(root) && Proper(path)
    ensures Body(root) + "/" <= Body(path) <==> root <= path && |root| < |path|
  {
    if root == [] {
      assert Body(root) + "/" == "/";
      BodyStarts(path);
    } else if path != [] {
      FirstNames(root, path);
      PrefixOfBody(root[1..], path[1..]);
      assert root <= path <==> root[0] == path[0] && root[1..] <= path[1..];
    }
  }

  /** Only the root directory has the text of the root directory. */
  lemma RenderInjective(a: Components, b: Components)
    requires Proper(a) && Proper(b) && Render(a) == Render(b)
    ensures a == b
  {
    CleanOfRender(a);
    CleanOfRender(b);
  }

  /** The prefix test on the texts is containment by components, except under the
      root directory itself, which contains nothing but itself for the test. */
  lemma TextWithinIsPrefix(path: Components, root: Components)
    requires Proper(path) && Proper(root)
    ensures TextWithin(path, root) <==> Contains(root, path)
  {
    if Render(path) == Render(root) { RenderInjective(path, root); }
    PrefixOfBody(root, path);
    if root == [] {
      assert Render(root) + "/" == "//";
      RootHasNoDoubleSlash(path);
    } else if path == [] {
      assert |Render(root) + "/"| > |Render(path)| by { BodyStarts(root); }
    } else {
      assert root <= path && |root| == |path| ==> root == path;
    }
  }

  /** A root that is the root directory lets nothing else through. */
  lemma RootLetsNothingThrough(path: Components)
    requires Proper(path) && path != []
    ensures [] <= path && !TextWithin(path, [])
  {
    TextWithinIsPrefix(path, []);
  }

  lemma RootHasNoDoubleSlash(path: Components)
    requires Proper(path)
    ensures !("//" <= Render(path))
  {
    if path != [] {
      assert path[0] in path;
      assert Body(path)[1] == path[0][0];
      assert path[0][0] in path[0];
    }
  }

  // ------------------------------------------------------------- the file system

  /** A link's target is relative to the directory it is in, or absolute. */
  datatype Node = Dir | Plain | Link(absolute: bool, target: seq<string>)

  type FileSystem = map<Components, Node>

  datatype Lookup = Found(at: Components) | NotFound | NotDir | TooManyLinks

  /** How the kernel resolves names one by one, following links; `links` bounds how
      many. A name "" or "." stays, ".." goes up. */
  function Resolve(fs: FileSystem, at: Components, rest: seq<string>, links: nat): Lookup
    decreases links, |rest|
  {
    if rest == [] then Found(at)
    else if at != [] && (at !in fs || !fs[at].Dir?) then if at !in fs then NotFound else NotDir
    else if rest[0] == "" || rest[0] == "." then Resolve(fs, at, rest[1..], links)
    else if rest[0] == ".." then Resolve(fs, if at == [] then [] else at[..|at| - 1], rest[1..], links)
    else
      var next := at + [rest[0]];
      if next !in fs then NotFound
      else if !fs[next].Link? then Resolve(fs, next, rest[1..], links)
      else if links == 0 then TooManyLinks
      else Resolve(fs, if fs[next].absolute then [] else at, fs[next].target + rest[1..], links - 1)
  }

  /** What os.Lstat finds: only the links before the last name are followed. */
  datatype Stat = Info(node: Node) | Missing | Failed

  function Lstat(fs: FileSystem, path: Components, links: nat): Stat
    requires path != []
  {
    match Resolve(fs, [], path[..|path| - 1], links)
    case Found(parent) =>
      if parent != [] && parent in fs && !fs[parent].Dir? then Failed
      else if parent + [path[|path| - 1]] in fs then Info(fs[parent + [path[|path| - 1]]])
      else Missing
    case NotFound => Missing
    case _ => Failed
  }

  datatype Verdict = Accepted | HasLink | DoesNotExist | Unreadable

  /** The first n names exist, in directories, and none of them is a link. */
  predicate Solid(fs: FileSystem, path: Components, n: nat)
    requires n <= |path|
  {
    && (forall i | 0 < i <= n :: path[..i] in fs && !fs[path[..i]].Link?)
    && (forall i | 0 < i < n :: fs[path[..i]].Dir?)
  }

  /** The first n names lead into a directory. */
  predicate IntoDirectory(fs: FileSystem, path: Components, n: nat)
    requires n <= |path|
  {
    n == 0 || (path[..n] in fs && fs[path[..n]].Dir?)
  }

  /** ... and these are all names, or, if that is allowed, the next one is missing from
      its directory. */
  predicate SolidUntil(fs: FileSystem, path: Components, n: nat, allowMissing: bool)
    requires n <= |path|
  {
    && Solid(fs, path, n)
    && (n == |path| || (allowMissing && IntoDirectory(fs, path, n) && path[..n + 1] !in fs))
  }

  ghost predicate SolidWay(fs: FileSystem, path: Components, allowMissing: bool) {
    exists n | 0 <= n <= |path| :: SolidUntil(fs, path, n, allowMissing)
  }

  /** What the check of the next prefix tells about the whole way. */
  lemma NextPrefixDecides(fs: FileSystem, path: Components, i: nat, allowMissing: bool)
    requires i < |path| && Solid(fs, path, i) && SolidWay(fs, path, allowMissing)
    ensures IntoDirectory(fs, path, i)
    ensures if path[..i + 1] in fs then !fs[path[..i + 1]].Link? else allowMissing
  {
    var n :| 0 <= n <= |path| && SolidUntil(fs, path, n, allowMissing);
  }

  /** Walking over solid names leads to where they say. */
  lemma {:induction false} SolidResolves(fs: FileSystem, path: Components, n: nat, k: nat, links: nat)
    requires Proper(path) && k <= n <= |path| && Solid(fs, path, n)
    ensures Resolve(fs, path[..k], path[k..n], links) == Found(path[..n])
    decreases n - k
  {
    if k < n {
      assert path[k] in path;
      assert path[..k] + [path[k]] == path[..k + 1];
      assert path[k..n][1..] == path[k + 1..n];
      SolidResolves(fs, path, n, k + 1, links);
    }
  }

  /** What the check of the next prefix finds behind solid names. */
  lemma LstatOfNext(fs: FileSystem, path: Components, i: nat, links: nat)
    requires Proper(path) && i < |path| && Solid(fs, path, i)
    ensures Lstat(fs, path[..i + 1], links) ==
            if !IntoDirectory(fs, path, i) then Failed
            else if path[..i + 1] in fs then Info(fs[path[..i + 1]]) else Missing
  {
    SolidResolves(fs, path, i, 0, links);
    assert path[..i + 1][..i] == path[..i] && path[0..i] == path[..i] && path[..0] == [];
    assert path[..i] + [path[i]] == path[..i + 1];
  }

  /** rejectSymlinkComponents: one Lstat for each longer prefix of the path. */
  method RejectSymlinkComponents(fs: FileSystem, path: Components, allowMissing: bool, links: nat) returns (verdict: Verdict)
    requires Proper(path)
    ensures verdict == Accepted <==> SolidWay(fs, path, allowMissing)
    ensures verdict == HasLink ==> exists i | 0 < i <= |path| :: path[..i] in fs && fs[path[..i]].Link?
  {
    for i := 0 to |path|
      invariant Solid(fs, path, i)
    {
      LstatOfNext(fs, path, i, links);
      if SolidWay(fs, path, allowMissing) { NextPrefixDecides(fs, path, i, allowMissing); }
      var stat := Lstat(fs, path[..i + 1], links);
      match stat
      case Missing =>
        assert allowMissing ==> SolidUntil(fs, path, i, allowMissing);
        return if allowMissing then Accepted else DoesNotExist;
      case Failed => return Unreadable;
      case Info(node) =>
        if node.Link? {
          return HasLink;
        }
    }
    assert SolidUntil(fs, path, |path|, allowMissing);
    return Accepted;
  }

  // ------------------------------------------------------------- accepted paths

  /** Containment by components, as far as the text test sees it. */
  predicate Contains(root: Components, path: Components) {
    root <= path && (root != [] || path == [])
  }

  /** A clean path under one of the roots, without links on its way. */
  ghost predicate Allowed(fs: FileSystem, path: Components, roots: seq<Components>, allowMissing: bool) {
    && Proper(path)
    && (exists i | 0 <= i < |roots| :: Contains(roots[i], path))
    && SolidWay(fs, path, allowMissing)
  }

  /** The loop of validatePath: the first root that passes the test decides. */
  method FirstRoot(roots: seq<Components>, test: Components -> bool) returns (found: bool, i: nat)
    ensures found ==> i < |roots| && test(roots[i])
    ensures !found ==> forall j | 0 <= j < |roots| :: !test(roots[j])
  {
    for k := 0 to |roots|
      invariant forall j | 0 <= j < k :: !test(roots[j])
    {
      if test(roots[k]) {
        return true, k;
      }
    }
    return false, 0;
  }

  /** validatePath: absolute paths, cleaned, are accepted exactly when they are
      allowed. */
  method ValidatePath(fs: FileSystem, input: string, roots: seq<Components>, allowMissing: bool, links: nat)
    returns (result: Option<Components>)
    requires forall j | 0 <= j < |roots| :: Proper(roots[j])
    ensures result == if '\0' !in input && input != "" && input[0] == '/' && Allowed(fs, Clean(input), roots, allowMissing)
                      then Some(Clean(input)) else None
  {
    if '\0' in input {
      return None;
    }
    if input == "" || input[0] != '/' {
      return None;
    }
    var path := Clean(input);
    CleanIsProper(input);
    forall j | 0 <= j < |roots| ensures TextWithin(path, roots[j]) <==> Contains(roots[j], path) {
      TextWithinIsPrefix(path, roots[j]);
    }
    var found, i := FirstRoot(roots, root => TextWithin(path, root));
    if !found {
      return None;
    }
    var verdict := RejectSymlinkComponents(fs, path, allowMissing, links);
    if verdict != Accepted {
      return None;
    }
    return Some(path);
  }

  /** Some part of the path leads to itself, and the next name does not exist there. */
  ghost predicate MissingPart(fs: FileSystem, path: Components, links: nat) {
    exists n | 0 <= n < |path| :: Resolve(fs, [], path[..n], links) == Found(path[..n]) && path[..n + 1] !in fs
  }

  /** An accepted path is where it says, links followed: it leads to itself, or, when
      its end may be missing, every part of it that exists does. */
  lemma AcceptedLeadsToItself(fs: FileSystem, path: Components, roots: seq<Components>, allowMissing: bool, links: nat)
    requires Allowed(fs, path, roots, allowMissing)
    ensures Resolve(fs, [], path, links) == Found(path) || (allowMissing && MissingPart(fs, path, links))
  {
    var n :| 0 <= n <= |path| && SolidUntil(fs, path, n, allowMissing);
    SolidResolves(fs, path, n, 0, links);
    assert path[..0] == [] && path[0..n] == path[..n];
    if n == |path| { assert path[..n] == path; }
  }

  // ------------------------------------------------------------- accounts

  /** isTimeDockDeviceName: extdev, or usb and digits. */
  predicate DeviceName(name: Name) {
    name == "extdev" || ("usb" <= name && Numeral(name[3..]))
  }

  /** The loop of isTimeDockDeviceName. */
  method IsTimeDockDeviceName(name: Name) returns (ok: bool)
    ensures ok == DeviceName(name)
  {
    if name == "extdev" {
      return true;
    }
    if !("usb" <= name) || |name| == 3 {
      return false;
    }
    for i := 3 to |name|
      invariant forall j | 3 <= j < i :: IsDigit(name[j])
    {
      if !IsDigit(name[i]) {
        assert name[3..][i - 3] == name[i];
        return false;
      }
    }
    return true;
  }

  /** The directories of the account on real devices under the root. */
  predicate AccountRoot(fs: FileSystem, root: Components, account: Name, device: Name, links: nat) {
    && DeviceName(device)
    && Resolve(fs, [], root, links).Found?
    && Resolve(fs, [], root, links).at + [device] in fs && fs[Resolve(fs, [], root, links).at + [device]].Dir?
    && Lstat(fs, root + [device, account], links) == Info(Dir)
  }

  /** timeDockDeviceAccounts: one pass over the entries of the root directory. */
  method TimeDockDeviceAccounts(fs: FileSystem, root: Components, account: Name, entries: seq<Name>, links: nat)
    returns (devices: map<Name, Components>)
    requires Resolve(fs, [], root, links).Found?
    requires forall name :: name in entries <==> Resolve(fs, [], root, links).at + [name] in fs
    ensures forall device :: device in devices <==> AccountRoot(fs, root, account, device, links)
    ensures forall device <- devices :: devices[device] == root + [device, account]
  {
    devices := map[];
    var directory := Resolve(fs, [], root, links).at;
    for i := 0 to |entries|
      invariant forall device :: device in devices <==> device in entries[..i] && AccountRoot(fs, root, account, device, links)
      invariant forall device <- devices :: devices[device] == root + [device, account]
    {
      var name := entries[i];
      assert entries[..i + 1] == entries[..i] + [name] && name in entries;
      var named := IsTimeDockDeviceName(name);
      if !fs[directory + [name]].Dir? || !named {
        continue;
      }
      if Lstat(fs, root + [name, account], links) != Info(Dir) {
        continue;
      }
      devices := devices[name := root + [name, account]];
    }
    assert entries[..|entries|] == entries;
  }

  /** authorizeTimeDockPath. */
  predicate Authorized(path: Components, devices: map<Name, Components>) {
    exists device <- devices :: TextWithin(path, devices[device])
  }

  /** In account mode an accepted path is inside the account's own directory on a
      device, and leads to itself as far as it exists, so nothing outside can be
      reached by it. */
  lemma AccountPathsStayInside(fs: FileSystem, path: Components, roots: seq<Components>, account: Name,
                               devices: map<Name, Components>, allowMissing: bool, links: nat)
    requires Allowed(fs, path, roots, allowMissing) && roots != [] && ValidName(account) && Proper(roots[0])
    requires forall device <- devices :: AccountRoot(fs, roots[0], account, device, links)
    requires forall device <- devices :: devices[device] == roots[0] + [device, account]
    requires Authorized(path, devices)
    ensures exists device :: DeviceName(device) && roots[0] + [device, account] <= path
    ensures Resolve(fs, [], path, links) == Found(path) || (allowMissing && MissingPart(fs, path, links))
  {
    var device :| device in devices && TextWithin(path, devices[device]);
    DeviceIsName(device);
    assert Proper(devices[device]);
    TextWithinIsPrefix(path, devices[device]);
    AcceptedLeadsToItself(fs, path, roots, allowMissing, links);
  }

  lemma DeviceIsName(device: Name)
    requires DeviceName(device)
    ensures ValidName(device)
  {
    if device != "extdev" {
      assert device == "usb" + device[3..];
      forall i | 0 <= i < |device| ensures device[i] != '/' {
        if i >= 3 { assert IsDigit(device[3..][i - 3]); }
      }
      assert device[0] == 'u';
    }
  }
}
