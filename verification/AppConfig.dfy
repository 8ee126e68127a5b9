/** Reading and saving the application settings. Saving changes only the lines of the
    keys that changed and appends the keys that are missing (server/app_config.go).
    Files are lines without their newlines; a text that ends in a newline has an empty
    last line. */
module AppConfig {
  import opened Optional
  import opened Text
  import opened AppConfigKeys

  // ------------------------------------------------------------- reading a file

  /** The values of the keys in a file, if every line can be read, every key is known
      and none comes twice. */
  function Entries(s: Schema, lines: seq<string>): Option<map<Key, string>> {
    if lines == [] then Some(map[])
    else AddLine(s, Entries(s, lines[..|lines| - 1]), s.classify(lines[|lines| - 1]))
  }

  function AddLine(s: Schema, entries: Option<map<Key, string>>, line: Line): Option<map<Key, string>> {
    if entries.None? || line.Malformed? then None
    else if line.Skipped? then entries
    else
      match s.keyOf(line.name)
      case None => None
      case Some(key) => if key in entries.value then None else Some(entries.value[key := line.value])
  }

  predicate AllParse(s: Schema, entries: map<Key, string>) {
    forall key <- entries :: ParseValue(s, key, entries[key]).Some?
  }

  function ValueIn(s: Schema, entries: map<Key, string>, key: Key): Value
    requires AllParse(s, entries)
  {
    if key in entries then ParseValue(s, key, entries[key]).value else DefaultOf(key)
  }

  function ValuesOf(s: Schema, entries: map<Key, string>): Config
    requires AllParse(s, entries)
  {
    map key: Key | key in KEYS :: ValueIn(s, entries, key)
  }

  lemma ValuesAre(s: Schema, entries: map<Key, string>)
    requires AllParse(s, entries)
    ensures forall key: Key :: key in ValuesOf(s, entries) && ValuesOf(s, entries)[key] == ValueIn(s, entries, key)
    ensures HasKeys(ValuesOf(s, entries))
  {
    forall key: Key ensures key in KEYS { EveryKeyIsListed(key); }
  }

  /** parseAppConfig. */
  function Parse(s: Schema, lines: seq<string>): Option<Config> {
    var entries := Entries(s, lines);
    if entries.None? || !AllParse(s, entries.value) || !s.valid(ValuesOf(s, entries.value)) then None
    else Some(ValuesOf(s, entries.value))
  }

  // ------------------------------------------------------------- merging

  /** The key of a line, if it is one of ours. */
  function KeyIn(s: Schema, line: string): Option<Key> {
    if s.classify(line).Entry? then s.keyOf(s.classify(line).name) else None
  }

  /** The line of a changed key, with the new value after its equals sign. */
  function RewriteLine(s: Schema, line: string, cfg: Config, changed: set<Key>): string
    requires HasKeys(cfg)
  {
    var key := KeyIn(s, line);
    if key.Some? && key.value in changed then s.withValue(line, PrintValue(cfg[key.value])) else line
  }

  function RewriteLines(s: Schema, lines: seq<string>, cfg: Config, changed: set<Key>): (merged: seq<string>)
    requires HasKeys(cfg)
    ensures |merged| == |lines|
    ensures forall i | 0 <= i < |lines| :: merged[i] == RewriteLine(s, lines[i], cfg, changed)
  {
    seq(|lines|, i requires 0 <= i < |lines| => RewriteLine(s, lines[i], cfg, changed))
  }

  function SeenKeys(s: Schema, lines: seq<string>): set<Key> {
    set line <- lines | KeyIn(s, line).Some? :: KeyIn(s, line).value
  }

  /** A text gets another line at its end. */
  function AppendLine(lines: seq<string>, line: string): (appended: seq<string>)
    requires lines != []
    ensures appended != []
  {
    (if lines[|lines| - 1] == "" then lines[..|lines| - 1] else lines) + [line, ""]
  }

  function EntryLine(s: Schema, key: Key, cfg: Config): string
    requires HasKeys(cfg)
  {
    s.entry(key, PrintValue(cfg[key]))
  }

  /** The entries of those of the keys that were not seen are appended. */
  function AppendMissing(s: Schema, lines: seq<string>, cfg: Config, seen: set<Key>, keys: seq<Key>): (merged: seq<string>)
    requires HasKeys(cfg) && lines != []
    ensures merged != []
    decreases |keys|
  {
    if keys == [] then lines
    else if keys[0] in seen then AppendMissing(s, lines, cfg, seen, keys[1..])
    else AppendMissing(s, AppendLine(lines, EntryLine(s, keys[0], cfg)), cfg, seen, keys[1..])
  }

  /** mergeAppConfigContent. */
  function Merge(s: Schema, lines: seq<string>, cfg: Config, changed: set<Key>): (merged: seq<string>)
    requires HasKeys(cfg) && lines != []
    ensures merged != []
  {
    AppendMissing(s, RewriteLines(s, lines, cfg, changed), cfg, SeenKeys(s, lines), KEYS)
  }

  // ------------------------------------------------------------- entries of a merged file

  /** The entries with the new values of the changed keys. */
  function Updated(entries: map<Key, string>, cfg: Config, changed: set<Key>): map<Key, string>
    requires HasKeys(cfg)
  {
    map key <- entries :: if key in changed then PrintValue(cfg[key]) else entries[key]
  }

  lemma RewrittenLine(s: Schema, line: string, cfg: Config, changed: set<Key>)
    requires Coherent(s) && Normal(s, cfg)
    ensures KeyIn(s, RewriteLine(s, line, cfg, changed)) == KeyIn(s, line)
    ensures KeyIn(s, line).None? || KeyIn(s, line).value !in changed ==> RewriteLine(s, line, cfg, changed) == line
    ensures KeyIn(s, line).Some? && KeyIn(s, line).value in changed ==>
              s.classify(RewriteLine(s, line, cfg, changed)) ==
              Entry(s.classify(line).name, PrintValue(cfg[KeyIn(s, line).value]))
    ensures RewriteLine(s, RewriteLine(s, line, cfg, changed), cfg, changed) == RewriteLine(s, line, cfg, changed)
  {
    var key := KeyIn(s, line);
    if key.Some? && key.value in changed { PrintedValueParses(s, cfg, key.value); }
  }

  /** What becomes of a line as an entry. */
  function RewrittenClass(s: Schema, line: Line, cfg: Config, changed: set<Key>): Line
    requires HasKeys(cfg)
  {
    if line.Entry? && s.keyOf(line.name).Some? && s.keyOf(line.name).value in changed
    then Entry(line.name, PrintValue(cfg[s.keyOf(line.name).value])) else line
  }

  lemma ClassOfRewritten(s: Schema, line: string, cfg: Config, changed: set<Key>)
    requires Coherent(s) && Normal(s, cfg)
    ensures s.classify(RewriteLine(s, line, cfg, changed)) == RewrittenClass(s, s.classify(line), cfg, changed)
  {
    RewrittenLine(s, line, cfg, changed);
  }

  lemma RewrittenSnoc(s: Schema, front: seq<string>, last: string, cfg: Config, changed: set<Key>)
    requires HasKeys(cfg)
    ensures RewriteLines(s, front + [last], cfg, changed) ==
            RewriteLines(s, front, cfg, changed) + [RewriteLine(s, last, cfg, changed)]
  {
  }

  lemma {:induction false} RewrittenEntries(s: Schema, lines: seq<string>, cfg: Config, changed: set<Key>)
    requires Coherent(s) && Normal(s, cfg) && Entries(s, lines).Some?
    ensures Entries(s, RewriteLines(s, lines, cfg, changed)) == Some(Updated(Entries(s, lines).value, cfg, changed))
  {
    if lines != [] {
      var front, last := lines[..|lines| - 1], lines[|lines| - 1];
      RewrittenEntries(s, front, cfg, changed);
      ClassOfRewritten(s, last, cfg, changed);
      RewrittenSnoc(s, front, last, cfg, changed);
      assert lines == front + [last];
      EntriesSnoc(s, RewriteLines(s, front, cfg, changed), RewriteLine(s, last, cfg, changed));
      UpdatedAdd(s, Entries(s, front).value, s.classify(last), cfg, changed);
    }
  }

  lemma UpdatedAdd(s: Schema, entries: map<Key, string>, line: Line, cfg: Config, changed: set<Key>)
    requires HasKeys(cfg) && AddLine(s, Some(entries), line).Some?
    ensures AddLine(s, Some(Updated(entries, cfg, changed)), RewrittenClass(s, line, cfg, changed)) ==
            Some(Updated(AddLine(s, Some(entries), line).value, cfg, changed))
  {
    if line.Entry? {
      var key := s.keyOf(line.name).value;
      assert Updated(entries[key := line.value], cfg, changed) ==
             Updated(entries, cfg, changed)[key := if key in changed then PrintValue(cfg[key]) else line.value];
    }
  }

  lemma SeenSnoc(s: Schema, front: seq<string>, last: string)
    ensures SeenKeys(s, front + [last]) ==
            SeenKeys(s, front) + (if KeyIn(s, last).Some? then {KeyIn(s, last).value} else {})
  {
    forall line ensures line in front + [last] <==> line in front || line == last {}
  }

  lemma {:induction false} EntriesAreSeen(s: Schema, lines: seq<string>)
    requires Entries(s, lines).Some?
    ensures Entries(s, lines).value.Keys == SeenKeys(s, lines)
  {
    if lines != [] {
      var front, last := lines[..|lines| - 1], lines[|lines| - 1];
      EntriesAreSeen(s, front);
      SeenSnoc(s, front, last);
      assert lines == front + [last];
    }
  }

  lemma EntriesSnoc(s: Schema, lines: seq<string>, line: string)
    ensures Entries(s, lines + [line]) == AddLine(s, Entries(s, lines), s.classify(line))
  {
    assert (lines + [line])[..|lines|] == lines;
  }

  lemma AppendedLine(s: Schema, lines: seq<string>, line: string)
    requires lines != [] && s.classify("") == Skipped
    ensures Entries(s, AppendLine(lines, line)) == AddLine(s, Entries(s, lines), s.classify(line))
  {
    var base := if lines[|lines| - 1] == "" then lines[..|lines| - 1] else lines;
    EntriesSnoc(s, base, line);
    EntriesSnoc(s, base + [line], "");
    assert base + [line] + [""] == AppendLine(lines, line);
  }

  lemma AppendedEntry(s: Schema, lines: seq<string>, key: Key, cfg: Config)
    requires Coherent(s) && Normal(s, cfg) && lines != [] && Entries(s, lines).Some?
    requires key !in Entries(s, lines).value
    ensures Entries(s, AppendLine(lines, EntryLine(s, key, cfg))) == Some(Entries(s, lines).value[key := PrintValue(cfg[key])])
  {
    PrintedValueParses(s, cfg, key);
    AppendedLine(s, lines, EntryLine(s, key, cfg));
  }

  predicate AllDifferent(keys: seq<Key>) {
    forall i, j | 0 <= i < j < |keys| :: keys[i] != keys[j]
  }

  /** `entries` with the printed values of those of the keys that are missing. */
  predicate IsCompleted(entries: map<Key, string>, entries': map<Key, string>, cfg: Config, keys: seq<Key>)
    requires HasKeys(cfg)
  {
    && (forall key <- entries :: key in entries' && entries'[key] == entries[key])
    && (forall key <- keys | key !in entries :: key in entries' && entries'[key] == PrintValue(cfg[key]))
  }

  lemma {:induction false} CompletedEntries(s: Schema, lines: seq<string>, cfg: Config, seen: set<Key>, keys: seq<Key>)
    requires Coherent(s) && Normal(s, cfg) && lines != [] && AllDifferent(keys) && Entries(s, lines).Some?
    requires forall key <- keys :: key in seen <==> key in Entries(s, lines).value
    ensures Entries(s, AppendMissing(s, lines, cfg, seen, keys)).Some?
    ensures IsCompleted(Entries(s, lines).value, Entries(s, AppendMissing(s, lines, cfg, seen, keys)).value, cfg, keys)
    decreases |keys|
  {
    if keys != [] {
      assert forall key :: key in keys <==> key == keys[0] || key in keys[1..];
      assert keys[0] !in keys[1..];
      if keys[0] in seen {
        CompletedEntries(s, lines, cfg, seen, keys[1..]);
      } else {
        AppendedEntry(s, lines, keys[0], cfg);
        CompletedEntries(s, AppendLine(lines, EntryLine(s, keys[0], cfg)), cfg, seen, keys[1..]);
      }
    }
  }

  lemma MergedEntries(s: Schema, lines: seq<string>, cfg: Config, changed: set<Key>)
    requires Coherent(s) && Normal(s, cfg) && lines != [] && Entries(s, lines).Some?
    ensures Entries(s, Merge(s, lines, cfg, changed)).Some?
    ensures forall key: Key ::
              var merged := Entries(s, Merge(s, lines, cfg, changed)).value;
              key in merged &&
              merged[key] == if key in changed || key !in Entries(s, lines).value then PrintValue(cfg[key])
                             else Entries(s, lines).value[key]
  {
    var rewritten := RewriteLines(s, lines, cfg, changed);
    RewrittenEntries(s, lines, cfg, changed);
    EntriesAreSeen(s, lines);
    CompletedEntries(s, rewritten, cfg, SeenKeys(s, lines), KEYS);
    forall key: Key ensures key in KEYS { EveryKeyIsListed(key); }
  }

  lemma MergedParses(s: Schema, lines: seq<string>, cfg: Config, changed: set<Key>)
    requires Coherent(s) && Normal(s, cfg) && lines != []
    requires Entries(s, lines).Some? && AllParse(s, Entries(s, lines).value)
    ensures Entries(s, Merge(s, lines, cfg, changed)).Some?
    ensures AllParse(s, Entries(s, Merge(s, lines, cfg, changed)).value)
  {
    MergedEntries(s, lines, cfg, changed);
    var merged := Entries(s, Merge(s, lines, cfg, changed)).value;
    forall key <- merged ensures ParseValue(s, key, merged[key]).Some? {
      PrintedValueParses(s, cfg, key);
    }
  }

  /** Reading a merged file gives, key by key, the new value where the key changed or
      was absent and the file's own value otherwise. */
  lemma MergeThenParse(s: Schema, lines: seq<string>, cfg: Config, changed: set<Key>, key: Key)
    requires Coherent(s) && Normal(s, cfg) && lines != []
    requires Entries(s, lines).Some? && AllParse(s, Entries(s, lines).value)
    ensures Entries(s, Merge(s, lines, cfg, changed)).Some?
    ensures AllParse(s, Entries(s, Merge(s, lines, cfg, changed)).value)
    ensures ValueIn(s, Entries(s, Merge(s, lines, cfg, changed)).value, key) ==
            if key in changed || key !in Entries(s, lines).value then cfg[key]
            else ValueIn(s, Entries(s, lines).value, key)
  {
    MergedParses(s, lines, cfg, changed);
    MergedEntries(s, lines, cfg, changed);
    PrintedValueParses(s, cfg, key);
  }

  // ------------------------------------------------------------- what stays

  /** Every line but an empty last one stays where it is. */
  predicate Extends(lines: seq<string>, lines': seq<string>) {
    && |lines| <= |lines'|
    && forall i | 0 <= i < |lines| && !(i == |lines| - 1 && lines[i] == "") :: lines'[i] == lines[i]
  }

  lemma {:induction false} AppendExtends(s: Schema, lines: seq<string>, cfg: Config, seen: set<Key>, keys: seq<Key>)
    requires HasKeys(cfg) && lines != []
    ensures Extends(lines, AppendMissing(s, lines, cfg, seen, keys))
    decreases |keys|
  {
    if keys != [] {
      if keys[0] in seen {
        AppendExtends(s, lines, cfg, seen, keys[1..]);
      } else {
        AppendExtends(s, AppendLine(lines, EntryLine(s, keys[0], cfg)), cfg, seen, keys[1..]);
      }
    }
  }

  /** Comments, blank lines, and the lines of the keys that did not change survive a
      merge verbatim and in place. */
  lemma MergeKeepsLines(s: Schema, lines: seq<string>, cfg: Config, changed: set<Key>, i: nat)
    requires Coherent(s) && Normal(s, cfg) && i < |lines|
    requires KeyIn(s, lines[i]).None? || KeyIn(s, lines[i]).value !in changed
    ensures var merged := Merge(s, lines, cfg, changed);
            |lines| <= |merged| && (merged[i] == lines[i] || (i == |lines| - 1 && lines[i] == ""))
  {
    RewrittenLine(s, lines[i], cfg, changed);
    AppendExtends(s, RewriteLines(s, lines, cfg, changed), cfg, SeenKeys(s, lines), KEYS);
  }

  lemma {:induction false} NothingMissing(s: Schema, lines: seq<string>, cfg: Config, seen: set<Key>, keys: seq<Key>)
    requires HasKeys(cfg) && lines != []
    requires forall key: Key :: key in seen
    ensures AppendMissing(s, lines, cfg, seen, keys) == lines
    decreases |keys|
  {
    if keys != [] { NothingMissing(s, lines, cfg, seen, keys[1..]); }
  }

  lemma RewrittenAreSeen(s: Schema, lines: seq<string>, cfg: Config, changed: set<Key>)
    requires Coherent(s) && Normal(s, cfg)
    ensures SeenKeys(s, lines) <= SeenKeys(s, RewriteLines(s, lines, cfg, changed))
  {
    forall key | key in SeenKeys(s, lines) ensures key in SeenKeys(s, RewriteLines(s, lines, cfg, changed)) {
      var i :| 0 <= i < |lines| && KeyIn(s, lines[i]) == Some(key);
      RewrittenLine(s, lines[i], cfg, changed);
      assert RewriteLines(s, lines, cfg, changed)[i] in RewriteLines(s, lines, cfg, changed);
    }
  }

  lemma AppendedIsSeen(s: Schema, lines: seq<string>, key: Key, cfg: Config)
    requires Coherent(s) && Normal(s, cfg) && lines != []
    ensures SeenKeys(s, lines) + {key} <= SeenKeys(s, AppendLine(lines, EntryLine(s, key, cfg)))
  {
    var entry, longer := EntryLine(s, key, cfg), AppendLine(lines, EntryLine(s, key, cfg));
    PrintedValueParses(s, cfg, key);
    assert KeyIn(s, entry) == Some(key) && KeyIn(s, "") == None;
    forall line <- lines | line != "" ensures line in longer {}
    assert entry in longer;
  }

  /** Once the missing entries are appended every key has been seen. */
  lemma {:induction false} MissingAreSeen(s: Schema, lines: seq<string>, cfg: Config, seen: set<Key>, keys: seq<Key>)
    requires Coherent(s) && Normal(s, cfg) && lines != [] && seen <= SeenKeys(s, lines)
    ensures SeenKeys(s, lines) <= SeenKeys(s, AppendMissing(s, lines, cfg, seen, keys))
    ensures forall key <- keys :: key in SeenKeys(s, AppendMissing(s, lines, cfg, seen, keys))
    decreases |keys|
  {
    if keys != [] {
      if keys[0] in seen {
        MissingAreSeen(s, lines, cfg, seen, keys[1..]);
      } else {
        AppendedIsSeen(s, lines, keys[0], cfg);
        MissingAreSeen(s, AppendLine(lines, EntryLine(s, keys[0], cfg)), cfg, seen, keys[1..]);
      }
    }
  }

  /** Merging the same settings again changes nothing, whatever was in the file. */
  lemma MergeTwice(s: Schema, lines: seq<string>, cfg: Config, changed: set<Key>)
    requires Coherent(s) && Normal(s, cfg) && lines != []
    ensures var merged := Merge(s, lines, cfg, changed);
            Merge(s, merged, cfg, changed) == merged
  {
    var merged := Merge(s, lines, cfg, changed);
    RewrittenAreSeen(s, lines, cfg, changed);
    MissingAreSeen(s, RewriteLines(s, lines, cfg, changed), cfg, SeenKeys(s, lines), KEYS);
    forall key: Key ensures key in SeenKeys(s, merged) { EveryKeyIsListed(key); }
    RewrittenAreStable(s, lines, cfg, changed);
    AppendedAreStable(s, RewriteLines(s, lines, cfg, changed), cfg, changed, SeenKeys(s, lines), KEYS);
    StableIsKept(s, merged, cfg, changed);
    NothingMissing(s, merged, cfg, SeenKeys(s, merged), KEYS);
  }

  predicate Stable(s: Schema, line: string, cfg: Config, changed: set<Key>)
    requires HasKeys(cfg)
  {
    RewriteLine(s, line, cfg, changed) == line
  }

  predicate AllStable(s: Schema, lines: seq<string>, cfg: Config, changed: set<Key>)
    requires HasKeys(cfg)
  {
    forall line <- lines :: Stable(s, line, cfg, changed)
  }

  lemma RewrittenAreStable(s: Schema, lines: seq<string>, cfg: Config, changed: set<Key>)
    requires Coherent(s) && Normal(s, cfg)
    ensures AllStable(s, RewriteLines(s, lines, cfg, changed), cfg, changed)
  {
    forall line <- RewriteLines(s, lines, cfg, changed) ensures Stable(s, line, cfg, changed) {
      var i :| 0 <= i < |lines| && RewriteLines(s, lines, cfg, changed)[i] == line;
      RewrittenLine(s, lines[i], cfg, changed);
    }
  }

  lemma AppendedIsStable(s: Schema, lines: seq<string>, line: string, cfg: Config, changed: set<Key>)
    requires HasKeys(cfg) && lines != [] && AllStable(s, lines, cfg, changed)
    requires Stable(s, line, cfg, changed) && Stable(s, "", cfg, changed)
    ensures AllStable(s, AppendLine(lines, line), cfg, changed)
  {
    forall other <- AppendLine(lines, line) ensures other in lines || other == line || other == "" {}
  }

  lemma {:induction false} AppendedAreStable(s: Schema, lines: seq<string>, cfg: Config, changed: set<Key>, seen: set<Key>, keys: seq<Key>)
    requires Coherent(s) && Normal(s, cfg) && lines != [] && AllStable(s, lines, cfg, changed)
    ensures AllStable(s, AppendMissing(s, lines, cfg, seen, keys), cfg, changed)
    decreases |keys|
  {
    if keys != [] {
      if keys[0] in seen {
        AppendedAreStable(s, lines, cfg, changed, seen, keys[1..]);
      } else {
        EntryIsStable(s, keys[0], cfg, changed);
        AppendedIsStable(s, lines, EntryLine(s, keys[0], cfg), cfg, changed);
        AppendedAreStable(s, AppendLine(lines, EntryLine(s, keys[0], cfg)), cfg, changed, seen, keys[1..]);
      }
    }
  }

  lemma StableIsKept(s: Schema, lines: seq<string>, cfg: Config, changed: set<Key>)
    requires HasKeys(cfg) && AllStable(s, lines, cfg, changed)
    ensures RewriteLines(s, lines, cfg, changed) == lines
  {
    forall i | 0 <= i < |lines| ensures RewriteLines(s, lines, cfg, changed)[i] == lines[i] {
      assert lines[i] in lines;
    }
  }

  lemma EntryIsStable(s: Schema, key: Key, cfg: Config, changed: set<Key>)
    requires Coherent(s) && Normal(s, cfg)
    ensures Stable(s, EntryLine(s, key, cfg), cfg, changed)
    ensures Stable(s, "", cfg, changed)
  {
    PrintedValueParses(s, cfg, key);
  }

  // ------------------------------------------------------------- the loops

  /** Entries only grow from line to line, and an error stays. */
  lemma {:induction false} EntriesGrow(s: Schema, lines: seq<string>, n: nat)
    requires n <= |lines|
    ensures Entries(s, lines).Some? ==>
              Entries(s, lines[..n]).Some? &&
              forall key <- Entries(s, lines[..n]).value ::
                key in Entries(s, lines).value && Entries(s, lines).value[key] == Entries(s, lines[..n]).value[key]
    decreases |lines| - n
  {
    if n < |lines| {
      EntriesGrow(s, lines, n + 1);
      assert lines[..n + 1][..n] == lines[..n];
    } else {
      assert lines[..n] == lines;
    }
  }

  lemma EntriesNext(s: Schema, lines: seq<string>, n: nat)
    requires n < |lines|
    ensures Entries(s, lines[..n + 1]) == AddLine(s, Entries(s, lines[..n]), s.classify(lines[n]))
  {
    assert lines[..n + 1][..n] == lines[..n];
  }

  /** A bad line, or a bad value, spoils the whole file. */
  lemma BadLine(s: Schema, lines: seq<string>, n: nat)
    requires n <= |lines|
    requires Entries(s, lines[..n]).None? || !AllParse(s, Entries(s, lines[..n]).value)
    ensures Parse(s, lines) == None
  {
    EntriesGrow(s, lines, n);
  }

  /** parseAppConfig: the settings start as the defaults and are overwritten line by
      line; the first error ends it. */
  method ParseAppConfig(s: Schema, lines: seq<string>) returns (result: Option<Config>)
    ensures result == Parse(s, lines)
  {
    var cfg := DEFAULT;
    var seen: set<Key> := {};
    ghost var entries: map<Key, string> := map[];
    NoEntriesYet(s);
    for i := 0 to |lines|
      invariant Entries(s, lines[..i]) == Some(entries) && seen == entries.Keys
      invariant AllParse(s, entries) && cfg == ValuesOf(s, entries)
    {
      EntriesNext(s, lines, i);
      var line := s.classify(lines[i]);
      if line.Skipped? {
        continue;
      }
      if line.Malformed? || s.keyOf(line.name).None? || s.keyOf(line.name).value in seen {
        BadEntry(s, lines, i, entries);
        return None;
      }
      var key := s.keyOf(line.name).value;
      var value := ParseValue(s, key, line.value);
      if value.None? {
        BadEntry(s, lines, i, entries);
        return None;
      }
      ValuesNext(s, entries, key, line.value);
      seen, cfg, entries := seen + {key}, cfg[key := value.value], entries[key := line.value];
    }
    assert lines[..|lines|] == lines;
    if !s.valid(cfg) {
      return None;
    }
    return Some(cfg);
  }

  lemma NoEntriesYet(s: Schema)
    ensures ValuesOf(s, map[]) == DEFAULT
  {
  }

  /** A line that cannot be read, or whose value cannot. */
  lemma BadEntry(s: Schema, lines: seq<string>, n: nat, entries: map<Key, string>)
    requires n < |lines| && Entries(s, lines[..n]) == Some(entries)
    requires var line := s.classify(lines[n]);
             line.Malformed? ||
             (line.Entry? && (s.keyOf(line.name).None? || s.keyOf(line.name).value in entries ||
                              ParseValue(s, s.keyOf(line.name).value, line.value).None?))
    ensures Parse(s, lines) == None
  {
    EntriesNext(s, lines, n);
    var line := s.classify(lines[n]);
    if line.Entry? && s.keyOf(line.name).Some? && s.keyOf(line.name).value !in entries {
      assert s.keyOf(line.name).value in Entries(s, lines[..n + 1]).value;
    }
    BadLine(s, lines, n + 1);
  }

  lemma ValuesNext(s: Schema, entries: map<Key, string>, key: Key, text: string)
    requires AllParse(s, entries) && ParseValue(s, key, text).Some?
    ensures AllParse(s, entries[key := text])
    ensures ValuesOf(s, entries[key := text]) == ValuesOf(s, entries)[key := ParseValue(s, key, text).value]
  {
    EveryKeyIsListed(key);
  }

  /** mergeAppConfigContent: one pass over the lines, one over the entries. */
  method MergeAppConfigContent(s: Schema, lines: seq<string>, cfg: Config, changed: set<Key>) returns (merged: seq<string>)
    requires HasKeys(cfg) && lines != []
    ensures merged == Merge(s, lines, cfg, changed)
  {
    var seen: set<Key> := {};
    merged := lines;
    for i := 0 to |lines|
      invariant |merged| == |lines| && merged[i..] == lines[i..]
      invariant merged[..i] == RewriteLines(s, lines[..i], cfg, changed)
      invariant seen == SeenKeys(s, lines[..i])
    {
      assert merged[i] == merged[i..][0] == lines[i];
      assert lines[..i + 1] == lines[..i] + [lines[i]];
      SeenSnoc(s, lines[..i], lines[i]);
      var key := KeyIn(s, lines[i]);
      ghost var before := merged[..i];
      if key.Some? {
        seen := seen + {key.value};
        if key.value in changed {
          merged := merged[i := s.withValue(lines[i], PrintValue(cfg[key.value]))];
        }
      }
      assert merged[..i] == before && merged[i] == RewriteLine(s, lines[i], cfg, changed);
    }
    assert lines[..|lines|] == lines && merged[..|lines|] == merged;
    assert KEYS[0..] == KEYS;
    for n := 0 to |KEYS|
      invariant merged != []
      invariant AppendMissing(s, merged, cfg, seen, KEYS[n..]) == Merge(s, lines, cfg, changed)
    {
      assert KEYS[n..][1..] == KEYS[n + 1..];
      if KEYS[n] !in seen {
        merged := AppendLine(merged, EntryLine(s, KEYS[n], cfg));
      }
    }
  }

  // ------------------------------------------------------------- the store

  /** changedAppConfigKeys. */
  function ChangedKeys(current: Config, next: Config): set<Key>
    requires HasKeys(current) && HasKeys(next)
  {
    set key: Key | PrintValue(current[key]) != PrintValue(next[key])
  }

  lemma UpdatedValue(s: Schema, lines: seq<string>, cfg: Config, next: Config, key: Key)
    requires Coherent(s) && Normal(s, cfg) && Normal(s, next) && lines != []
    requires Parse(s, lines) == Some(cfg)
    ensures Entries(s, Merge(s, lines, next, ChangedKeys(cfg, next))).Some?
    ensures AllParse(s, Entries(s, Merge(s, lines, next, ChangedKeys(cfg, next))).value)
    ensures ValueIn(s, Entries(s, Merge(s, lines, next, ChangedKeys(cfg, next))).value, key) == next[key]
  {
    ValuesAre(s, Entries(s, lines).value);
    MergeThenParse(s, lines, next, ChangedKeys(cfg, next), key);
    if key !in ChangedKeys(cfg, next) { PrintIsInjective(s, cfg, next, key); }
  }

  lemma ValuesAreThese(s: Schema, entries: map<Key, string>, cfg: Config)
    requires AllParse(s, entries) && HasKeys(cfg) && forall key: Key :: ValueIn(s, entries, key) == cfg[key]
    ensures ValuesOf(s, entries) == cfg
  {
    ValuesAre(s, entries);
  }

  /** When nobody else has edited the file, what is read after an update is exactly
      the settings that were asked for, and so is every later reload. */
  lemma UpdateTakesEffect(s: Schema, lines: seq<string>, cfg: Config, next: Config)
    requires Coherent(s) && Normal(s, cfg) && Normal(s, next) && lines != []
    requires Parse(s, lines) == Some(cfg)
    ensures Parse(s, Merge(s, lines, next, ChangedKeys(cfg, next))) == Some(next)
  {
    var merged := Entries(s, Merge(s, lines, next, ChangedKeys(cfg, next)));
    UpdatedValue(s, lines, cfg, next, Proxies);
    forall key: Key ensures ValueIn(s, merged.value, key) == next[key] {
      UpdatedValue(s, lines, cfg, next, key);
    }
    ValuesAreThese(s, merged.value, next);
  }

  class AppConfigStore {
    const s: Schema
    var file: Option<seq<string>>
    var cfg: Config

    ghost predicate StoreValid()
      reads this
    {
      Coherent(s) && Normal(s, cfg) && (file.Some? ==> file.value != [])
    }

    constructor (s: Schema, file: Option<seq<string>>, cfg: Config)
      requires Coherent(s) && Normal(s, cfg) && (file.Some? ==> file.value != [])
      ensures StoreValid() && this.s == s && this.file == file && this.cfg == cfg
    {
      this.s, this.file, this.cfg := s, file, cfg;
    }

    /** update: `writable` is whether the file can be written. It succeeds exactly when
        the request is valid, the merged text can be read and, unless it is the text
        that is there, written. A failure changes neither the file nor the settings in
        memory; a success leaves both equal. */
    method Update(request: Config, writable: bool) returns (ok: bool)
      requires StoreValid() && HasKeys(request)
      modifies this
      ensures StoreValid()
      ensures !ok ==> file == old(file) && cfg == old(cfg)
      ensures ok <==> Normalized(s, request).Some? &&
                      var merged := FileAfter(s, old(file), old(cfg), Normalized(s, request).value);
                      Parse(s, merged).Some? && (writable || old(file) == Some(merged))
      ensures ok ==> file == Some(FileAfter(s, old(file), old(cfg), Normalized(s, request).value))
      ensures ok ==> Parse(s, file.value) == Some(cfg)
    {
      var normalized := Normalized(s, request);
      if normalized.None? {
        return false;
      }
      var next := normalized.value;
      var lines := Content(file);
      var merged := MergeAppConfigContent(s, lines, next, ChangedKeys(cfg, next));
      var final := ParseAppConfig(s, merged);
      if final.None? {
        return false;
      }
      ParsedIsNormal(s, merged);
      if merged != lines || file.None? {
        if !writable {
          return false;
        }
        file := Some(merged);
      }
      cfg := final.value;
      return true;
    }

    /** ensureAndReload. It succeeds exactly when the file can be read or is missing
        and, unless nothing is missing in it, can be written. */
    method EnsureAndReload(writable: bool) returns (ok: bool)
      requires StoreValid() && Normal(s, DEFAULT)
      modifies this
      ensures StoreValid()
      ensures !ok ==> file == old(file) && cfg == old(cfg)
      ensures ok <==> if old(file).None? then writable
                      else Parse(s, old(file).value).Some? &&
                           (writable || Merge(s, old(file).value, Parse(s, old(file).value).value, {}) == old(file).value)
      ensures ok && old(file).None? ==> cfg == DEFAULT && file == Some(Merge(s, [""], DEFAULT, {}))
      ensures ok && old(file).Some? ==> Parse(s, old(file).value) == Some(cfg) && file == Some(Merge(s, old(file).value, cfg, {}))
    {
      if file.None? {
        if !writable {
          return false;
        }
        var content := MergeAppConfigContent(s, [""], DEFAULT, {});
        file, cfg := Some(content), DEFAULT;
        return true;
      }
      var parsed := ParseAppConfig(s, file.value);
      if parsed.None? {
        return false;
      }
      ParsedIsNormal(s, file.value);
      var merged := MergeAppConfigContent(s, file.value, parsed.value, {});
      if merged != file.value {
        if !writable {
          return false;
        }
        file := Some(merged);
      }
      cfg := parsed.value;
      return true;
    }
  }

  function Content(file: Option<seq<string>>): (lines: seq<string>)
    requires file.Some? ==> file.value != []
    ensures lines != []
  {
    if file.Some? then file.value else [""]
  }

  /** The file after a successful update. */
  function FileAfter(s: Schema, file: Option<seq<string>>, cfg: Config, next: Config): seq<string>
    requires HasKeys(cfg) && HasKeys(next) && (file.Some? ==> file.value != [])
  {
    Merge(s, Content(file), next, ChangedKeys(cfg, next))
  }

  /** The request with its proxy list normalised, if it is valid. */
  function Normalized(s: Schema, request: Config): (next: Option<Config>)
    requires HasKeys(request)
    ensures Coherent(s) && next.Some? ==> Normal(s, next.value)
  {
    var proxies := s.normalize(request[Proxies].text);
    if proxies.None? || !s.valid(request[Proxies := Words(proxies.value)]) then None
    else Some(request[Proxies := Words(proxies.value)])
  }

  lemma ProxiesAreNormal(s: Schema, entries: map<Key, string>)
    requires Coherent(s) && AllParse(s, entries)
    ensures ValueIn(s, entries, Proxies).Words?
    ensures s.normalize(ValueIn(s, entries, Proxies).text) == Some(ValueIn(s, entries, Proxies).text)
  {
  }

  /** What was read from a file is in normal form. */
  lemma ParsedIsNormal(s: Schema, lines: seq<string>)
    requires Coherent(s)
    ensures Parse(s, lines).Some? ==> Normal(s, Parse(s, lines).value)
  {
    if Parse(s, lines).Some? {
      ValuesAre(s, Entries(s, lines).value);
      ProxiesAreNormal(s, Entries(s, lines).value);
    }
  }
}
