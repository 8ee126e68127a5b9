/** What the settings file means (server/app_config.go): which files are accepted, what
    each setting may be, and what a saved file looks like, with names, numbers and line
    endings written out. */
module SettingsLaws {
  import opened Optional
  import opened UserIds
  import opened Text
  import opened AppConfigKeys
  import opened AppConfigLines
  import opened AppConfig

  // ------------------------------------------------------------- values

  /** A text is a number exactly if it is an optional sign and decimal digits and fits
      in 64 bits; leading zeros and a plus sign are accepted. */
  lemma NumberExactly(sign: string, digits: string, n: nat)
    requires sign in ["", "+", "-"] && digits != "" && forall c <- digits :: '0' <= c <= '9'
    ensures forall i | 0 <= i < |digits| :: IsDigit(digits[i])
    ensures ValueOf(digits) == n ==>
              Atoi(sign + digits) ==
              if sign == "-" then (if n <= 0x8000_0000_0000_0000 then Some(0 - n as int) else None)
              else if n <= 0x7fff_ffff_ffff_ffff then Some(n) else None
  {
    assert forall i | 0 <= i < |digits| :: digits[i] in digits;
    if sign != "" {
      assert (sign + digits)[1..] == digits && (sign + digits)[0] == sign[0];
    } else {
      assert sign + digits == digits && digits[0] in digits;
    }
  }

  lemma NumberOnly(text: string)
    ensures Atoi(text).Some? ==>
            var digits := if text != "" && (text[0] == '-' || text[0] == '+') then text[1..] else text;
            digits != "" && forall c <- digits :: '0' <= c <= '9'
  {
  }

  /** Positional value, so that "ValueOf" is what it is called. */
  lemma ValueIs(front: string, c: char)
    requires (forall i | 0 <= i < |front| :: IsDigit(front[i])) && IsDigit(c)
    ensures forall i | 0 <= i < |front + [c]| :: IsDigit((front + [c])[i])
    ensures ValueOf("") == 0 && ValueOf(front + [c]) == 10 * ValueOf(front) + (c - '0') as nat
  {
    assert (front + [c])[..|front|] == front;
  }

  /** validateAppConfig, with its numbers. */
  lemma ValidExactly(normalize: string -> Option<string>, cfg: Config)
    requires HasKeys(cfg)
    ensures ValidSettings(normalize, cfg) <==>
            && 5 <= cfg[RefreshInterval].n <= 86400
            && (cfg[SleepTimer].n == 0 || 600 <= cfg[SleepTimer].n <= 9223372036)
            && cfg[FirstRun].n in {0, 2}
            && 1 <= cfg[MaxTries].n <= 10000 && cfg[MaxTries].n <= cfg[MaxTriesOverall].n <= 1000000
            && 1 <= cfg[Cooldown].n <= 86400
            && normalize(cfg[Proxies].text) != None
            && 65536 <= cfg[LogSize].n <= 1073741824 && 1 <= cfg[LogNum].n <= 100
            && cfg[LogLevel].text in {"debug", "info", "warn", "error"}
  {
  }

  lemma DefaultExactly()
    ensures HasKeys(DEFAULT)
    ensures DEFAULT[RefreshInterval].n == 60 && DEFAULT[SleepTimer].n == 3600 && DEFAULT[FirstRun].n == 0
    ensures DEFAULT[MaxTries].n == 10 && DEFAULT[MaxTriesOverall].n == 100 && DEFAULT[Cooldown].n == 600
    ensures DEFAULT[Proxies].text == "" && DEFAULT[LogSize].n == 5242880 && DEFAULT[LogNum].n == 5
    ensures DEFAULT[LogLevel].text == "warn"
  {
    forall key: Key ensures key in DEFAULT && DEFAULT[key] == DefaultOf(key) { DefaultHas(key); }
  }

  // ------------------------------------------------------------- lines

  predicate Blank(text: string) {
    TrimSpace(text) == ""
  }

  /** Blank lines and those whose first visible character is a hash are skipped; of
      the others those are malformed that have no equals sign, or nothing visible in
      front of the first; the rest are entries, and name and value are what stands
      before and after that sign, without the white space around. */
  lemma LineExactly(line: string)
    ensures Classify(line) == Skipped <==> Blank(line) || TrimSpace(line)[0] == '#'
    ensures Classify(line) != Skipped && '=' !in line ==> Classify(line) == Malformed
    ensures Classify(line) != Skipped && '=' in line ==>
              var k := IndexOf(line, '=');
              Classify(line) == if Blank(line[..k]) then Malformed else Entry(TrimSpace(line[..k]), TrimSpace(line[k + 1..]))
  {
    var left, right := TrimSplits(line);
    var trimmed, k := TrimSpace(line), IndexOf(line, '=');
    assert line == left + trimmed + right;
    if Classify(line).Entry? {
      var front, back := EntryShape(line);
      assert line[..k] == front && line[k + 1..] == back;
    } else if Classify(line).Malformed? && '=' in line {
      BlankBefore(line, k);
    }
  }

  lemma BlankBefore(line: string, k: nat)
    requires Classify(line).Malformed? && k < |line| && line[k] == '=' && '=' !in line[..k]
    ensures Blank(line[..k])
  {
    var front, back := line[..k], line[k + 1..];
    assert line == front + ['='] + back;
    if !Blank(front) {
      FirstVisible(front, ['='] + back);
      assert front + (['='] + back) == line;
      ClassifyEntry(front, back);
    }
  }

  lemma FirstVisible(front: string, rest: string)
    requires TrimSpace(front) != ""
    ensures TrimSpace(front + rest) != "" && TrimSpace(front + rest)[0] == TrimSpace(front)[0]
  {
    var left, right := TrimSplits(front);
    var visible := TrimSpace(front) + right + rest;
    assert front + rest == left + visible;
    TrimPrefix(left, visible);
    var l, r := TrimSplits(visible);
    HeadOf(l, TrimSpace(visible), r);
  }

  lemma HeadOf(left: string, middle: string, right: string)
    requires left + middle + right != ""
    ensures (left + middle + right)[0] == if left != "" then left[0] else if middle != "" then middle[0] else right[0]
  {
  }

  // ------------------------------------------------------------- which files are accepted

  /** The line is blank, a comment, or the entry of a setting. */
  predicate GoodLine(s: Schema, line: string) {
    s.classify(line) == Skipped || KeyIn(s, line) != None
  }

  /** Every line is good and no two are entries of the same setting. */
  predicate GoodLines(s: Schema, lines: seq<string>) {
    && (forall i | 0 <= i < |lines| :: GoodLine(s, lines[i]))
    && forall i, j | 0 <= i < j < |lines| :: KeyIn(s, lines[i]) == None || KeyIn(s, lines[i]) != KeyIn(s, lines[j])
  }

  lemma GoodSnoc(s: Schema, front: seq<string>, last: string)
    ensures GoodLines(s, front + [last]) <==>
            GoodLines(s, front) && GoodLine(s, last) &&
            forall i | 0 <= i < |front| :: KeyIn(s, front[i]) == None || KeyIn(s, front[i]) != KeyIn(s, last)
  {
    var lines := front + [last];
    assert forall i | 0 <= i < |front| :: lines[i] == front[i];
    assert lines[|front|] == last;
    if GoodLines(s, lines) {
      forall i | 0 <= i < |front| ensures GoodLine(s, front[i]) { assert GoodLine(s, lines[i]); }
      forall i, j | 0 <= i < j < |front|
        ensures KeyIn(s, front[i]) == None || KeyIn(s, front[i]) != KeyIn(s, front[j])
      {
        assert KeyIn(s, lines[i]) == None || KeyIn(s, lines[i]) != KeyIn(s, lines[j]);
      }
      forall i | 0 <= i < |front| ensures KeyIn(s, front[i]) == None || KeyIn(s, front[i]) != KeyIn(s, last) {
        assert KeyIn(s, lines[i]) == None || KeyIn(s, lines[i]) != KeyIn(s, lines[|front|]);
      }
    }
  }

  /** The entries of a file exist exactly if its lines are good, and then each is the
      text in the line of its setting. */
  lemma {:induction false} EntriesExactly(s: Schema, lines: seq<string>)
    ensures Entries(s, lines).Some? <==> GoodLines(s, lines)
    ensures Entries(s, lines).Some? ==>
              (forall key: Key :: key in Entries(s, lines).value <==> exists i | 0 <= i < |lines| :: KeyIn(s, lines[i]) == Some(key)) &&
              (forall i | 0 <= i < |lines| && KeyIn(s, lines[i]).Some? ::
                 KeyIn(s, lines[i]).value in Entries(s, lines).value &&
                 Entries(s, lines).value[KeyIn(s, lines[i]).value] == s.classify(lines[i]).value)
  {
    if lines != [] {
      var front, last := lines[..|lines| - 1], lines[|lines| - 1];
      assert lines == front + [last];
      EntriesExactly(s, front);
      GoodSnoc(s, front, last);
      EntriesNext(s, front, last);
    }
  }

  lemma EntriesNext(s: Schema, front: seq<string>, last: string)
    requires Entries(s, front).Some? <==> GoodLines(s, front)
    requires Entries(s, front).Some? ==>
               (forall key: Key :: key in Entries(s, front).value <==> exists i | 0 <= i < |front| :: KeyIn(s, front[i]) == Some(key)) &&
               (forall i | 0 <= i < |front| && KeyIn(s, front[i]).Some? ::
                  KeyIn(s, front[i]).value in Entries(s, front).value &&
                  Entries(s, front).value[KeyIn(s, front[i]).value] == s.classify(front[i]).value)
    ensures Entries(s, front + [last]).Some? <==>
            GoodLines(s, front) && GoodLine(s, last) &&
            forall i | 0 <= i < |front| :: KeyIn(s, front[i]) == None || KeyIn(s, front[i]) != KeyIn(s, last)
    ensures Entries(s, front + [last]).Some? ==>
              Entries(s, front + [last]).value ==
              if KeyIn(s, last).Some? then Entries(s, front).value[KeyIn(s, last).value := s.classify(last).value]
              else Entries(s, front).value
  {
    EntriesSnoc(s, front, last);
    if Entries(s, front).Some? && KeyIn(s, last).Some? {
      assert KeyIn(s, last).value in Entries(s, front).value <==>
             exists i | 0 <= i < |front| :: KeyIn(s, front[i]) == Some(KeyIn(s, last).value);
    }
  }

  /** A file is accepted as these settings exactly if its lines are good, each setting
      that has a line has the value of that line's text, the others their defaults, and
      the whole is valid. */
  lemma ParseExactly(s: Schema, lines: seq<string>, cfg: Config)
    ensures Parse(s, lines) == Some(cfg) <==>
            && GoodLines(s, lines) && cfg.Keys == (set key: Key | key in KEYS) && s.valid(cfg)
            && (forall i | 0 <= i < |lines| && KeyIn(s, lines[i]).Some? ::
                  var key := KeyIn(s, lines[i]).value;
                  key in cfg && ParseValue(s, key, s.classify(lines[i]).value) == Some(cfg[key]))
            && (forall key: Key | key in cfg && forall i | 0 <= i < |lines| :: KeyIn(s, lines[i]) != Some(key) ::
                  cfg[key] == DefaultOf(key))
  {
    EntriesExactly(s, lines);
    if GoodLines(s, lines) {
      var entries := Entries(s, lines).value;
      ParsedBy(s, lines, entries);
      if AllParse(s, entries) { ValuesMeaning(s, lines, entries, cfg); }
    }
  }

  /** `entries` are the texts of these lines. */
  ghost predicate EntriesOf(s: Schema, lines: seq<string>, entries: map<Key, string>) {
    && (forall key: Key :: key in entries <==> exists i | 0 <= i < |lines| :: KeyIn(s, lines[i]) == Some(key))
    && (forall i | 0 <= i < |lines| && KeyIn(s, lines[i]).Some? ::
          KeyIn(s, lines[i]).value in entries && entries[KeyIn(s, lines[i]).value] == s.classify(lines[i]).value)
  }

  lemma ParsedBy(s: Schema, lines: seq<string>, entries: map<Key, string>)
    requires EntriesOf(s, lines, entries)
    ensures AllParse(s, entries) <==>
            forall i | 0 <= i < |lines| && KeyIn(s, lines[i]).Some? ::
              ParseValue(s, KeyIn(s, lines[i]).value, s.classify(lines[i]).value).Some?
  {
  }

  lemma ValuesMeaning(s: Schema, lines: seq<string>, entries: map<Key, string>, cfg: Config)
    requires EntriesOf(s, lines, entries) && AllParse(s, entries)
    ensures cfg == ValuesOf(s, entries) <==>
            && cfg.Keys == (set key: Key | key in KEYS)
            && (forall i | 0 <= i < |lines| && KeyIn(s, lines[i]).Some? ::
                  var key := KeyIn(s, lines[i]).value;
                  key in cfg && ParseValue(s, key, s.classify(lines[i]).value) == Some(cfg[key]))
            && (forall key: Key | key in cfg && forall i | 0 <= i < |lines| :: KeyIn(s, lines[i]) != Some(key) ::
                  cfg[key] == DefaultOf(key))
  {
    ValuesAre(s, entries);
    var all := set key: Key | key in KEYS;
    forall key: Key ensures key in all { EveryKeyIsListed(key); }
    if cfg.Keys == all && cfg != ValuesOf(s, entries) {
      assert exists key: Key :: cfg[key] != ValueIn(s, entries, key);
    }
  }

  // ------------------------------------------------------------- what is written

  /** What counts as changed are the settings whose values differ. */
  lemma ChangedExactly(s: Schema, cfg: Config, next: Config, key: Key)
    requires Coherent(s) && Normal(s, cfg) && Normal(s, next)
    ensures key in ChangedKeys(cfg, next) <==> cfg[key] != next[key]
  {
    if PrintValue(cfg[key]) == PrintValue(next[key]) { PrintIsInjective(s, cfg, next, key); }
  }

  /** A changed line keeps what precedes its equals sign, and its line ending. */
  lemma RewrittenExactly(front: string, back: string, value: string)
    requires '=' !in front
    ensures WithValue(front + "=" + back, value) ==
            front + "=" + value + (if |back| > 0 && back[|back| - 1] == '\r' then "\r" else "")
  {
    var line := front + "=" + back;
    IndexOfAt(front, '=', back);
    assert line == front + ['='] + back && line[..|front|] == front;
    if back == "" {
      assert line[|line| - 1] == '=';
    } else {
      assert line[|line| - 1] == back[|back| - 1];
    }
    assert front + "=" + (value + "\r") == front + "=" + value + "\r";
    assert front + "=" + value + "" == front + "=" + value;
  }

  /** The new lines of a saved file, in the order of the settings. */
  function NewLines(s: Schema, cfg: Config, seen: set<Key>, keys: seq<Key>): seq<string>
    requires HasKeys(cfg)
  {
    if keys == [] then []
    else (if keys[0] in seen then [] else [EntryLine(s, keys[0], cfg)]) + NewLines(s, cfg, seen, keys[1..])
  }

  /** The lines of a text without the empty one that its last newline leaves. */
  function Ended(lines: seq<string>): seq<string>
    requires lines != []
  {
    if lines[|lines| - 1] == "" then lines[..|lines| - 1] else lines
  }

  lemma {:induction false} AppendedExactly(s: Schema, lines: seq<string>, cfg: Config, seen: set<Key>, keys: seq<Key>)
    requires HasKeys(cfg) && lines != []
    ensures AppendMissing(s, lines, cfg, seen, keys) ==
            if NewLines(s, cfg, seen, keys) == [] then lines else Ended(lines) + NewLines(s, cfg, seen, keys) + [""]
    decreases |keys|
  {
    if keys != [] {
      if keys[0] in seen {
        assert NewLines(s, cfg, seen, keys) == NewLines(s, cfg, seen, keys[1..]);
        AppendedExactly(s, lines, cfg, seen, keys[1..]);
      } else {
        var added := EntryLine(s, keys[0], cfg);
        AppendedExactly(s, AppendLine(lines, added), cfg, seen, keys[1..]);
        AppendedOne(lines, added, NewLines(s, cfg, seen, keys[1..]));
      }
    }
  }

  lemma AppendedOne(lines: seq<string>, added: string, rest: seq<string>)
    requires lines != []
    ensures AppendLine(lines, added) == Ended(lines) + [added] + [""]
    ensures Ended(AppendLine(lines, added)) == Ended(lines) + [added]
    ensures Ended(AppendLine(lines, added)) + rest + [""] == Ended(lines) + ([added] + rest) + [""]
  {
    assert AppendLine(lines, added) == Ended(lines) + [added] + [""];
    assert (Ended(lines) + [added] + [""])[..|Ended(lines)| + 1] == Ended(lines) + [added];
    assert Ended(lines) + [added] + rest == Ended(lines) + ([added] + rest);
  }

  /** A saved file is the old one, with the lines of changed settings rewritten, and
      then NAME=value for each setting that was missing. */
  lemma MergeExactly(normalize: string -> Option<string>, lines: seq<string>, cfg: Config, changed: set<Key>)
    requires HasKeys(cfg) && lines != []
    ensures var s := Settings(normalize);
            var rewritten := RewriteLines(s, lines, cfg, changed);
            var added := NewLines(s, cfg, SeenKeys(s, lines), KEYS);
            Merge(s, lines, cfg, changed) == if added == [] then rewritten else Ended(rewritten) + added + [""]
    ensures forall key: Key :: EntryLine(Settings(normalize), key, cfg) == KeyName(key) + "=" + PrintValue(cfg[key])
  {
    var s := Settings(normalize);
    AppendedExactly(s, RewriteLines(s, lines, cfg, changed), cfg, SeenKeys(s, lines), KEYS);
  }

  /** A level is read without regard to case. */
  lemma LevelExactly(s: Schema, text: string)
    ensures ParseValue(s, LogLevel, text) == Some(Words(ToLower(text)))
    ensures |ToLower(text)| == |text|
    ensures forall i | 0 <= i < |text| ::
              ToLower(text)[i] as int == text[i] as int + if 'A' <= text[i] <= 'Z' then 32 else 0
  {
  }
}
