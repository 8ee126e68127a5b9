/** The lines of the settings file: blank lines, comments and KEY=VALUE entries
    (server/app_config.go, parseAppConfig and mergeAppConfigContent). */
module AppConfigLines {
  import opened Optional
  import opened Text
  import opened AppConfigKeys

  function Classify(line: string): Line {
    ClassifyTrimmed(TrimSpace(line))
  }

  function ClassifyTrimmed(trimmed: string): Line {
    var k := IndexOf(trimmed, '=');
    if trimmed == "" || trimmed[0] == '#' then Skipped
    else if k == |trimmed| || TrimSpace(trimmed[..k]) == "" then Malformed
    else Entry(TrimSpace(trimmed[..k]), TrimSpace(trimmed[k + 1..]))
  }

  function WithValue(line: string, value: string): string
  {
    line[..IndexOf(line, '=')] + ['='] + (if EndsInCr(line) then value + "\r" else value)
  }

  lemma SpaceHasNoEquals(s: string)
    requires AllSpace(s)
    ensures '=' !in s
  {
    forall i | 0 <= i < |s| ensures s[i] != '=' { assert IsSpace(s[i]); }
  }

  /** White space in front of a text is trimmed off. */
  lemma TrimPrefix(left: string, text: string)
    requires AllSpace(left)
    ensures TrimSpace(left + text) == TrimSpace(text)
  {
    var l, r := TrimSplits(text);
    assert left + text == (left + l) + TrimSpace(text) + r;
    TrimExact(left + l, TrimSpace(text), r);
  }

  lemma TrimSuffix(text: string, right: string)
    requires AllSpace(right)
    ensures TrimSpace(text + right) == TrimSpace(text)
  {
    var l, r := TrimSplits(text);
    assert text + right == l + TrimSpace(text) + (r + right);
    TrimExact(l, TrimSpace(text), r + right);
  }

  /** What an entry line is made of. */
  lemma EntryShape(line: string) returns (front: string, back: string)
    requires Classify(line).Entry?
    ensures line == front + ['='] + back && '=' !in front
    ensures TrimSpace(front) == Classify(line).name && TrimSpace(front) != "" && TrimSpace(front)[0] != '#'
    ensures TrimSpace(back) == Classify(line).value
    ensures IndexOf(line, '=') == |front|
  {
    var left, right := TrimSplits(line);
    var trimmed := TrimSpace(line);
    var k := IndexOf(trimmed, '=');
    front, back := left + trimmed[..k], trimmed[k + 1..] + right;
    assert line == front + ['='] + back;
    SpaceHasNoEquals(left);
    IndexOfAt(front, '=', back);
    TrimPrefix(left, trimmed[..k]);
    TrimSuffix(trimmed[k + 1..], right);
    NameStarts(trimmed[..k], trimmed[0]);
  }

  lemma NameStarts(front: string, first: char)
    requires TrimSpace(front) != "" && front[..1] == [first] && !IsSpace(first)
    ensures TrimSpace(front)[0] == first
  {
    var l, r := TrimSplits(front);
    assert front[0] == first;
    assert IsSpace(front[0]) || l == "";
  }

  /** A line with a name before its first equals sign is an entry. */
  lemma ClassifyEntry(front: string, back: string)
    requires '=' !in front && TrimSpace(front) != "" && TrimSpace(front)[0] != '#'
    ensures Classify(front + ['='] + back) == Entry(TrimSpace(front), TrimSpace(back))
  {
    var left, right := TrimSplits(front);
    var l, r := TrimSplits(back);
    var name, value := TrimSpace(front), TrimSpace(back);
    var line := front + ['='] + back;
    SpaceHasNoEquals(right);
    if value == "" {
      var body := name + right + ['='];
      assert line == left + body + (l + r);
      TrimExact(left, body, l + r);
      ClassifyBody(name, right, "");
      assert body == name + right + ['='] + "";
      TrimOfTrimmed("");
    } else {
      var body := name + right + ['='] + (l + value);
      assert line == left + body + r;
      assert body[|body| - 1] == value[|value| - 1];
      TrimExact(left, body, r);
      ClassifyBody(name, right, l + value);
      TrimPrefix(l, value);
      TrimOfTrimmed(value);
    }
  }

  lemma ClassifyBody(name: string, right: string, tail: string)
    requires name != "" && Trimmed(name) && name[0] != '#' && '=' !in name && '=' !in right && AllSpace(right)
    ensures ClassifyTrimmed(name + right + ['='] + tail) == Entry(name, TrimSpace(tail))
  {
    var trimmed := name + right + ['='] + tail;
    IndexOfAt(name + right, '=', tail);
    assert trimmed[..|name + right|] == name + right && trimmed[|name + right| + 1..] == tail;
    TrimSuffix(name, right);
    TrimOfTrimmed(name);
    assert trimmed[0] == name[0];
  }

  /** A rewritten line is an entry of the same key with the new value, and rewriting
      it again changes nothing. */
  lemma RewrittenEntry(line: string, value: string)
    requires Classify(line).Entry? && Trimmed(value)
    ensures Classify(WithValue(line, value)) == Entry(Classify(line).name, value)
    ensures WithValue(WithValue(line, value), value) == WithValue(line, value)
  {
    var front, back := EntryShape(line);
    var tail := if EndsInCr(line) then value + "\r" else value;
    assert line[..|front|] == front;
    assert WithValue(line, value) == front + ['='] + tail;
    ClassifyEntry(front, tail);
    TrimOfTrimmed(value);
    TrimSuffix(value, "\r");
    RewrittenAgain(front, value, tail);
  }

  /** What was rewritten keeps its end. */
  lemma RewrittenAgain(front: string, value: string, tail: string)
    requires '=' !in front && Trimmed(value) && (tail == value || tail == value + "\r")
    ensures WithValue(front + ['='] + tail, value) == front + ['='] + tail
  {
    var line := front + ['='] + tail;
    IndexOfAt(front, '=', tail);
    assert line[..|front|] == front;
    TailEnd(front, value, tail);
  }

  lemma TailEnd(front: string, value: string, tail: string)
    requires Trimmed(value) && (tail == value || tail == value + "\r")
    ensures EndsInCr(front + ['='] + tail) <==> tail == value + "\r"
  {
    var line := front + ['='] + tail;
    if tail == "" {
      assert line[|line| - 1] == '=';
    } else {
      assert line[|line| - 1] == tail[|tail| - 1];
    }
  }

  lemma NewEntry(name: string, value: string)
    requires PlainName(name) && Trimmed(value)
    ensures Classify(name + ['='] + value) == Entry(name, value)
    ensures WithValue(name + ['='] + value, value) == name + ['='] + value
  {
    TrimOfTrimmed(name);
    TrimOfTrimmed(value);
    ClassifyEntry(name, value);
    var line := name + ['='] + value;
    IndexOfAt(name, '=', value);
    assert line[..|name|] == name;
    TailEnd(name, value, value);
  }

  lemma EmptyIsSkipped()
    ensures Classify("") == Skipped
  {
    TrimOfTrimmed("");
  }

  /** The spelling of this program, with any sound normaliser. */
  function Settings(normalize: string -> Option<string>): Schema {
    Schema(
      SETTING_NAMES, name => FindKey(SETTING_NAMES, name, |KEYS|), normalize,
      line => Classify(line), (line, value) => WithValue(line, value), (key, value) => KeyName(key) + ['='] + value,
      cfg => ValidSettings(normalize, cfg))
  }

  lemma SettingsAreCoherent(normalize: string -> Option<string>)
    requires Sound(normalize)
    ensures Coherent(Settings(normalize))
  {
    EmptyIsSkipped();
    forall cfg: Config | ValidSettings(normalize, cfg) ensures Storable(cfg) { ValidIsStorable(normalize, cfg); }
    forall key: Key ensures FindKey(SETTING_NAMES, SETTING_NAMES(key), |KEYS|) == Some(key) { NameIsFound(key); }
    forall key: Key, value: string | Trimmed(value)
      ensures Classify(KeyName(key) + ['='] + value) == Entry(KeyName(key), value)
      ensures WithValue(KeyName(key) + ['='] + value, value) == KeyName(key) + ['='] + value
    {
      PlainNames(key);
      NewEntry(KeyName(key), value);
    }
    forall line: string, value: string | Classify(line).Entry? && Trimmed(value)
      ensures Classify(WithValue(line, value)) == Entry(Classify(line).name, value)
      ensures WithValue(WithValue(line, value), value) == WithValue(line, value)
    {
      RewrittenEntry(line, value);
    }
  }

  lemma DefaultHas(key: Key)
    ensures key in DEFAULT && DEFAULT[key] == DefaultOf(key)
  {
    EveryKeyIsListed(key);
  }

  lemma DefaultsAreValid(normalize: string -> Option<string>, cfg: Config)
    requires Sound(normalize) && forall key: Key :: key in cfg && cfg[key] == DefaultOf(key)
    ensures ValidSettings(normalize, cfg) && normalize(cfg[Proxies].text) == Some(cfg[Proxies].text)
  {
  }

  /** The program's defaults are settings it can store. */
  lemma DefaultIsNormal(normalize: string -> Option<string>)
    requires Sound(normalize)
    ensures Normal(Settings(normalize), DEFAULT)
  {
    forall key: Key ensures key in DEFAULT && DEFAULT[key] == DefaultOf(key) { DefaultHas(key); }
    DefaultsAreValid(normalize, DEFAULT);
    ValidIsStorable(normalize, DEFAULT);
  }
}
