/** The two lines of a cron rule: a comment with its id and state, and the rule
    itself, commented out while it is disabled (server/cron.go). Time fields, action
    and owner are single tokens; the target is a path. */
module CronLines {
  import opened Optional
  import opened UserIds
  import opened Text

  datatype Rule = Rule(
    id: string,
    enabled: bool,
    minute: string,
    hour: string,
    day: string,
    month: string,
    weekday: string,
    target: string,
    action: string,
    userId: string,
    wake: bool)

  const RULE_MARK: string := "scanner-cron-rule"
  const META_PREFIX: string := "#" + [' '] + RULE_MARK

  /** cronRuleMetaPrefix. */
  lemma MetaPrefixIs()
    ensures META_PREFIX == "# scanner-cron-rule"
  {
  }

  predicate ValidRuleId(id: string) {
    |id| == 16 && forall i | 0 <= i < |id| :: IsLower(id[i]) || IsDigit(id[i])
  }

  /** What every rule satisfies that was validated or was read from a file. */
  predicate WellFormed(rule: Rule) {
    && ValidRuleId(rule.id) && ValidUserId(rule.userId)
    && IsToken(rule.minute) && IsToken(rule.hour) && IsToken(rule.day) && IsToken(rule.month)
    && IsToken(rule.weekday) && IsToken(rule.action)
  }

  // ------------------------------------------------------------- printing

  function EnabledText(enabled: bool): string {
    if enabled then "true" else "false"
  }

  /** cronMetaLine. */
  function MetaLine(rule: Rule): string {
    META_PREFIX + [' '] + MetaFlags(rule)
  }

  function MetaFlags(rule: Rule): string {
    "id=" + rule.id + [' '] + ("enabled=" + EnabledText(rule.enabled))
  }

  predicate Spaced(target: string) {
    ' ' in target || '\t' in target
  }

  /** quoteCronTarget. */
  function Quoted(target: string): string {
    if Spaced(target) then [QUOTE] + target + [QUOTE] else target
  }

  function Wake(wake: bool): string {
    if wake then "Y" else "N"
  }

  /** What follows the target. */
  function Ending(rule: Rule): string {
    rule.action + [' '] + (rule.userId + [' '] + Wake(rule.wake))
  }

  function ActiveLine(rule: Rule): string {
    rule.minute + [' '] + (rule.hour + [' '] + (rule.day + [' '] + (rule.month + [' '] + (rule.weekday + [' '] +
      (Quoted(rule.target) + [' '] + Ending(rule))))))
  }

  /** cronConfigLine. */
  function RuleLine(rule: Rule): string {
    if rule.enabled then ActiveLine(rule) else "# " + ActiveLine(rule)
  }

  // ------------------------------------------------------------- parsing

  predicate IsMetaLine(line: string) {
    META_PREFIX <= line
  }

  /** The loop of parseCronRuleMeta over the fields after the prefix. */
  function ScanMeta(fields: seq<string>, id: string, enabled: bool): Option<(string, bool)> {
    if fields == [] then Some((id, enabled))
    else
      var k := IndexOf(fields[0], '=');
      if k == |fields[0]| then ScanMeta(fields[1..], id, enabled)
      else
        var key, value := fields[0][..k], fields[0][k + 1..];
        if key == "id" then ScanMeta(fields[1..], value, enabled)
        else if key == "enabled" then
          if value == "true" then ScanMeta(fields[1..], id, true)
          else if value == "false" then ScanMeta(fields[1..], id, false)
          else None
        else ScanMeta(fields[1..], id, enabled)
  }

  /** parseCronRuleMeta. */
  function ParseMeta(line: string): Option<(string, bool)> {
    if |Fields(line)| < 2 then None
    else
      match ScanMeta(Fields(line)[2..], "", true)
      case None => None
      case Some(found) => if ValidRuleId(found.0) then Some(found) else None
  }

  predicate IsBlank(c: char) {
    c == ' ' || c == '\t'
  }

  function TrimBlanks(s: string): string {
    if s != "" && IsBlank(s[0]) then TrimBlanks(s[1..]) else s
  }

  function BlankIndex(s: string): (k: nat)
    ensures k <= |s| && (k < |s| ==> IsBlank(s[k])) && forall i | 0 <= i < k :: !IsBlank(s[i])
  {
    if s == "" || IsBlank(s[0]) then 0 else 1 + BlankIndex(s[1..])
  }

  /** The loop of cronLineTailAfterFields. */
  function AfterFields(tail: string, count: nat): string
    decreases count
  {
    if count == 0 then tail
    else
      var rest := TrimBlanks(tail);
      var k := BlankIndex(rest);
      if k == |rest| then "" else AfterFields(rest[k + 1..], count - 1)
  }

  /** parseCronTargetAndRest. */
  function ParseTarget(tail: string): Option<(string, string)> {
    if tail != "" && tail[0] == QUOTE then
      var rest := tail[1..];
      var end := IndexOf(rest, QUOTE);
      if end == |rest| then None else Some((rest[..end], TrimSpace(rest[end + 1..])))
    else
      var fields := Fields(tail);
      if |fields| < 2 then None
      else
        Some((fields[0], TrimSpace(if fields[0] <= tail then tail[|fields[0]|..] else tail)))
  }

  /** parseCronRuleLine; id and state are filled in from the line before. */
  function ParseRuleLine(text: string, id: string, enabled: bool): Option<Rule> {
    var line := TrimSpace(text);
    var fields := Fields(line);
    if |fields| < 9 then None
    else
      match ParseTarget(TrimSpace(AfterFields(line, 5)))
      case None => None
      case Some(found) => ParseEnding(fields, found.0, Fields(found.1), id, enabled)
  }

  function ParseEnding(fields: seq<string>, target: string, ending: seq<string>, id: string, enabled: bool): Option<Rule>
    requires |fields| >= 9
  {
    if |ending| != 3 || (ending[2] != "Y" && ending[2] != "N") || !ValidUserId(ending[1]) then None
    else
      Some(Rule(id, enabled, fields[0], fields[1], fields[2], fields[3], fields[4], target,
                ending[0], ending[1], ending[2] == "Y"))
  }

  /** uncommentCronRuleLine. */
  function Uncomment(line: string): string {
    var trimmed := TrimSpace(line);
    if trimmed != "" && trimmed[0] == '#' then TrimSpace(trimmed[1..]) else line
  }

  /** What readCronConfigDoc makes of a metadata line and the line after it. */
  function ParsePair(meta: string, line: string): Option<Rule> {
    match ParseMeta(meta)
    case None => None
    case Some(found) => ParseRuleLine(if found.1 then line else Uncomment(line), found.0, found.1)
  }

  // ------------------------------------------------------------- what was printed is read back

  /** The targets that a line can carry: with a space or tab in it the target is
      quoted, so it must not contain a quote; without one it must be a plain token
      that does not look quoted. */
  predicate Quotable(target: string) {
    if Spaced(target) then QUOTE !in target else IsToken(target) && target[0] != QUOTE
  }

  /** The targets that the file can carry: a newline would end the line. */
  predicate Printable(target: string) {
    Quotable(target) && '\n' !in target
  }

  lemma TokensHaveNoBlank(token: string)
    requires IsToken(token)
    ensures forall i | 0 <= i < |token| :: !IsBlank(token[i])
  {
  }

  /** A leading token and one space are one field for the loop over the line. */
  lemma AfterToken(token: string, rest: string, count: nat)
    requires IsToken(token) && count > 0
    ensures AfterFields(token + [' '] + rest, count) == AfterFields(rest, count - 1)
  {
    var s := token + [' '] + rest;
    TokensHaveNoBlank(token);
    assert s[0] == token[0];
    assert s[..|token|] == token && s[|token|] == ' ';
    assert BlankIndex(s) == |token|;
    assert s[|token| + 1..] == rest;
  }

  /** ... and one field for strings.Fields. */
  lemma TokenFirst(token: string, rest: string)
    requires IsToken(token)
    ensures Fields(token + [' '] + rest) == [token] + Fields(rest)
  {
    FieldsConcat(token, ' ', rest);
    FieldsOfToken(token);
  }

  function TargetOn(rule: Rule): string {
    Quoted(rule.target) + [' '] + Ending(rule)
  }

  lemma EndingFields(rule: Rule)
    requires WellFormed(rule)
    ensures Fields(Ending(rule)) == [rule.action, rule.userId, Wake(rule.wake)]
  {
    UserIdIsToken(rule.userId);
    TokenFirst(rule.action, rule.userId + [' '] + Wake(rule.wake));
    TokenFirst(rule.userId, Wake(rule.wake));
    FieldsOfToken(Wake(rule.wake));
  }

  function AfterDay(rule: Rule): string {
    rule.month + [' '] + (rule.weekday + [' '] + TargetOn(rule))
  }

  lemma ActiveLineIs(rule: Rule)
    ensures ActiveLine(rule) == rule.minute + [' '] + (rule.hour + [' '] + (rule.day + [' '] + AfterDay(rule)))
  {
  }

  lemma FiveFirst(a: string, b: string, c: string, d: string, e: string, rest: seq<string>)
    ensures [a] + ([b] + ([c] + ([d] + ([e] + rest)))) == [a, b, c, d, e] + rest
  {
  }

  function LineFieldsOf(rule: Rule): seq<string> {
    [rule.minute, rule.hour, rule.day, rule.month, rule.weekday] +
    (Fields(Quoted(rule.target)) + [rule.action, rule.userId, Wake(rule.wake)])
  }

  lemma LineFields(rule: Rule)
    requires WellFormed(rule)
    ensures Fields(ActiveLine(rule)) == LineFieldsOf(rule)
  {
    var rest := Fields(Quoted(rule.target)) + [rule.action, rule.userId, Wake(rule.wake)];
    TargetFields(rule);
    TokenFirst(rule.weekday, TargetOn(rule));
    TokenFirst(rule.month, rule.weekday + [' '] + TargetOn(rule));
    FrontFields(rule, rest);
    FiveFirst(rule.minute, rule.hour, rule.day, rule.month, rule.weekday, rest);
  }

  lemma TargetFields(rule: Rule)
    requires WellFormed(rule)
    ensures Fields(TargetOn(rule)) == Fields(Quoted(rule.target)) + [rule.action, rule.userId, Wake(rule.wake)]
  {
    FieldsConcat(Quoted(rule.target), ' ', Ending(rule));
    EndingFields(rule);
  }

  lemma FrontFields(rule: Rule, rest: seq<string>)
    requires WellFormed(rule) && Fields(AfterDay(rule)) == [rule.month] + ([rule.weekday] + rest)
    ensures Fields(ActiveLine(rule)) ==
            [rule.minute] + ([rule.hour] + ([rule.day] + ([rule.month] + ([rule.weekday] + rest))))
  {
    ActiveLineIs(rule);
    TokenFirst(rule.minute, rule.hour + [' '] + (rule.day + [' '] + AfterDay(rule)));
    TokenFirst(rule.hour, rule.day + [' '] + AfterDay(rule));
    TokenFirst(rule.day, AfterDay(rule));
  }

  lemma LineTail(rule: Rule)
    requires WellFormed(rule)
    ensures AfterFields(ActiveLine(rule), 5) == TargetOn(rule)
  {
    ActiveLineIs(rule);
    AfterToken(rule.minute, rule.hour + [' '] + (rule.day + [' '] + AfterDay(rule)), 5);
    AfterToken(rule.hour, rule.day + [' '] + AfterDay(rule), 4);
    AfterToken(rule.day, AfterDay(rule), 3);
    AfterToken(rule.month, rule.weekday + [' '] + TargetOn(rule), 2);
    AfterToken(rule.weekday, TargetOn(rule), 1);
  }

  lemma LineTrimmed(rule: Rule)
    requires WellFormed(rule)
    ensures TrimSpace(ActiveLine(rule)) == ActiveLine(rule)
    ensures TrimSpace(Ending(rule)) == Ending(rule)
    ensures TrimSpace([' '] + Ending(rule)) == Ending(rule)
  {
    var line, ending := ActiveLine(rule), Ending(rule);
    assert line[0] == rule.minute[0];
    assert ending[0] == rule.action[0] && ending[|ending| - 1] == Wake(rule.wake)[0];
    assert line[|line| - 1] == ending[|ending| - 1];
    TrimOfTrimmed(line);
    TrimOfTrimmed(ending);
    TrimExact([' '], ending, "");
    assert [' '] + ending + "" == [' '] + ending;
  }

  /** Parsing a printed line comes down to what is made of its target. */
  lemma ParsesByTarget(rule: Rule)
    requires WellFormed(rule) && Fields(Quoted(rule.target)) != []
    ensures ParseRuleLine(ActiveLine(rule), rule.id, rule.enabled) ==
            match ParseTarget(TrimSpace(TargetOn(rule)))
            case None => None
            case Some(found) =>
              ParseEnding(LineFieldsOf(rule), found.0, Fields(found.1), rule.id, rule.enabled)
  {
    LineTrimmed(rule);
    LineFields(rule);
    LineTail(rule);
  }

  lemma ParseQuoted(target: string, rest: string)
    requires QUOTE !in target
    ensures ParseTarget([QUOTE] + target + [QUOTE] + rest) == Some((target, TrimSpace(rest)))
  {
    var tail := [QUOTE] + target + [QUOTE] + rest;
    assert tail[1..] == target + [QUOTE] + rest;
    IndexOfAt(target, QUOTE, rest);
    assert tail[1..][..|target|] == target && tail[1..][|target| + 1..] == rest;
  }

  lemma QuotedTargetParses(rule: Rule)
    requires WellFormed(rule) && Spaced(rule.target) && QUOTE !in rule.target
    ensures ParseTarget(TrimSpace(TargetOn(rule))) == Some((rule.target, Ending(rule)))
  {
    TailTrimmed(rule, TargetOn(rule));
    QuotedTail(rule.target, Ending(rule));
    ParseQuoted(rule.target, [' '] + Ending(rule));
    LineTrimmed(rule);
  }

  lemma QuotedTail(target: string, ending: string)
    ensures [QUOTE] + target + [QUOTE] + [' '] + ending == [QUOTE] + target + [QUOTE] + ([' '] + ending)
  {
  }

  lemma TailTrimmed(rule: Rule, tail: string)
    requires WellFormed(rule) && tail == TargetOn(rule)
    requires Quoted(rule.target) != "" && !IsSpace(Quoted(rule.target)[0])
    ensures TrimSpace(tail) == tail && tail[0] == Quoted(rule.target)[0]
  {
    assert tail[0] == Quoted(rule.target)[0];
    assert tail[|tail| - 1] == Wake(rule.wake)[0];
    TrimOfTrimmed(tail);
  }

  lemma PlainTargetParses(rule: Rule)
    requires WellFormed(rule) && !Spaced(rule.target) && IsToken(rule.target) && rule.target[0] != QUOTE
    ensures ParseTarget(TrimSpace(TargetOn(rule))) == Some((rule.target, Ending(rule)))
  {
    TailTrimmed(rule, TargetOn(rule));
    TargetFields(rule);
    FieldsOfToken(rule.target);
    TargetFirst(rule);
  }

  lemma TargetFirst(rule: Rule)
    requires WellFormed(rule) && !Spaced(rule.target)
    ensures rule.target <= TargetOn(rule) && TrimSpace(TargetOn(rule)[|rule.target|..]) == Ending(rule)
  {
    LineTrimmed(rule);
    assert TargetOn(rule)[|rule.target|..] == [' '] + Ending(rule);
  }

  lemma QuotedHasFields(rule: Rule)
    requires Quotable(rule.target)
    ensures Fields(Quoted(rule.target)) != []
  {
    var q := Quoted(rule.target);
    assert q != "" && !IsSpace(q[0]);
    FieldsOfSpace(q);
  }

  lemma EndingParses(rule: Rule, target: string)
    requires WellFormed(rule) && Fields(Quoted(rule.target)) != []
    ensures ParseEnding(LineFieldsOf(rule), target, Fields(Ending(rule)), rule.id, rule.enabled) ==
            Some(rule.(target := target))
  {
    EndingFields(rule);
    assert LineFieldsOf(rule)[..5] == [rule.minute, rule.hour, rule.day, rule.month, rule.weekday];
  }

  lemma QuotableParses(rule: Rule)
    requires WellFormed(rule) && Quotable(rule.target)
    ensures ParseRuleLine(ActiveLine(rule), rule.id, rule.enabled) == Some(rule)
  {
    QuotedHasFields(rule);
    ParsesByTarget(rule);
    EndingParses(rule, rule.target);
    if Spaced(rule.target) { QuotedTargetParses(rule); } else { PlainTargetParses(rule); }
  }

  lemma ScanId(id: string, rest: seq<string>)
    ensures ScanMeta(["id=" + id] + rest, "", true) == ScanMeta(rest, id, true)
  {
    var field := "id=" + id;
    assert field == "id" + ['='] + id;
    IndexOfAt("id", '=', id);
    assert field[..2] == "id" && field[3..] == id;
    assert (["id=" + id] + rest)[1..] == rest;
  }

  lemma ScanState(id: string, enabled: bool)
    ensures ScanMeta(["enabled=" + EnabledText(enabled)], id, true) == Some((id, enabled))
  {
    var field := "enabled=" + EnabledText(enabled);
    assert field == "enabled" + ['='] + EnabledText(enabled);
    IndexOfAt("enabled", '=', EnabledText(enabled));
    assert field[..7] == "enabled" && field[8..] == EnabledText(enabled);
  }

  lemma TwoTokens(a: string, b: string)
    requires IsToken(a) && IsToken(b)
    ensures Fields(a + [' '] + b) == [a] + [b]
  {
    TokenFirst(a, b);
    FieldsOfToken(b);
  }

  lemma AfterTwoTokens(a: string, b: string, rest: string)
    requires IsToken(a) && IsToken(b)
    ensures Fields(a + [' '] + b + [' '] + rest) == [a] + [b] + Fields(rest)
  {
    FieldsConcat(a + [' '] + b, ' ', rest);
    TwoTokens(a, b);
  }

  function FlagFields(rule: Rule): seq<string> {
    ["id=" + rule.id] + ["enabled=" + EnabledText(rule.enabled)]
  }

  lemma FourTokens(a: string, b: string, c: string, d: string)
    requires IsToken(a) && IsToken(b) && IsToken(c) && IsToken(d)
    ensures Fields(a + [' '] + b + [' '] + (c + [' '] + d)) == [a] + [b] + ([c] + [d])
  {
    TwoTokens(c, d);
    AfterTwoTokens(a, b, c + [' '] + d);
  }

  lemma ScanFlags(rule: Rule)
    ensures ScanMeta(FlagFields(rule), "", true) == Some((rule.id, rule.enabled))
  {
    ScanId(rule.id, ["enabled=" + EnabledText(rule.enabled)]);
    ScanState(rule.id, rule.enabled);
  }

  lemma MetaParses(rule: Rule)
    requires WellFormed(rule)
    ensures IsMetaLine(MetaLine(rule)) && ParseMeta(MetaLine(rule)) == Some((rule.id, rule.enabled))
  {
    IdIsToken(rule.id);
    FourTokens("#", RULE_MARK, "id=" + rule.id, "enabled=" + EnabledText(rule.enabled));
    assert (["#"] + [RULE_MARK] + FlagFields(rule))[2..] == FlagFields(rule);
    ScanFlags(rule);
  }

  lemma IdIsToken(id: string)
    requires ValidRuleId(id)
    ensures IsToken("id=" + id)
  {
    forall i | 0 <= i < |id| ensures !IsSpace(id[i]) {
      assert IsLower(id[i]) || IsDigit(id[i]);
    }
  }

  lemma UncommentPrinted(rule: Rule)
    requires WellFormed(rule)
    ensures Uncomment("# " + ActiveLine(rule)) == ActiveLine(rule)
  {
    ActiveEnds(rule);
    UncommentLine(ActiveLine(rule));
  }

  lemma ActiveEnds(rule: Rule)
    requires WellFormed(rule)
    ensures ActiveLine(rule) != "" && Trimmed(ActiveLine(rule))
  {
    var line := ActiveLine(rule);
    assert line[0] == rule.minute[0];
    assert line[|line| - 1] == Wake(rule.wake)[0];
  }

  lemma UncommentLine(text: string)
    requires text != "" && Trimmed(text)
    ensures Uncomment("# " + text) == text
  {
    var line, rest := "# " + text, [' '] + text + "";
    assert line[|line| - 1] == text[|text| - 1];
    TrimOfTrimmed(line);
    assert line[1..] == rest;
    TrimExact([' '], text, "");
  }

  /** A target that was read is free of quotes, or a plain token. */
  lemma ParsedTarget(tail: string)
    ensures ParseTarget(tail).Some? && tail != "" && tail[0] == QUOTE ==> QUOTE !in ParseTarget(tail).value.0
    ensures ParseTarget(tail).Some? && !(tail != "" && tail[0] == QUOTE) ==> IsToken(ParseTarget(tail).value.0)
  {
    FieldsAreTokens(tail);
  }

  lemma AllSpaceConcat(a: string, b: string)
    requires AllSpace(a) && AllSpace(b)
    ensures AllSpace(a + b)
  {
  }

  lemma TrimmedEmpty(s: string)
    ensures TrimSpace(s) == "" ==> AllSpace(s)
  {
    var left, right := TrimSplits(s);
    if TrimSpace(s) == "" {
      assert s == left + right;
      AllSpaceConcat(left, right);
    }
  }

  /** The first character of a trimmed text is in front of any character that is not
      white space. */
  lemma FirstTrimmed(target: string, rest: string)
    requires !AllSpace(target)
    ensures TrimSpace(target + rest) != "" && TrimSpace(target + rest)[0] in target
  {
    var s := target + rest;
    var left, right := TrimSplits(s);
    var j :| 0 <= j < |target| && !IsSpace(target[j]);
    assert s[j] == target[j];
    assert forall i | 0 <= i < |left| :: s[i] == left[i];
    TrimmedEmpty(s);
    assert TrimSpace(s)[0] == s[|left|] == target[|left|];
  }

  lemma UnquotableFails(rule: Rule)
    requires WellFormed(rule) && !Quotable(rule.target)
    ensures ParseRuleLine(ActiveLine(rule), rule.id, rule.enabled) != Some(rule)
  {
    if Fields(Quoted(rule.target)) == [] {
      LineTrimmed(rule);
      LineFields(rule);
    } else {
      ParsesByTarget(rule);
      FieldsOfSpace(Quoted(rule.target));
      FirstTrimmed(Quoted(rule.target), [' '] + Ending(rule));
      assert TargetOn(rule) == Quoted(rule.target) + ([' '] + Ending(rule));
      var tail := TrimSpace(TargetOn(rule));
      ParsedTarget(tail);
      if Spaced(rule.target) {
        TailTrimmed(rule, TargetOn(rule));
      } else if IsToken(rule.target) {
        TailTrimmed(rule, TargetOn(rule));
      }
    }
  }

  /** Texts of one line, put together with a space. */
  lemma OneLine(a: string, b: string)
    requires '\n' !in a && '\n' !in b
    ensures '\n' !in a + [' '] + b
  {
  }

  lemma TokenFirstIsOneLine(token: string, rest: string)
    requires IsToken(token) && '\n' !in rest
    ensures '\n' !in token + [' '] + rest
  {
    forall i | 0 <= i < |token| ensures token[i] != '\n' {}
    OneLine(token, rest);
  }

  lemma ActiveIsOneLine(rule: Rule)
    requires WellFormed(rule) && '\n' !in rule.target
    ensures '\n' !in ActiveLine(rule)
  {
    UserIdIsToken(rule.userId);
    TokenFirstIsOneLine(rule.userId, Wake(rule.wake));
    TokenFirstIsOneLine(rule.action, rule.userId + [' '] + Wake(rule.wake));
    OneLine(Quoted(rule.target), Ending(rule));
    ActiveLineIs(rule);
    TokenFirstIsOneLine(rule.weekday, TargetOn(rule));
    TokenFirstIsOneLine(rule.month, rule.weekday + [' '] + TargetOn(rule));
    TokenFirstIsOneLine(rule.day, AfterDay(rule));
    TokenFirstIsOneLine(rule.hour, rule.day + [' '] + AfterDay(rule));
    TokenFirstIsOneLine(rule.minute, rule.hour + [' '] + (rule.day + [' '] + AfterDay(rule)));
  }

  lemma PrintedIsOneLine(rule: Rule)
    requires WellFormed(rule) && '\n' !in rule.target
    ensures '\n' !in RuleLine(rule)
  {
    ActiveIsOneLine(rule);
  }

  lemma MetaIsOneLine(rule: Rule)
    requires WellFormed(rule)
    ensures '\n' !in MetaLine(rule)
  {
    IdIsToken(rule.id);
    TokenFirstIsOneLine("id=" + rule.id, "enabled=" + EnabledText(rule.enabled));
    OneLine(META_PREFIX, MetaFlags(rule));
  }

  lemma TargetIsPrinted(rule: Rule)
    requires '\n' in rule.target
    ensures '\n' in RuleLine(rule)
  {
    var front := rule.minute + [' '] + (rule.hour + [' '] + (rule.day + [' '] + (rule.month + [' '] + (rule.weekday + [' ']))));
    assert ActiveLine(rule) == front + (Quoted(rule.target) + [' '] + Ending(rule));
  }

  /** The two lines of a printed rule are read back as that rule, enabled or
      disabled, if and only if the target is quotable; they are two lines of a file if
      and only if it contains no newline. */
  lemma PrintThenParse(rule: Rule)
    requires WellFormed(rule)
    ensures IsMetaLine(MetaLine(rule)) && '\n' !in MetaLine(rule)
    ensures ParsePair(MetaLine(rule), RuleLine(rule)) == Some(rule) <==> Quotable(rule.target)
    ensures '\n' !in RuleLine(rule) <==> '\n' !in rule.target
  {
    MetaParses(rule);
    MetaIsOneLine(rule);
    if '\n' in rule.target { TargetIsPrinted(rule); } else { PrintedIsOneLine(rule); }
    if !rule.enabled { UncommentPrinted(rule); }
    if Quotable(rule.target) { QuotableParses(rule); } else { UnquotableFails(rule); }
  }

  /** The targets the editor is given: absolute, without a double quote, and without
      white space other than spaces and tabs. */
  lemma AbsoluteTargetsArePrintable(target: string)
    requires target != "" && target[0] == '/' && QUOTE !in target
    requires forall i | 0 <= i < |target| && IsSpace(target[i]) :: IsBlank(target[i])
    ensures Printable(target)
  {
    if !Spaced(target) {
      forall i | 0 <= i < |target| ensures !IsSpace(target[i]) {
        assert target[i] in target;
      }
    }
  }

  /** A rule that was read is well formed. */
  lemma ParsedIsWellFormed(meta: string, line: string)
    requires ParsePair(meta, line).Some?
    ensures WellFormed(ParsePair(meta, line).value)
  {
    var id, enabled := ParseMeta(meta).value.0, ParseMeta(meta).value.1;
    var text := TrimSpace(if enabled then line else Uncomment(line));
    FieldsAreTokens(text);
    var found := ParseTarget(TrimSpace(AfterFields(text, 5))).value;
    FieldsAreTokens(found.1);
    assert Fields(text)[0] in Fields(text) && Fields(found.1)[0] in Fields(found.1);
  }

  // ------------------------------------------------------------- lines of a file

  lemma TrimOfSingle(s: string)
    requires '\n' !in s
    ensures '\n' !in TrimSpace(s)
  {
    var left, right := TrimSplits(s);
  }

  lemma {:induction false} BlanksOfSingle(s: string)
    requires '\n' !in s
    ensures '\n' !in TrimBlanks(s)
  {
    if s != "" && IsBlank(s[0]) { BlanksOfSingle(s[1..]); }
  }

  lemma {:induction false} TailOfSingle(tail: string, count: nat)
    requires '\n' !in tail
    ensures '\n' !in AfterFields(tail, count)
    decreases count
  {
    BlanksOfSingle(tail);
    var rest := TrimBlanks(tail);
    if count > 0 && BlankIndex(rest) < |rest| { TailOfSingle(rest[BlankIndex(rest) + 1..], count - 1); }
  }

  /** What is read from a line has no newline in its target. */
  lemma ParsedIsSingle(meta: string, line: string)
    requires ParsePair(meta, line).Some? && '\n' !in line
    ensures '\n' !in ParsePair(meta, line).value.target
  {
    TrimOfSingle(line);
    if TrimSpace(line) != "" { TrimOfSingle(TrimSpace(line)[1..]); }
    var text := TrimSpace(if ParseMeta(meta).value.1 then line else Uncomment(line));
    TrimOfSingle(if ParseMeta(meta).value.1 then line else Uncomment(line));
    TailOfSingle(text, 5);
    var tail := TrimSpace(AfterFields(text, 5));
    TrimOfSingle(AfterFields(text, 5));
    if tail != "" && tail[0] == QUOTE {
      assert ParseTarget(tail).value.0 == tail[1..][..IndexOf(tail[1..], QUOTE)];
    } else {
      FieldsAreTokens(tail);
      assert Fields(tail)[0] in Fields(tail);
    }
  }

  /** A line as it comes back from a file. */
  function WithoutCr(line: string): string {
    if EndsInCr(line) then line[..|line| - 1] else line
  }

  lemma CrIsTrimmed(line: string)
    ensures TrimSpace(WithoutCr(line)) == TrimSpace(line)
  {
    if EndsInCr(line) {
      var left, right := TrimSplits(line);
      var trimmed, n := TrimSpace(line), |line| - 1;
      if trimmed == "" {
        assert line == left + right;
        AllSpaceConcat(left, right);
        assert line[..n] == line[..n] + "" + "";
        TrimExact(line[..n], "", "");
      } else {
        assert line[|left| + |trimmed| - 1] == trimmed[|trimmed| - 1];
        assert line[..n] == left + trimmed + right[..|right| - 1];
        TrimExact(left, trimmed, right[..|right| - 1]);
      }
    }
  }

  lemma CrIsNoField(line: string)
    ensures Fields(WithoutCr(line)) == Fields(line)
  {
    if EndsInCr(line) {
      var front := line[..|line| - 1];
      FieldsConcat(front, '\r', "");
      assert front + ['\r'] + "" == line;
      assert Fields(front) + Fields("") == Fields(front);
    }
  }

  /** A carriage return at the end of a line makes no difference to what is read. */
  lemma CrIsIgnored(meta: string, line: string)
    ensures IsMetaLine(WithoutCr(meta)) <==> IsMetaLine(meta)
    ensures ParsePair(WithoutCr(meta), WithoutCr(line)) == ParsePair(meta, line)
  {
    MetaPrefixEnds();
    CrIsNoField(meta);
    CrIsTrimmed(line);
    assert ParseMeta(WithoutCr(meta)) == ParseMeta(meta);
    var trimmed := TrimSpace(line);
    if ParseMeta(meta).Some? && !ParseMeta(meta).value.1 && trimmed != "" && trimmed[0] == '#' {
      assert Uncomment(WithoutCr(line)) == Uncomment(line);
    }
  }

  lemma MetaPrefixEnds()
    ensures META_PREFIX != "" && META_PREFIX[|META_PREFIX| - 1] != '\r'
  {
    assert META_PREFIX[|META_PREFIX| - 1] == RULE_MARK[|RULE_MARK| - 1];
  }
}
