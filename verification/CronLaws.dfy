/** Which time fields are accepted (server/cron.go, config.sh), by the form they are
    written in, with the ranges of the five fields. */
module CronLaws {
  import opened Optional
  import opened UserIds
  import opened Text
  import opened CronFields
  import opened CronLines
  import opened CronSaved

  lemma DecimalIsPlain(n: nat)
    ensures Numeral(Decimal(n)) && ValueOf(Decimal(n)) == n
    ensures '-' !in Decimal(n) && '/' !in Decimal(n) && ',' !in Decimal(n) && Decimal(n) != "*"
    ensures Atoi(Decimal(n)) == if n <= MAX_INT64 then Some(n as int) else None
  {
    DecimalValue(n);
    NumeralParses(Decimal(n));
  }

  /** A star, a number and a range of numbers, against the range of the field. */
  lemma AtomExactly(a: nat, b: nat, min: nat, max: nat)
    requires max < MAX_INT64
    ensures ValidAtom("*", min, max)
    ensures ValidAtom(Decimal(a), min, max) <==> min <= a <= max
    ensures ValidAtom(Decimal(a) + "-" + Decimal(b), min, max) <==> min <= a <= b <= max
  {
    DecimalIsPlain(a);
    DecimalIsPlain(b);
    IndexOfNone(Decimal(a), '-');
    RangeSplits(Decimal(a), Decimal(b));
  }

  lemma RangeSplits(a: string, b: string)
    requires '-' !in a
    ensures var range := a + "-" + b;
            IndexOf(range, '-') == |a| < |range| && range[..|a|] == a && range[|a| + 1..] == b && range != "*"
  {
    var range := a + "-" + b;
    IndexOfAt(a, '-', b);
    assert range == a + ['-'] + b && range[|a|] == '-';
  }

  /** Behind a slash any step from one on, which is not compared with the range. */
  lemma StepExactly(atom: string, step: nat, min: nat, max: nat)
    requires '/' !in atom && step <= MAX_INT64
    ensures ValidPart(atom, min, max) <==> ValidAtom(atom, min, max)
    ensures ValidPart(atom + "/" + Decimal(step), min, max) <==> step >= 1 && ValidAtom(atom, min, max)
  {
    DecimalIsPlain(step);
    var part := atom + "/" + Decimal(step);
    IndexOfNone(atom, '/');
    IndexOfAt(atom, '/', Decimal(step));
    assert part == atom + ['/'] + Decimal(step);
    assert part[..|atom|] == atom && part[|atom| + 1..] == Decimal(step);
  }

  /** A field is a list of such parts with commas between them, none of them empty. */
  lemma ListExactly(part: string, field: string, min: nat, max: nat)
    requires ',' !in part
    ensures ValidField(part, min, max) <==> part != "" && ValidPart(part, min, max)
    ensures ValidField(part + "," + field, min, max) <==> ValidField(part, min, max) && ValidField(field, min, max)
  {
    IndexOfNone(part, ',');
    assert Split(part, ',') == [part];
    SplitAtFirst(part, ',', field);
    assert part + "," + field == part + [','] + field;
    assert Split(part + "," + field, ',') == [part] + Split(field, ',');
    if field == "" { assert Split(field, ',')[0] == "" && "" in Split(field, ','); }
    EveryPart(part, Split(field, ','), min, max);
    EveryPart(part, [], min, max);
    assert [part] + [] == [part];
    FieldIs(part, min, max);
    FieldIs(field, min, max);
    FieldIs(part + "," + field, min, max);
  }

  lemma FieldIs(field: string, min: nat, max: nat)
    ensures ValidField(field, min, max) <==> field != "" && AllParts(Split(field, ','), min, max)
  {
  }

  ghost predicate AllParts(parts: seq<string>, min: nat, max: nat) {
    forall part <- parts :: part != "" && ValidPart(part, min, max)
  }

  lemma EveryPart(part: string, rest: seq<string>, min: nat, max: nat)
    ensures AllParts([part] + rest, min, max) <==> part != "" && ValidPart(part, min, max) && AllParts(rest, min, max)
  {
    assert part in [part] + rest;
    assert forall other <- rest :: other in [part] + rest;
  }

  /** A request's fields are compared with these ranges, and its action is one of three. */
  lemma RequestExactly(rule: Rule)
    ensures ValidRequest(rule) <==>
            && ValidField(rule.minute, 0, 59) && ValidField(rule.hour, 0, 23) && ValidField(rule.day, 1, 31)
            && ValidField(rule.month, 1, 12) && ValidField(rule.weekday, 0, 7)
            && rule.action in {"warn", "move", "remove"}
  {
  }

  // ------------------------------------------------------------- the two lines of a rule

  lemma MetaLineExactly(rule: Rule)
    ensures MetaLine(rule) == "# scanner-cron-rule id=" + rule.id + " enabled=" + if rule.enabled then "true" else "false"
  {
    var flag := if rule.enabled then "true" else "false";
    assert "# scanner-cron-rule id=" == META_PREFIX + [' '] + "id=";
    assert " enabled=" == [' '] + "enabled=";
    Regroup(META_PREFIX + [' '], "id=" + rule.id, [' '] + "enabled=" + flag);
  }

  lemma Regroup(a: string, b: string, c: string)
    ensures a + b + c == a + (b + c)
  {
  }

  /** The nine words of a rule line in their order, a disabled rule behind a hash; a
      target with a space or a tab in it is quoted. */
  lemma RuleLineExactly(rule: Rule)
    ensures var target := if ' ' in rule.target || '\t' in rule.target then "\"" + rule.target + "\"" else rule.target;
            RuleLine(rule) ==
            (if rule.enabled then "" else "# ") +
            Spaces([rule.minute, rule.hour, rule.day, rule.month, rule.weekday, target, rule.action, rule.userId,
                    if rule.wake then "Y" else "N"])
  {
    var target := Quoted(rule.target);
    assert "\"" + rule.target + "\"" == [QUOTE] + rule.target + [QUOTE];
    LastThree(rule);
    var wake := Wake(rule.wake);
    var five := [rule.weekday, target, rule.action, rule.userId, wake];
    var six := [rule.month, rule.weekday, target, rule.action, rule.userId, wake];
    var seven := [rule.day, rule.month, rule.weekday, target, rule.action, rule.userId, wake];
    var eight := [rule.hour, rule.day, rule.month, rule.weekday, target, rule.action, rule.userId, wake];
    var nine := [rule.minute, rule.hour, rule.day, rule.month, rule.weekday, target, rule.action, rule.userId, wake];
    SpacesOne(rule.weekday, [target, rule.action, rule.userId, wake]);
    assert five == [rule.weekday] + [target, rule.action, rule.userId, wake];
    SpacesOne(rule.month, five);
    assert six == [rule.month] + five;
    SpacesOne(rule.day, six);
    assert seven == [rule.day] + six;
    SpacesOne(rule.hour, seven);
    assert eight == [rule.hour] + seven;
    SpacesOne(rule.minute, eight);
    assert nine == [rule.minute] + eight;
    assert "" + ActiveLine(rule) == ActiveLine(rule);
  }

  lemma LastThree(rule: Rule)
    ensures Spaces([Quoted(rule.target), rule.action, rule.userId, Wake(rule.wake)]) ==
            Quoted(rule.target) + [' '] + Ending(rule)
  {
    var target, wake := Quoted(rule.target), Wake(rule.wake);
    SpacesOne(rule.userId, [wake]);
    assert [rule.userId, wake] == [rule.userId] + [wake];
    SpacesOne(rule.action, [rule.userId, wake]);
    assert [rule.action, rule.userId, wake] == [rule.action] + [rule.userId, wake];
    SpacesOne(target, [rule.action, rule.userId, wake]);
    assert [target, rule.action, rule.userId, wake] == [target] + [rule.action, rule.userId, wake];
  }

  /** Words with one space between them. */
  function Spaces(words: seq<string>): string {
    if words == [] then "" else if |words| == 1 then words[0] else words[0] + " " + Spaces(words[1..])
  }

  lemma SpacesOne(word: string, rest: seq<string>)
    requires rest != []
    ensures Spaces([word] + rest) == word + [' '] + Spaces(rest)
  {
    assert ([word] + rest)[1..] == rest;
  }
}
