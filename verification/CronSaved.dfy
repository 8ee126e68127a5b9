/** The cron document through its file (server/cron.go): what is read again after
    edited lines were saved. */
module CronSaved {
  import opened Optional
  import opened Text
  import opened UserIds
  import opened CronFields
  import opened CronLines
  import opened CronDocument
  import opened CronFile

  /** What the edits need of the reader: printed rules are told from other lines and
      are read back exactly when their targets are quotable; what is read is well
      formed and comes from single lines; a last carriage return does not matter. */
  ghost predicate Faithful(r: Reader) {
    && (forall rule: Rule | WellFormed(rule) :: r.isMeta(MetaLine(rule)))
    && (forall rule: Rule | WellFormed(rule) ::
          r.pair(MetaLine(rule), RuleLine(rule)) == Some(rule) <==> Quotable(rule.target))
    && (forall meta, line | r.pair(meta, line).Some? ::
          WellFormed(r.pair(meta, line).value) && ('\n' !in line ==> '\n' !in r.pair(meta, line).value.target))
    && !r.isMeta("") && IgnoresCr(r)
  }

  ghost predicate IgnoresCr(r: Reader) {
    && (forall line: string :: r.isMeta(WithoutCr(line)) == r.isMeta(line))
    && (forall meta: string, line: string :: r.pair(WithoutCr(meta), WithoutCr(line)) == r.pair(meta, line))
  }

  lemma CronIsFaithful()
    ensures Faithful(CRON)
  {
    forall rule: Rule | WellFormed(rule)
      ensures CRON.isMeta(MetaLine(rule))
      ensures CRON.pair(MetaLine(rule), RuleLine(rule)) == Some(rule) <==> Quotable(rule.target)
    {
      PrintThenParse(rule);
    }
    forall meta, line | CRON.pair(meta, line).Some?
      ensures WellFormed(CRON.pair(meta, line).value)
      ensures '\n' !in line ==> '\n' !in CRON.pair(meta, line).value.target
    {
      ParsedIsWellFormed(meta, line);
      if '\n' !in line { ParsedIsSingle(meta, line); }
    }
    CronIgnoresCr();
  }

  lemma CronIgnoresCr()
    ensures IgnoresCr(CRON)
  {
    forall line: string ensures CRON.isMeta(WithoutCr(line)) == CRON.isMeta(line) {
      CrIsIgnored(line, line);
    }
    forall meta: string, line: string ensures ParsePair(WithoutCr(meta), WithoutCr(line)) == ParsePair(meta, line) {
      CrIsIgnored(meta, line);
    }
  }

  /** The blocks that the next reader of the file finds. */
  ghost function Reread(r: Reader, lines: seq<string>): Option<seq<Block>> {
    ParseFrom(r, ReadLines(SaveText(lines)), 0)
  }

  lemma {:induction false} ParseWithoutCr(r: Reader, lines: seq<string>, at: nat)
    requires IgnoresCr(r)
    ensures ParseFrom(r, AllWithoutCr(lines), at) == ParseFrom(r, lines, at)
    decreases |lines|
  {
    if lines != [] {
      var read := AllWithoutCr(lines);
      assert read[0] == WithoutCr(lines[0]) && read[1..] == AllWithoutCr(lines[1..]);
      if !r.isMeta(lines[0]) {
        ParseWithoutCr(r, lines[1..], at + 1);
      } else if |lines| >= 2 {
        assert lines[1..][1..] == lines[2..];
        assert read[1] == WithoutCr(lines[1]) && read[2..] == AllWithoutCr(lines[2..]);
        ParseWithoutCr(r, lines[2..], at + 2);
      } else {
        assert lines[1..] == [];
      }
    }
  }

  /** Lines without a newline in them mean the same through the file. */
  lemma SavedMeansTheSame(r: Reader, lines: seq<string>)
    requires Faithful(r) && SingleLines(lines)
    ensures Reread(r, lines) == ParseFrom(r, lines, 0)
  {
    ReadOfSaved(lines);
    if lines == [""] {
      EmptyLine(r);
    } else {
      ParseWithoutCr(r, lines, 0);
    }
  }

  /** The rules that the next reader of the file finds, without line numbers. */
  ghost function RereadRules(r: Reader, lines: seq<string>): Option<seq<Rule>> {
    RulesIn(r, ReadLines(SaveText(lines)))
  }

  lemma SavedRulesAreTheSame(r: Reader, lines: seq<string>)
    requires Faithful(r) && SingleLines(lines)
    ensures RereadRules(r, lines) == RulesIn(r, lines)
  {
    SavedMeansTheSame(r, lines);
    RulesAreOfBlocks(r, lines, 0);
    RulesAreOfBlocks(r, ReadLines(SaveText(lines)), 0);
  }

  lemma EmptyLine(r: Reader)
    requires Faithful(r)
    ensures ParseFrom(r, [""], 0) == Some([])
  {
    assert [""][1..] == [];
  }

  /** Whatever the lines were, no target that is read again contains a newline. */
  lemma RereadTargetsAreSingle(r: Reader, lines: seq<string>, blocks: seq<Block>, k: nat)
    requires Faithful(r) && Reread(r, lines) == Some(blocks) && k < |blocks|
    ensures '\n' !in blocks[k].rule.target
  {
    ReadLinesAreSingle(SaveText(lines));
    ParsedTargetsAreSingle(r, ReadLines(SaveText(lines)), blocks, k);
  }

  lemma ParsedTargetsAreSingle(r: Reader, lines: seq<string>, blocks: seq<Block>, k: nat)
    requires Faithful(r) && SingleLines(lines) && ParseFrom(r, lines, 0) == Some(blocks) && k < |blocks|
    ensures WellFormed(blocks[k].rule) && blocks[k].metaIndex + 1 < |lines|
    ensures '\n' !in blocks[k].rule.target
  {
    BlockSplits(r, lines, 0, blocks, k);
    assert lines[blocks[k].metaIndex + 1] in lines;
  }

  // ------------------------------------------------------------- requests

  /** validateCronRuleFields. */
  predicate ValidRequest(rule: Rule) {
    && ValidField(rule.minute, 0, 59) && ValidField(rule.hour, 0, 23) && ValidField(rule.day, 1, 31)
    && ValidField(rule.month, 1, 12) && ValidField(rule.weekday, 0, 7)
    && (rule.action == "warn" || rule.action == "move" || rule.action == "remove")
  }

  /** A request that was checked is well formed. */
  lemma ValidatedIsWellFormed(rule: Rule)
    requires ValidRequest(rule) && ValidRuleId(rule.id) && ValidUserId(rule.userId)
    ensures WellFormed(rule)
  {
    AcceptedFieldsAreTokens(rule.minute, 0, 59);
    AcceptedFieldsAreTokens(rule.hour, 0, 23);
    AcceptedFieldsAreTokens(rule.day, 1, 31);
    AcceptedFieldsAreTokens(rule.month, 1, 12);
    AcceptedFieldsAreTokens(rule.weekday, 0, 7);
  }

  // ------------------------------------------------------------- edits

  lemma PrintedIsSingle(rule: Rule)
    requires WellFormed(rule) && '\n' !in rule.target
    ensures '\n' !in MetaLine(rule) && '\n' !in RuleLine(rule)
  {
    PrintThenParse(rule);
  }

  lemma RewrittenIsSingle(lines: seq<string>, m: nat, meta: string, line: string)
    requires SingleLines(lines) && m + 1 < |lines| && '\n' !in meta && '\n' !in line
    ensures SingleLines(Rewritten(lines, m, meta, line))
  {
    forall x <- Rewritten(lines, m, meta, line) ensures '\n' !in x {
      assert x in lines || x == meta || x == line;
    }
  }

  lemma OnlyOneBlock(blocks: seq<Block>, k: nat, read: Rule, rule: Rule)
    requires k < |blocks|
    ensures blocks[k := Block(blocks[k].metaIndex, read)] == blocks[k := blocks[k].(rule := rule)] <==> read == rule
  {
    if read != rule {
      assert blocks[k := Block(blocks[k].metaIndex, read)][k].rule == read;
    }
  }

  /** A block that was rewritten is read from the file as the new rule, and the other
      blocks as they were, if and only if the new target is printable. */
  lemma RewrittenIsReread(r: Reader, lines: seq<string>, blocks: seq<Block>, k: nat, rule: Rule)
    requires Faithful(r) && SingleLines(lines) && ParseFrom(r, lines, 0) == Some(blocks)
    requires k < |blocks| && WellFormed(rule)
    ensures blocks[k].metaIndex + 1 < |lines|
    ensures var lines' := Rewritten(lines, blocks[k].metaIndex, MetaLine(rule), RuleLine(rule));
            Reread(r, lines') == Some(blocks[k := blocks[k].(rule := rule)]) <==> Printable(rule.target)
  {
    var meta, line := MetaLine(rule), RuleLine(rule);
    RewrittenBlock(r, lines, blocks, k, meta, line);
    var lines' := Rewritten(lines, blocks[k].metaIndex, meta, line);
    if '\n' in rule.target {
      if Reread(r, lines') == Some(blocks[k := blocks[k].(rule := rule)]) {
        RereadTargetsAreSingle(r, lines', blocks[k := blocks[k].(rule := rule)], k);
        assert false;
      }
    } else {
      PrintedIsSingle(rule);
      RewrittenIsSingle(lines, blocks[k].metaIndex, meta, line);
      SavedMeansTheSame(r, lines');
      if r.pair(meta, line).Some? { OnlyOneBlock(blocks, k, r.pair(meta, line).value, rule); }
    }
  }

  /** An appended rule is read from the file, behind the others, if and only if its
      target is printable. */
  lemma AppendedIsReread(r: Reader, lines: seq<string>, blocks: seq<Block>, rule: Rule)
    requires Faithful(r) && SingleLines(lines) && ParseFrom(r, lines, 0) == Some(blocks) && WellFormed(rule)
    ensures Reread(r, lines + [MetaLine(rule), RuleLine(rule)]) == Some(blocks + [Block(|lines|, rule)]) <==>
            Printable(rule.target)
  {
    var meta, line := MetaLine(rule), RuleLine(rule);
    var lines', blocks' := lines + [meta, line], blocks + [Block(|lines|, rule)];
    assert blocks'[|blocks|] == Block(|lines|, rule);
    if '\n' in rule.target {
      if Reread(r, lines') == Some(blocks') {
        RereadTargetsAreSingle(r, lines', blocks', |blocks|);
        assert false;
      }
    } else {
      PrintedIsSingle(rule);
      SavedMeansTheSame(r, lines');
      AppendedBlock(r, lines, blocks, meta, line);
      if r.pair(meta, line).Some? {
        var read := Block(|lines|, r.pair(meta, line).value);
        assert (blocks + [read])[|blocks|] == read;
      }
    }
  }

  lemma PrintedEndsPlain(rule: Rule)
    ensures !EndsInCr(MetaLine(rule)) && !EndsInCr(RuleLine(rule))
  {
    var meta, line := MetaLine(rule), RuleLine(rule);
    assert meta[|meta| - 1] == EnabledText(rule.enabled)[|EnabledText(rule.enabled)| - 1];
    assert line[|line| - 1] == Wake(rule.wake)[0];
  }

  /** A rewritten document comes back from the file line by line as it was, if its
      other lines do, if and only if the new target has no newline. */
  lemma RewrittenReadsBack(lines: seq<string>, m: nat, rule: Rule)
    requires WellFormed(rule) && m + 1 < |lines|
    requires SingleLines(lines) && forall line <- lines :: !EndsInCr(line)
    ensures var lines' := Rewritten(lines, m, MetaLine(rule), RuleLine(rule));
            ReadLines(SaveText(lines')) == lines' <==> '\n' !in rule.target
  {
    PrintThenParse(rule);
    var lines' := Rewritten(lines, m, MetaLine(rule), RuleLine(rule));
    if '\n' in rule.target {
      ReadLinesAreSingle(SaveText(lines'));
      assert lines'[m + 1] in lines';
    } else {
      PrintedEndsPlain(rule);
      RewrittenIsSingle(lines, m, MetaLine(rule), RuleLine(rule));
      forall line <- lines' ensures !EndsInCr(line) {
        assert line in lines || line == MetaLine(rule) || line == RuleLine(rule);
      }
      SaveThenRead(lines');
    }
  }

  /** Printing a rule, saving its two lines and reading the file is the identity, if
      and only if the target is printable. */
  lemma PrintedIsReread(r: Reader, rule: Rule)
    requires Faithful(r) && WellFormed(rule)
    ensures Reread(r, [MetaLine(rule), RuleLine(rule)]) == Some([Block(0, rule)]) <==> Printable(rule.target)
  {
    var none: seq<string>, blocks: seq<Block> := [], [];
    var lines := [MetaLine(rule), RuleLine(rule)];
    AppendedIsReread(r, none, blocks, rule);
    assert none + lines == lines && blocks + [Block(0, rule)] == [Block(0, rule)];
  }

  lemma SpaceAndNewline(target: string)
    requires target == "/a b\nc"
    ensures Quotable(target) && !Printable(target)
  {
    assert target[2] == ' ' && target[4] == '\n';
  }

  /** The file tells more than the lines in memory: with this target the two lines
      are read as the rule, but not after they were saved. */
  lemma NewlineIsLost(r: Reader, rule: Rule)
    requires Faithful(r) && WellFormed(rule) && rule.target == "/a b\nc"
    ensures r.pair(MetaLine(rule), RuleLine(rule)) == Some(rule)
    ensures Reread(r, [MetaLine(rule), RuleLine(rule)]) != Some([Block(0, rule)])
  {
    SpaceAndNewline(rule.target);
    PrintedIsReread(r, rule);
  }

  /** ... and with these not even the lines in memory are: a quote next to a space,
      and white space that is not quoted. */
  lemma UnquotableTargets(rule: Rule)
    requires WellFormed(rule) && (rule.target == "/a \"b" || rule.target == "/a\rb")
    ensures ParsePair(MetaLine(rule), RuleLine(rule)) != Some(rule)
  {
    TwoUnquotable(rule.target);
    PrintThenParse(rule);
  }

  lemma TwoUnquotable(target: string)
    requires target == "/a \"b" || target == "/a\rb"
    ensures !Quotable(target)
  {
    if target == "/a \"b" {
      assert target[2] == ' ' && target[3] == QUOTE;
    } else {
      assert target[2] == '\r';
    }
  }
}
