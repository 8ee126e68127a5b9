/** The cron configuration as a document: lines, and the rule blocks found in them.
    Editing rewrites whole blocks and leaves every other line alone
    (server/cron.go). A read that fails gives no blocks. */
module CronDocument {
  import opened Optional
  import opened Text
  import opened CronLines

  /** A metadata line, at this index, and the rule line after it. */
  datatype Block = Block(metaIndex: nat, rule: Rule)

  /** How lines are told apart and read. What follows holds for any way to do so. */
  datatype Reader = Reader(isMeta: string -> bool, pair: (string, string) -> Option<Rule>)

  const CRON := Reader(line => IsMetaLine(line), (meta, line) => ParsePair(meta, line))

  // ------------------------------------------------------------- reading the lines

  function Cons(block: Block, rest: Option<seq<Block>>): Option<seq<Block>> {
    match rest
    case None => None
    case Some(blocks) => Some([block] + blocks)
  }

  /** The blocks of lines that are numbered from `at`. */
  function ParseFrom(r: Reader, lines: seq<string>, at: nat): Option<seq<Block>> {
    if lines == [] then Some([])
    else if !r.isMeta(lines[0]) then ParseFrom(r, lines[1..], at + 1)
    else if |lines| < 2 || r.pair(lines[0], lines[1]).None? then None
    else Cons(Block(at, r.pair(lines[0], lines[1]).value), ParseFrom(r, lines[2..], at + 2))
  }

  function Append(first: seq<Block>, rest: Option<seq<Block>>): Option<seq<Block>> {
    match rest
    case None => None
    case Some(blocks) => Some(first + blocks)
  }

  lemma ConsAppend(block: Block, first: seq<Block>, rest: Option<seq<Block>>)
    ensures Cons(block, Append(first, rest)) == Append([block] + first, rest)
  {
    if rest.Some? { assert [block] + (first + rest.value) == [block] + first + rest.value; }
  }

  lemma FirstPair(r: Reader, meta: string, line: string, rest: seq<string>, at: nat)
    requires r.isMeta(meta)
    ensures ParseFrom(r, [meta, line] + rest, at) ==
            if r.pair(meta, line).None? then None
            else Cons(Block(at, r.pair(meta, line).value), ParseFrom(r, rest, at + 2))
  {
    assert ([meta, line] + rest)[2..] == rest;
  }

  lemma FirstPlain(r: Reader, line: string, rest: seq<string>, at: nat)
    requires !r.isMeta(line)
    ensures ParseFrom(r, [line] + rest, at) == ParseFrom(r, rest, at + 1)
  {
    assert ([line] + rest)[1..] == rest;
  }

  /** Lines that can be read on their own do not influence what follows them. */
  lemma {:induction false} ParseConcat(r: Reader, a: seq<string>, b: seq<string>, at: nat, end: nat)
    requires ParseFrom(r, a, at).Some? && end == at + |a|
    ensures ParseFrom(r, a + b, at) == Append(ParseFrom(r, a, at).value, ParseFrom(r, b, end))
    decreases |a|
  {
    if a == [] {
      assert a + b == b;
      if ParseFrom(r, b, at).Some? { assert [] + ParseFrom(r, b, at).value == ParseFrom(r, b, at).value; }
    } else if !r.isMeta(a[0]) {
      assert a + b == [a[0]] + (a[1..] + b);
      FirstPlain(r, a[0], a[1..] + b, at);
      ParseConcat(r, a[1..], b, at + 1, end);
    } else {
      assert a + b == [a[0], a[1]] + (a[2..] + b);
      FirstPair(r, a[0], a[1], a[2..] + b, at);
      ParseConcat(r, a[2..], b, at + 2, end);
      ConsAppend(Block(at, r.pair(a[0], a[1]).value), ParseFrom(r, a[2..], at + 2).value, ParseFrom(r, b, end));
    }
  }

  function Shifted(blocks: seq<Block>, delta: int): (shifted: seq<Block>)
    requires forall k | 0 <= k < |blocks| :: blocks[k].metaIndex + delta >= 0
    ensures |shifted| == |blocks|
    ensures forall k | 0 <= k < |blocks| :: shifted[k] == Block(blocks[k].metaIndex + delta, blocks[k].rule)
  {
    seq(|blocks|, k requires 0 <= k < |blocks| => Block(blocks[k].metaIndex + delta, blocks[k].rule))
  }

  /** Only the line numbers depend on where the lines start. */
  lemma {:induction false} ParseShift(r: Reader, lines: seq<string>, at: nat, at': nat)
    ensures ParseFrom(r, lines, at).Some? <==> ParseFrom(r, lines, at').Some?
    ensures ParseFrom(r, lines, at).Some? ==>
              (forall k | 0 <= k < |ParseFrom(r, lines, at).value| :: ParseFrom(r, lines, at).value[k].metaIndex >= at) &&
              ParseFrom(r, lines, at') == Some(Shifted(ParseFrom(r, lines, at).value, at' - at))
    decreases |lines|
  {
    if lines == [] {
    } else if !r.isMeta(lines[0]) {
      ParseShift(r, lines[1..], at + 1, at' + 1);
    } else if |lines| >= 2 && r.pair(lines[0], lines[1]).Some? {
      ParseShift(r, lines[2..], at + 2, at' + 2);
      if ParseFrom(r, lines[2..], at + 2).Some? {
        var block, rest := Block(at, r.pair(lines[0], lines[1]).value), ParseFrom(r, lines[2..], at + 2).value;
        assert Shifted([block] + rest, at' - at) == [Block(at', block.rule)] + Shifted(rest, at' - at);
      }
    }
  }

  /** Where a block is: what precedes it and what follows it can be read on their own. */
  ghost predicate Splits(r: Reader, lines: seq<string>, at: nat, blocks: seq<Block>, k: nat)
    requires k < |blocks|
  {
    var m := blocks[k].metaIndex;
    && at <= m && m + 1 - at < |lines|
    && ParseFrom(r, lines[..m - at], at) == Some(blocks[..k])
    && r.isMeta(lines[m - at]) && r.pair(lines[m - at], lines[m - at + 1]) == Some(blocks[k].rule)
    && ParseFrom(r, lines[m - at + 2..], m + 2) == Some(blocks[k + 1..])
  }

  lemma {:induction false} BlockSplits(r: Reader, lines: seq<string>, at: nat, blocks: seq<Block>, k: nat)
    requires ParseFrom(r, lines, at) == Some(blocks) && k < |blocks|
    ensures Splits(r, lines, at, blocks, k)
    decreases |lines|
  {
    var m := blocks[k].metaIndex;
    if !r.isMeta(lines[0]) {
      BlockSplits(r, lines[1..], at + 1, blocks, k);
      assert lines[..m - at] == [lines[0]] + lines[1..][..m - at - 1];
      FirstPlain(r, lines[0], lines[1..][..m - at - 1], at);
      assert lines[1..][m - at + 1..] == lines[m - at + 2..];
    } else if k == 0 {
      assert lines[..0] == [] && blocks[..0] == [];
    } else {
      var rest := blocks[1..];
      BlockSplits(r, lines[2..], at + 2, rest, k - 1);
      var before := lines[2..][..m - at - 2];
      assert lines[..m - at] == [lines[0], lines[1]] + before;
      FirstPair(r, lines[0], lines[1], before, at);
      assert lines[2..][m - at..] == lines[m - at + 2..];
      assert blocks[..k] == [blocks[0]] + rest[..k - 1];
      assert blocks[k + 1..] == rest[k..];
    }
  }

  // ------------------------------------------------------------- what an edit does to the blocks

  function Rewritten(lines: seq<string>, m: nat, meta: string, line: string): seq<string>
    requires m + 1 < |lines|
  {
    lines[m := meta][m + 1 := line]
  }

  lemma PairInside(r: Reader, before: seq<string>, meta: string, line: string, after: seq<string>)
    requires ParseFrom(r, before, 0).Some? && r.isMeta(meta)
    ensures ParseFrom(r, before + ([meta, line] + after), 0) ==
            if r.pair(meta, line).None? then None
            else Append(ParseFrom(r, before, 0).value,
                        Cons(Block(|before|, r.pair(meta, line).value), ParseFrom(r, after, |before| + 2)))
  {
    ParseConcat(r, before, [meta, line] + after, 0, |before|);
    FirstPair(r, meta, line, after, |before|);
  }

  lemma BlockInside(blocks: seq<Block>, k: nat, block: Block)
    requires k < |blocks|
    ensures Append(blocks[..k], Cons(block, Some(blocks[k + 1..]))) == Some(blocks[k := block])
  {
    assert blocks[..k] + ([block] + blocks[k + 1..]) == blocks[k := block];
  }

  /** Rewriting the two lines of a block changes that block and no other. */
  lemma RewrittenBlock(r: Reader, lines: seq<string>, blocks: seq<Block>, k: nat, meta: string, line: string)
    requires ParseFrom(r, lines, 0) == Some(blocks) && k < |blocks| && r.isMeta(meta)
    ensures blocks[k].metaIndex + 1 < |lines|
    ensures ParseFrom(r, Rewritten(lines, blocks[k].metaIndex, meta, line), 0) ==
            if r.pair(meta, line).None? then None
            else Some(blocks[k := Block(blocks[k].metaIndex, r.pair(meta, line).value)])
  {
    BlockSplits(r, lines, 0, blocks, k);
    var m := blocks[k].metaIndex;
    assert Rewritten(lines, m, meta, line) == lines[..m] + ([meta, line] + lines[m + 2..]);
    PairInside(r, lines[..m], meta, line, lines[m + 2..]);
    if r.pair(meta, line).Some? { BlockInside(blocks, k, Block(m, r.pair(meta, line).value)); }
  }

  /** Taking a block out leaves the others, those behind it two lines further up. */
  lemma DeletedBlock(r: Reader, lines: seq<string>, blocks: seq<Block>, k: nat)
    requires ParseFrom(r, lines, 0) == Some(blocks) && k < |blocks|
    ensures blocks[k].metaIndex + 1 < |lines|
    ensures forall j | k < j < |blocks| :: blocks[j].metaIndex >= blocks[k].metaIndex + 2
    ensures ParseFrom(r, lines[..blocks[k].metaIndex] + lines[blocks[k].metaIndex + 2..], 0) ==
            Some(blocks[..k] + Shifted(blocks[k + 1..], -2))
  {
    BlockSplits(r, lines, 0, blocks, k);
    var m := blocks[k].metaIndex;
    ParseConcat(r, lines[..m], lines[m + 2..], 0, m);
    ParseShift(r, lines[m + 2..], m + 2, m);
    forall j | k < j < |blocks| ensures blocks[j].metaIndex >= m + 2 {
      assert blocks[j] == blocks[k + 1..][j - k - 1];
    }
  }

  lemma AppendedBlock(r: Reader, lines: seq<string>, blocks: seq<Block>, meta: string, line: string)
    requires ParseFrom(r, lines, 0) == Some(blocks) && r.isMeta(meta)
    ensures ParseFrom(r, lines + [meta, line], 0) ==
            if r.pair(meta, line).None? then None
            else Some(blocks + [Block(|lines|, r.pair(meta, line).value)])
  {
    var none: seq<string> := [];
    assert [meta, line] + none == [meta, line];
    PairInside(r, lines, meta, line, none);
    if r.pair(meta, line).Some? {
      var block := Block(|lines|, r.pair(meta, line).value);
      assert blocks + ([block] + []) == blocks + [block];
    }
  }

  // ------------------------------------------------------------- rules of one user

  predicate OwnLine(blocks: seq<Block>, user: string, i: int) {
    exists k | 0 <= k < |blocks| ::
      blocks[k].rule.userId == user && (i == blocks[k].metaIndex || i == blocks[k].metaIndex + 1)
  }

  function Disabled(rule: Rule, user: string): Rule {
    if rule.userId == user then rule.(enabled := false) else rule
  }

  /** The blocks with the user's rules among the first n disabled. */
  function DisabledUpTo(blocks: seq<Block>, user: string, n: nat): (disabled: seq<Block>)
    ensures |disabled| == |blocks|
    ensures forall k | 0 <= k < |blocks| ::
              disabled[k] == if k < n && blocks[k].rule.userId == user
                             then blocks[k].(rule := blocks[k].rule.(enabled := false)) else blocks[k]
  {
    seq(|blocks|, k requires 0 <= k < |blocks| =>
      if k < n then blocks[k].(rule := Disabled(blocks[k].rule, user)) else blocks[k])
  }

  lemma DisabledNext(blocks: seq<Block>, user: string, n: nat)
    requires n < |blocks|
    ensures DisabledUpTo(blocks, user, n + 1) ==
            DisabledUpTo(blocks, user, n)[n := blocks[n].(rule := Disabled(blocks[n].rule, user))]
  {
  }

  /** The rules in some lines, without line numbers. */
  function RulesIn(r: Reader, lines: seq<string>): Option<seq<Rule>> {
    if lines == [] then Some([])
    else if !r.isMeta(lines[0]) then RulesIn(r, lines[1..])
    else if |lines| < 2 || r.pair(lines[0], lines[1]).None? then None
    else
      match RulesIn(r, lines[2..])
      case None => None
      case Some(rules) => Some([r.pair(lines[0], lines[1]).value] + rules)
  }

  function Rules(blocks: seq<Block>): seq<Rule> {
    if blocks == [] then [] else [blocks[0].rule] + Rules(blocks[1..])
  }

  lemma {:induction false} RulesAreOfBlocks(r: Reader, lines: seq<string>, at: nat)
    ensures RulesIn(r, lines) ==
            if ParseFrom(r, lines, at).None? then None else Some(Rules(ParseFrom(r, lines, at).value))
    decreases |lines|
  {
    if lines == [] {
    } else if !r.isMeta(lines[0]) {
      RulesAreOfBlocks(r, lines[1..], at + 1);
    } else if |lines| >= 2 && r.pair(lines[0], lines[1]).Some? {
      RulesAreOfBlocks(r, lines[2..], at + 2);
      if ParseFrom(r, lines[2..], at + 2).Some? {
        var block, rest := Block(at, r.pair(lines[0], lines[1]).value), ParseFrom(r, lines[2..], at + 2).value;
        assert ([block] + rest)[1..] == rest;
      }
    }
  }

  function OthersRules(rules: seq<Rule>, user: string): seq<Rule> {
    if rules == [] then []
    else if rules[0].userId == user then OthersRules(rules[1..], user)
    else [rules[0]] + OthersRules(rules[1..], user)
  }

  /** The lines, numbered from `at`, whose numbers are not in `removed`. */
  function KeptFrom(lines: seq<string>, at: nat, removed: set<int>): seq<string> {
    if lines == [] then []
    else if at in removed then KeptFrom(lines[1..], at + 1, removed)
    else [lines[0]] + KeptFrom(lines[1..], at + 1, removed)
  }

  /** `removed` has the lines of exactly the user's blocks, from `at` on. */
  ghost predicate MarksOwn(blocks: seq<Block>, user: string, at: nat, removed: set<int>) {
    forall i | i >= at :: i in removed <==> OwnLine(blocks, user, i)
  }

  /** Without the lines of the user's blocks the others' rules remain, in order. */
  lemma {:induction false} OthersRemain(r: Reader, lines: seq<string>, at: nat, blocks: seq<Block>, user: string, removed: set<int>)
    requires ParseFrom(r, lines, at) == Some(blocks) && MarksOwn(blocks, user, at, removed)
    ensures RulesIn(r, KeptFrom(lines, at, removed)) == Some(OthersRules(Rules(blocks), user))
    decreases |lines|
  {
    ParseShift(r, lines, at, at);
    if lines == [] {
    } else if !r.isMeta(lines[0]) {
      ParseShift(r, lines[1..], at + 1, at + 1);
      assert !OwnLine(blocks, user, at);
      OthersRemain(r, lines[1..], at + 1, blocks, user, removed);
      assert KeptFrom(lines, at, removed)[1..] == KeptFrom(lines[1..], at + 1, removed);
    } else {
      var rest := ParseFrom(r, lines[2..], at + 2).value;
      ParseShift(r, lines[2..], at + 2, at + 2);
      assert blocks[1..] == rest;
      OwnFirst(blocks, user, at, removed);
      OthersRemain(r, lines[2..], at + 2, rest, user, removed);
      var kept := KeptFrom(lines[2..], at + 2, removed);
      assert lines[1..][1..] == lines[2..];
      if blocks[0].rule.userId == user {
        assert KeptFrom(lines, at, removed) == kept;
      } else {
        assert KeptFrom(lines, at, removed) == [lines[0]] + ([lines[1]] + kept);
        assert ([lines[0]] + ([lines[1]] + kept))[2..] == kept;
      }
    }
  }

  lemma OwnFirst(blocks: seq<Block>, user: string, at: nat, removed: set<int>)
    requires blocks != [] && blocks[0].metaIndex == at && MarksOwn(blocks, user, at, removed)
    requires forall k | 1 <= k < |blocks| :: blocks[k].metaIndex >= at + 2
    ensures at in removed <==> blocks[0].rule.userId == user
    ensures at + 1 in removed <==> blocks[0].rule.userId == user
    ensures MarksOwn(blocks[1..], user, at + 2, removed)
  {
    forall i | i >= at + 2 ensures OwnLine(blocks[1..], user, i) <==> OwnLine(blocks, user, i) {
      if OwnLine(blocks, user, i) {
        var k :| 0 <= k < |blocks| && blocks[k].rule.userId == user &&
                 (i == blocks[k].metaIndex || i == blocks[k].metaIndex + 1);
        assert blocks[1..][k - 1] == blocks[k];
      }
    }
  }
}
