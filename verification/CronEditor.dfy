/** The editing operations on the cron configuration, and the file they go through
    (server/cron.go). Each operation reads the file into lines and blocks, edits the
    lines and saves them; `blocks` are those of the lines that were read. */
module CronEditor {
  import opened Optional
  import opened Text
  import opened CronLines
  import opened CronDocument
  import opened CronFile
  import opened CronSaved

  predicate Matches(block: Block, id: string, user: string) {
    block.rule.id == id && (user == "" || block.rule.userId == user)
  }

  predicate NoneMatches(blocks: seq<Block>, id: string, user: string) {
    forall j | 0 <= j < |blocks| :: !Matches(blocks[j], id, user)
  }

  predicate FirstMatch(blocks: seq<Block>, k: nat, id: string, user: string) {
    k < |blocks| && Matches(blocks[k], id, user) && forall j | 0 <= j < k :: !Matches(blocks[j], id, user)
  }

  class CronConfig {
    const r: Reader
    var lines: seq<string>
    var blocks: seq<Block>

    ghost predicate Valid()
      reads this
    {
      Faithful(r) && SingleLines(lines) && ParseFrom(r, lines, 0) == Some(blocks)
    }

    constructor ()
      ensures Valid() && r == CRON && lines == []
    {
      r, lines, blocks := CRON, [], [];
      new;
      CronIsFaithful();
    }

    /** readCronConfigDoc. */
    method Read(text: string) returns (ok: bool)
      requires Faithful(r)
      modifies this
      ensures ok == ParseFrom(r, ReadLines(text), 0).Some?
      ensures ok ==> Valid() && lines == ReadLines(text)
      ensures !ok ==> lines == old(lines) && blocks == old(blocks)
    {
      var found := ReadLines(text);
      ReadLinesAreSingle(text);
      var read: seq<Block> := [];
      var i := 0;
      assert found[0..] == found;
      AppendEmpty(ParseFrom(r, found, 0), []);
      while i < |found|
        invariant i <= |found| && lines == old(lines) && blocks == old(blocks)
        invariant ParseFrom(r, found, 0) == Append(read, ParseFrom(r, found[i..], i))
      {
        var rest := found[i..];
        if !r.isMeta(found[i]) {
          assert found[i + 1..] == rest[1..];
          i := i + 1;
          continue;
        }
        if i + 1 >= |found| {
          return false;
        }
        var rule := r.pair(found[i], found[i + 1]);
        if rule.None? {
          return false;
        }
        assert found[i + 2..] == rest[2..];
        ConsAppendLast(read, Block(i, rule.value), ParseFrom(r, found[i + 2..], i + 2));
        read := read + [Block(i, rule.value)];
        i := i + 2;
      }
      assert found[i..] == [];
      AppendEmpty(Some([]), read);
      lines, blocks := found, read;
      return true;
    }

    /** findCronRuleBlock. */
    method Find(id: string, user: string) returns (found: bool, k: nat)
      ensures if found then FirstMatch(blocks, k, id, user) else NoneMatches(blocks, id, user)
      ensures found ==> k < |blocks| && blocks[k].rule.id == id && (user != "" ==> blocks[k].rule.userId == user)
      ensures !found ==> forall j | 0 <= j < |blocks| && blocks[j].rule.id == id :: user != "" && blocks[j].rule.userId != user
    {
      for i := 0 to |blocks|
        invariant forall j | 0 <= j < i :: !Matches(blocks[j], id, user)
      {
        if Matches(blocks[i], id, user) {
          return true, i;
        }
      }
      return false, 0;
    }

    method WriteBlock(m: nat, rule: Rule)
      requires m + 1 < |lines|
      modifies this`lines
      ensures lines == Rewritten(old(lines), m, MetaLine(rule), RuleLine(rule))
    {
      lines := lines[m := MetaLine(rule)];
      lines := lines[m + 1 := RuleLine(rule)];
    }

    /** The new text of a block. Read again from the file, it is the new rule, and the
        other blocks are as they were, if and only if the new target is printable. */
    method Rewrite(k: nat, rule: Rule)
      requires Valid() && k < |blocks| && WellFormed(rule)
      modifies this`lines
      ensures OnlyBlockChanged(old(lines), lines, blocks[k])
      ensures Reread(r, lines) == Some(blocks[k := blocks[k].(rule := rule)]) <==> Printable(rule.target)
    {
      RewrittenIsReread(r, lines, blocks, k, rule);
      WriteBlock(blocks[k].metaIndex, rule);
    }

    /** updateCronRule, with a request that was checked. */
    method Update(id: string, user: string, request: Rule) returns (found: bool, k: nat)
      requires Valid() && WellFormed(request) && request.id == id && request.userId == user
      modifies this`lines
      ensures if found then FirstMatch(blocks, k, id, user) else NoneMatches(blocks, id, user)
      ensures found ==> k < |blocks| && blocks[k].rule.id == id && (user != "" ==> blocks[k].rule.userId == user)
      ensures !found ==> forall j | 0 <= j < |blocks| && blocks[j].rule.id == id :: user != "" && blocks[j].rule.userId != user
      ensures !found ==> lines == old(lines)
      ensures found ==> OnlyBlockChanged(old(lines), lines, blocks[k])
      ensures found ==> (Reread(r, lines) == Some(blocks[k := blocks[k].(rule := request)]) <==> Printable(request.target))
      ensures found && Printable(request.target) ==> OthersAreReread(r, lines, blocks, blocks[k].rule.userId)
    {
      found, k := Find(id, user);
      if found {
        Rewrite(k, request);
        if Printable(request.target) { OthersOfRewritten(r, lines, blocks, k, request); }
      }
    }

    /** setCronRuleEnabled; `permitted` tells which targets the actor may scan. */
    method SetEnabled(id: string, user: string, enabled: bool, permitted: string -> bool) returns (ok: bool, k: nat)
      requires Valid()
      modifies this`lines
      ensures ok ==> FirstMatch(blocks, k, id, user) && (enabled ==> permitted(blocks[k].rule.target))
      ensures ok ==> k < |blocks| && blocks[k].rule.id == id && (user != "" ==> blocks[k].rule.userId == user)
      ensures !ok ==> lines == old(lines)
      ensures !ok ==> (forall j | 0 <= j < |blocks| && blocks[j].rule.id == id :: user != "" && blocks[j].rule.userId != user) ||
                      (k < |blocks| && blocks[k].rule.id == id && (user != "" ==> blocks[k].rule.userId == user) && enabled && !permitted(blocks[k].rule.target))
      ensures !ok ==> NoneMatches(blocks, id, user) ||
                      (FirstMatch(blocks, k, id, user) && enabled && !permitted(blocks[k].rule.target))
      ensures ok ==> OnlyBlockChanged(old(lines), lines, blocks[k])
      ensures ok ==> (Reread(r, lines) == Some(blocks[k := blocks[k].(rule := blocks[k].rule.(enabled := enabled))]) <==>
                        Printable(blocks[k].rule.target))
      ensures ok && Printable(blocks[k].rule.target) ==> OthersAreReread(r, lines, blocks, blocks[k].rule.userId)
    {
      var found: bool;
      found, k := Find(id, user);
      if !found || (enabled && !permitted(blocks[k].rule.target)) {
        return false, k;
      }
      ParsedTargetsAreSingle(r, lines, blocks, k);
      Rewrite(k, blocks[k].rule.(enabled := enabled));
      if Printable(blocks[k].rule.target) { OthersOfRewritten(r, lines, blocks, k, blocks[k].rule.(enabled := enabled)); }
      ok := true;
    }

    /** deleteCronRule: the block is gone and nothing else changes. */
    method Delete(id: string, user: string) returns (found: bool, k: nat)
      requires Valid()
      modifies this`lines
      ensures if found then FirstMatch(blocks, k, id, user) else NoneMatches(blocks, id, user)
      ensures found ==> k < |blocks| && blocks[k].rule.id == id && (user != "" ==> blocks[k].rule.userId == user)
      ensures !found ==> forall j | 0 <= j < |blocks| && blocks[j].rule.id == id :: user != "" && blocks[j].rule.userId != user
      ensures !found ==> lines == old(lines)
      ensures found ==> blocks[k].metaIndex + 1 < |old(lines)|
      ensures found ==> lines == old(lines)[..blocks[k].metaIndex] + old(lines)[blocks[k].metaIndex + 2..]
      ensures found ==> RereadRules(r, lines) == Some(Rules(blocks[..k]) + Rules(blocks[k + 1..]))
      ensures found ==> OthersAreReread(r, lines, blocks, blocks[k].rule.userId)
    {
      found, k := Find(id, user);
      if found {
        ParsedTargetsAreSingle(r, lines, blocks, k);
        DeletedRules(r, lines, blocks, k);
        var m := blocks[k].metaIndex;
        lines := lines[..m] + lines[m + 2..];
        SavedRulesAreTheSame(r, lines);
        OthersOfDeleted(blocks, k);
      }
    }

    /** addCronRule; the id is new. */
    method Add(rule: Rule)
      requires Valid() && WellFormed(rule)
      modifies this`lines
      ensures lines == old(lines) + [MetaLine(rule), RuleLine(rule)]
      ensures Reread(r, lines) == Some(blocks + [Block(|old(lines)|, rule)]) <==> Printable(rule.target)
    {
      AppendedIsReread(r, lines, blocks, rule);
      lines := lines + [MetaLine(rule), RuleLine(rule)];
    }

    /** disableCronRulesForUser. Every line of the others stays. Read again, the
        user's rules are disabled and nothing else differs, if and only if the targets
        of those that were enabled are printable. */
    method DisableForUser(user: string) returns (changed: bool)
      requires Valid()
      modifies this`lines
      ensures !changed ==> lines == old(lines)
      ensures KeepsOthers(old(lines), lines, blocks, user)
      ensures Reread(r, lines) == Some(DisabledUpTo(blocks, user, |blocks|)) <==> AllPrintable(blocks, user)
    {
      changed := false;
      ghost var was := lines;
      DisableStarts(r, lines, blocks, user);
      for k := 0 to |blocks|
        invariant !changed ==> lines == was
        invariant DisabledSoFar(r, was, lines, blocks, user, k)
      {
        var touched := DisableBlock(user, k, was);
        changed := changed || touched;
      }
      DisableEnds(r, was, lines, blocks, user);
    }

    /** One turn of that loop. */
    method DisableBlock(user: string, k: nat, ghost was: seq<string>) returns (touched: bool)
      requires Faithful(r) && SingleLines(was) && ParseFrom(r, was, 0) == Some(blocks)
      requires k < |blocks| && DisabledSoFar(r, was, lines, blocks, user, k)
      modifies this`lines
      ensures DisabledSoFar(r, was, lines, blocks, user, k + 1)
      ensures !touched ==> lines == old(lines)
    {
      if blocks[k].rule.userId != user || !blocks[k].rule.enabled {
        DisableSkips(r, was, lines, blocks, user, k);
        return false;
      }
      DisableNext(r, was, lines, blocks, user, k);
      WriteBlock(blocks[k].metaIndex, blocks[k].rule.(enabled := false));
      return true;
    }

    /** The first loop of removeCronRulesForUser: the numbers of the user's lines. */
    method OwnLines(user: string) returns (removed: set<int>)
      ensures MarksOwn(blocks, user, 0, removed)
    {
      removed := {};
      for k := 0 to |blocks|
        invariant forall i :: i in removed <==> OwnLine(blocks[..k], user, i)
      {
        OwnLineNext(blocks, user, k);
        if blocks[k].rule.userId == user {
          removed := removed + {blocks[k].metaIndex, blocks[k].metaIndex + 1};
        }
      }
      assert blocks[..|blocks|] == blocks;
    }

    /** Its second loop: the lines that are not removed, in order. */
    method KeptLines(removed: set<int>) returns (kept: seq<string>)
      ensures kept == KeptFrom(lines, 0, removed)
    {
      kept := [];
      assert lines[0..] == lines;
      for i := 0 to |lines|
        invariant KeptFrom(lines, 0, removed) == kept + KeptFrom(lines[i..], i, removed)
      {
        assert lines[i..][1..] == lines[i + 1..];
        if i !in removed {
          kept := kept + [lines[i]];
        }
      }
    }

    /** removeCronRulesForUser: the user's lines go, all others stay in order, and
        read again they give the others' rules. */
    method RemoveForUser(user: string) returns (removed: set<int>)
      requires Valid()
      modifies this`lines
      ensures MarksOwn(blocks, user, 0, removed) && lines == KeptFrom(old(lines), 0, removed)
      ensures RereadRules(r, lines) == Some(OthersRules(Rules(blocks), user))
    {
      removed := OwnLines(user);
      OthersRemain(r, lines, 0, blocks, user, removed);
      KeptAreSingle(lines, 0, removed);
      SavedRulesAreTheSame(r, KeptFrom(lines, 0, removed));
      if removed == {} {
        NothingRemoved(lines, 0, removed);
        return;
      }
      lines := KeptLines(removed);
    }
  }

  // ------------------------------------------------------------- the rules of the others

  /** Read again from the file, the rules of everybody but this user are those of the
      blocks, in their order. */
  ghost predicate OthersAreReread(r: Reader, lines: seq<string>, blocks: seq<Block>, user: string) {
    && RereadRules(r, lines).Some?
    && OthersRules(RereadRules(r, lines).value, user) == OthersRules(Rules(blocks), user)
  }

  /** The others' rules are exactly those with another owner, in their order. */
  lemma {:induction false} OthersFilter(before: seq<Rule>, rule: Rule, after: seq<Rule>, user: string)
    ensures OthersRules(before + [rule] + after, user) ==
            OthersRules(before, user) + (if rule.userId != user then [rule] else []) + OthersRules(after, user)
  {
    var all := before + [rule] + after;
    if before == [] {
      assert all[1..] == after;
    } else {
      assert all[1..] == before[1..] + [rule] + after;
      OthersFilter(before[1..], rule, after, user);
    }
  }

  lemma {:induction false} RulesAt(blocks: seq<Block>, k: nat)
    requires k < |blocks|
    ensures |Rules(blocks)| == |blocks| && Rules(blocks)[k] == blocks[k].rule
  {
    if |blocks| > 1 { RulesAt(blocks[1..], if k > 0 then k - 1 else 0); }
  }

  lemma {:induction false} RulesAround(blocks: seq<Block>, k: nat)
    requires k < |blocks|
    ensures Rules(blocks) == Rules(blocks[..k]) + [blocks[k].rule] + Rules(blocks[k + 1..])
  {
    if k == 0 {
      assert blocks[..0] == [];
    } else {
      RulesAround(blocks[1..], k - 1);
      assert blocks[..k][1..] == blocks[1..][..k - 1];
      assert blocks[1..][k..] == blocks[k + 1..];
    }
  }

  lemma OthersOfRewritten(r: Reader, lines: seq<string>, blocks: seq<Block>, k: nat, rule: Rule)
    requires k < |blocks| && rule.userId == blocks[k].rule.userId
    requires Reread(r, lines) == Some(blocks[k := blocks[k].(rule := rule)])
    ensures OthersAreReread(r, lines, blocks, rule.userId)
  {
    var blocks' := blocks[k := blocks[k].(rule := rule)];
    RulesAreOfBlocks(r, ReadLines(SaveText(lines)), 0);
    RulesAround(blocks, k);
    RulesAround(blocks', k);
    assert blocks'[..k] == blocks[..k] && blocks'[k + 1..] == blocks[k + 1..];
    OthersFilter(Rules(blocks[..k]), rule, Rules(blocks[k + 1..]), rule.userId);
    OthersFilter(Rules(blocks[..k]), blocks[k].rule, Rules(blocks[k + 1..]), rule.userId);
  }

  lemma OthersOfDeleted(blocks: seq<Block>, k: nat)
    requires k < |blocks|
    ensures OthersRules(Rules(blocks[..k]) + Rules(blocks[k + 1..]), blocks[k].rule.userId) ==
            OthersRules(Rules(blocks), blocks[k].rule.userId)
  {
    var user := blocks[k].rule.userId;
    RulesAround(blocks, k);
    OthersFilter(Rules(blocks[..k]), blocks[k].rule, Rules(blocks[k + 1..]), user);
    OthersOfConcat(Rules(blocks[..k]), Rules(blocks[k + 1..]), user);
  }

  lemma {:induction false} OthersOfConcat(a: seq<Rule>, b: seq<Rule>, user: string)
    ensures OthersRules(a + b, user) == OthersRules(a, user) + OthersRules(b, user)
  {
    if a == [] {
      assert a + b == b;
    } else {
      assert (a + b)[1..] == a[1..] + b;
      OthersOfConcat(a[1..], b, user);
    }
  }

  ghost predicate AllPrintable(blocks: seq<Block>, user: string) {
    forall k | 0 <= k < |blocks| && blocks[k].rule.userId == user && blocks[k].rule.enabled ::
      Printable(blocks[k].rule.target)
  }

  /** The enabled rules of the user among the first n are written out as disabled. */
  ghost predicate DisabledText(lines: seq<string>, blocks: seq<Block>, user: string, n: nat) {
    forall k | 0 <= k < |blocks| && k < n && blocks[k].rule.userId == user && blocks[k].rule.enabled ::
      PrintedAt(lines, blocks[k].metaIndex, blocks[k].rule.(enabled := false))
  }

  predicate PrintedAt(lines: seq<string>, m: nat, rule: Rule) {
    m + 1 < |lines| && lines[m] == MetaLine(rule) && lines[m + 1] == RuleLine(rule)
  }

  lemma PrintedStays(lines: seq<string>, m: nat, rule: Rule, at: nat, meta: string, line: string)
    requires PrintedAt(lines, m, rule) && m + 2 <= at && at + 1 < |lines|
    ensures PrintedAt(Rewritten(lines, at, meta, line), m, rule)
  {
  }

  lemma BlocksAreApart(r: Reader, lines: seq<string>, blocks: seq<Block>, k: nat)
    requires ParseFrom(r, lines, 0) == Some(blocks) && k < |blocks|
    ensures forall j | 0 <= j < k :: blocks[j].metaIndex + 2 <= blocks[k].metaIndex
  {
    forall j | 0 <= j < k ensures blocks[j].metaIndex + 2 <= blocks[k].metaIndex {
      DeletedBlock(r, lines, blocks, j);
    }
  }

  /** Every line that is not in a block of the user is as it was. */
  ghost predicate KeepsOthers(was: seq<string>, lines: seq<string>, blocks: seq<Block>, user: string) {
    |lines| == |was| && forall i | 0 <= i < |lines| && !OwnLine(blocks, user, i) :: lines[i] == was[i]
  }

  /** What the loop of disableCronRulesForUser has done after n blocks. */
  ghost predicate DisabledSoFar(r: Reader, was: seq<string>, lines: seq<string>, blocks: seq<Block>, user: string, n: nat) {
    && SingleLines(lines) && KeepsOthers(was, lines, blocks, user)
    && (AllPrintable(blocks, user) ==> ParseFrom(r, lines, 0) == Some(DisabledUpTo(blocks, user, n)))
    && DisabledText(lines, blocks, user, n)
  }

  lemma DisableStarts(r: Reader, lines: seq<string>, blocks: seq<Block>, user: string)
    requires ParseFrom(r, lines, 0) == Some(blocks) && SingleLines(lines)
    ensures DisabledSoFar(r, lines, lines, blocks, user, 0)
  {
    assert DisabledUpTo(blocks, user, 0) == blocks;
  }

  lemma DisableSkips(r: Reader, was: seq<string>, lines: seq<string>, blocks: seq<Block>, user: string, k: nat)
    requires DisabledSoFar(r, was, lines, blocks, user, k) && k < |blocks|
    requires blocks[k].rule.userId != user || !blocks[k].rule.enabled
    ensures DisabledSoFar(r, was, lines, blocks, user, k + 1)
  {
    SkippedIsSame(blocks, user, k);
  }

  lemma SkippedIsSame(blocks: seq<Block>, user: string, k: nat)
    requires k < |blocks| && (blocks[k].rule.userId != user || !blocks[k].rule.enabled)
    ensures DisabledUpTo(blocks, user, k + 1) == DisabledUpTo(blocks, user, k)
  {
  }

  lemma DisableNext(r: Reader, was: seq<string>, lines: seq<string>, blocks: seq<Block>, user: string, k: nat)
    requires Faithful(r) && SingleLines(was) && ParseFrom(r, was, 0) == Some(blocks)
    requires DisabledSoFar(r, was, lines, blocks, user, k) && k < |blocks|
    requires blocks[k].rule.userId == user && blocks[k].rule.enabled
    ensures blocks[k].metaIndex + 1 < |lines|
    ensures var rule := blocks[k].rule.(enabled := false);
            DisabledSoFar(r, was, Rewritten(lines, blocks[k].metaIndex, MetaLine(rule), RuleLine(rule)), blocks, user, k + 1)
  {
    ParsedTargetsAreSingle(r, was, blocks, k);
    BlocksAreApart(r, was, blocks, k);
    var rule := blocks[k].rule.(enabled := false);
    PrintedIsSingle(rule);
    RewrittenIsSingle(lines, blocks[k].metaIndex, MetaLine(rule), RuleLine(rule));
    OthersUntouched(was, lines, blocks, user, k, MetaLine(rule), RuleLine(rule));
    TextNext(lines, blocks, user, k);
    if AllPrintable(blocks, user) { DisabledParses(r, lines, blocks, user, k); }
  }

  lemma OthersUntouched(was: seq<string>, lines: seq<string>, blocks: seq<Block>, user: string, k: nat, meta: string, line: string)
    requires KeepsOthers(was, lines, blocks, user)
    requires k < |blocks| && blocks[k].rule.userId == user && blocks[k].metaIndex + 1 < |lines|
    ensures KeepsOthers(was, Rewritten(lines, blocks[k].metaIndex, meta, line), blocks, user)
  {
    var m := blocks[k].metaIndex;
    assert OwnLine(blocks, user, m) && OwnLine(blocks, user, m + 1);
  }

  lemma TextNext(lines: seq<string>, blocks: seq<Block>, user: string, k: nat)
    requires DisabledText(lines, blocks, user, k) && k < |blocks| && blocks[k].metaIndex + 1 < |lines|
    requires forall j | 0 <= j < k :: blocks[j].metaIndex + 2 <= blocks[k].metaIndex
    ensures var rule := blocks[k].rule.(enabled := false);
            DisabledText(Rewritten(lines, blocks[k].metaIndex, MetaLine(rule), RuleLine(rule)), blocks, user, k + 1)
  {
    var at, rule := blocks[k].metaIndex, blocks[k].rule.(enabled := false);
    var lines' := Rewritten(lines, at, MetaLine(rule), RuleLine(rule));
    forall j | 0 <= j < |blocks| && j < k + 1 && blocks[j].rule.userId == user && blocks[j].rule.enabled
      ensures PrintedAt(lines', blocks[j].metaIndex, blocks[j].rule.(enabled := false))
    {
      if j < k {
        PrintedStays(lines, blocks[j].metaIndex, blocks[j].rule.(enabled := false), at, MetaLine(rule), RuleLine(rule));
      }
    }
  }

  lemma DisabledParses(r: Reader, lines: seq<string>, blocks: seq<Block>, user: string, k: nat)
    requires Faithful(r) && k < |blocks| && WellFormed(blocks[k].rule)
    requires ParseFrom(r, lines, 0) == Some(DisabledUpTo(blocks, user, k))
    requires blocks[k].rule.userId == user && Printable(blocks[k].rule.target)
    ensures blocks[k].metaIndex + 1 < |lines|
    ensures var rule := blocks[k].rule.(enabled := false);
            ParseFrom(r, Rewritten(lines, blocks[k].metaIndex, MetaLine(rule), RuleLine(rule)), 0) ==
            Some(DisabledUpTo(blocks, user, k + 1))
  {
    var rule := blocks[k].rule.(enabled := false);
    assert r.pair(MetaLine(rule), RuleLine(rule)) == Some(rule);
    RewrittenBlock(r, lines, DisabledUpTo(blocks, user, k), k, MetaLine(rule), RuleLine(rule));
    DisabledNext(blocks, user, k);
  }

  lemma DisableEnds(r: Reader, was: seq<string>, lines: seq<string>, blocks: seq<Block>, user: string)
    requires Faithful(r) && SingleLines(was) && ParseFrom(r, was, 0) == Some(blocks)
    requires DisabledSoFar(r, was, lines, blocks, user, |blocks|)
    ensures Reread(r, lines) == Some(DisabledUpTo(blocks, user, |blocks|)) <==> AllPrintable(blocks, user)
  {
    SavedMeansTheSame(r, lines);
    if ParseFrom(r, lines, 0) == Some(DisabledUpTo(blocks, user, |blocks|)) {
      DisabledIsPrintable(r, was, lines, blocks, user);
    }
  }

  lemma DisabledIsPrintable(r: Reader, was: seq<string>, lines: seq<string>, blocks: seq<Block>, user: string)
    requires Faithful(r) && SingleLines(was) && ParseFrom(r, was, 0) == Some(blocks)
    requires ParseFrom(r, lines, 0) == Some(DisabledUpTo(blocks, user, |blocks|))
    requires DisabledText(lines, blocks, user, |blocks|)
    ensures AllPrintable(blocks, user)
  {
    forall k | 0 <= k < |blocks| && blocks[k].rule.userId == user && blocks[k].rule.enabled
      ensures Printable(blocks[k].rule.target)
    {
      ParsedTargetsAreSingle(r, was, blocks, k);
      BlockSplits(r, lines, 0, DisabledUpTo(blocks, user, |blocks|), k);
      var rule := blocks[k].rule.(enabled := false);
      assert r.pair(MetaLine(rule), RuleLine(rule)) == Some(rule);
    }
  }

  lemma OwnLineNext(blocks: seq<Block>, user: string, k: nat)
    requires k < |blocks|
    ensures forall i :: OwnLine(blocks[..k + 1], user, i) <==>
                          OwnLine(blocks[..k], user, i) ||
                          (blocks[k].rule.userId == user && (i == blocks[k].metaIndex || i == blocks[k].metaIndex + 1))
  {
    forall i ensures OwnLine(blocks[..k], user, i) ==> OwnLine(blocks[..k + 1], user, i) {
      if OwnLine(blocks[..k], user, i) {
        var j :| 0 <= j < k && blocks[..k][j].rule.userId == user &&
                 (i == blocks[..k][j].metaIndex || i == blocks[..k][j].metaIndex + 1);
        assert blocks[..k + 1][j] == blocks[..k][j];
      }
    }
    assert blocks[..k + 1][k] == blocks[k];
    forall i | OwnLine(blocks[..k + 1], user, i)
      ensures OwnLine(blocks[..k], user, i) ||
              (blocks[k].rule.userId == user && (i == blocks[k].metaIndex || i == blocks[k].metaIndex + 1))
    {
      var j :| 0 <= j < k + 1 && blocks[..k + 1][j].rule.userId == user &&
               (i == blocks[..k + 1][j].metaIndex || i == blocks[..k + 1][j].metaIndex + 1);
      if j < k { assert blocks[..k][j] == blocks[..k + 1][j]; }
    }
  }

  lemma {:induction false} NothingRemoved(lines: seq<string>, at: nat, removed: set<int>)
    requires removed == {}
    ensures KeptFrom(lines, at, removed) == lines
  {
    if lines != [] { NothingRemoved(lines[1..], at + 1, removed); }
  }

  lemma {:induction false} KeptAreSingle(lines: seq<string>, at: nat, removed: set<int>)
    requires SingleLines(lines)
    ensures SingleLines(KeptFrom(lines, at, removed))
  {
    if lines != [] {
      KeptAreSingle(lines[1..], at + 1, removed);
      assert lines[0] in lines;
    }
  }

  lemma ConsAppendLast(read: seq<Block>, block: Block, rest: Option<seq<Block>>)
    ensures Append(read, Cons(block, rest)) == Append(read + [block], rest)
  {
    if rest.Some? { assert read + ([block] + rest.value) == read + [block] + rest.value; }
  }

  lemma AppendEmpty(rest: Option<seq<Block>>, read: seq<Block>)
    ensures Append([], rest) == rest && Append(read, Some([])) == Some(read)
  {
    if rest.Some? { assert [] + rest.value == rest.value; }
    assert read + [] == read;
  }

  predicate OnlyBlockChanged(lines: seq<string>, lines': seq<string>, block: Block) {
    && |lines'| == |lines|
    && forall i | 0 <= i < |lines| && i != block.metaIndex && i != block.metaIndex + 1 :: lines'[i] == lines[i]
  }

  lemma {:induction false} RulesOfConcat(a: seq<Block>, b: seq<Block>)
    ensures Rules(a + b) == Rules(a) + Rules(b)
  {
    if a == [] {
      assert a + b == b;
    } else {
      assert (a + b)[1..] == a[1..] + b;
      RulesOfConcat(a[1..], b);
    }
  }

  lemma {:induction false} RulesOfShifted(blocks: seq<Block>, delta: int)
    requires forall k | 0 <= k < |blocks| :: blocks[k].metaIndex + delta >= 0
    ensures Rules(Shifted(blocks, delta)) == Rules(blocks)
  {
    if blocks != [] {
      assert Shifted(blocks, delta)[1..] == Shifted(blocks[1..], delta);
      RulesOfShifted(blocks[1..], delta);
    }
  }

  lemma DeletedRules(r: Reader, lines: seq<string>, blocks: seq<Block>, k: nat)
    requires ParseFrom(r, lines, 0) == Some(blocks) && k < |blocks| && blocks[k].metaIndex + 1 < |lines|
    ensures RulesIn(r, lines[..blocks[k].metaIndex] + lines[blocks[k].metaIndex + 2..]) ==
            Some(Rules(blocks[..k]) + Rules(blocks[k + 1..]))
  {
    DeletedBlock(r, lines, blocks, k);
    RulesAreOfBlocks(r, lines[..blocks[k].metaIndex] + lines[blocks[k].metaIndex + 2..], 0);
    RulesOfConcat(blocks[..k], Shifted(blocks[k + 1..], -2));
    RulesOfShifted(blocks[k + 1..], -2);
  }
}
