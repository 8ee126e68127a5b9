/** The two validators of cron time fields: validCronField in server/cron.go and
    check_cron_field in config.sh. A field is a list of parts, a part is a base with
    an optional step, a base is `*`, a number or a range. */
module CronFields {
  import opened Optional
  import opened UserIds
  import opened Text

  /** The characters the two validators were written for. */
  predicate FieldChar(c: char) {
    IsDigit(c) || c == '*' || c == '-' || c == '/' || c == ','
  }

  predicate OverFieldChars(s: string) {
    forall i | 0 <= i < |s| :: FieldChar(s[i])
  }

  // ------------------------------------------------------------- server/cron.go

  predicate ValidField(field: string, min: nat, max: nat) {
    field != "" && forall part <- Split(field, ',') :: part != "" && ValidPart(part, min, max)
  }

  predicate ValidPart(part: string, min: nat, max: nat) {
    var k := IndexOf(part, '/');
    if k < |part| then ValidStep(part[k + 1..]) && ValidAtom(part[..k], min, max) else ValidAtom(part, min, max)
  }

  predicate ValidStep(step: string) {
    step != "" && Atoi(step).Some? && Atoi(step).value >= 1
  }

  predicate ValidAtom(atom: string, min: nat, max: nat) {
    var k := IndexOf(atom, '-');
    if atom == "*" then true
    else if k < |atom| then
      var start, end := Atoi(atom[..k]), Atoi(atom[k + 1..]);
      start.Some? && end.Some? && start.value >= min && end.value <= max && start.value <= end.value
    else
      Atoi(atom).Some? && min <= Atoi(atom).value <= max
  }

  // ------------------------------------------------------------- config.sh

  /** `set -- $field` with IFS=",": every comma ends a field, so a comma at the very
      end does not start another one. */
  function ShellWords(s: string): seq<string> {
    var k := IndexOf(s, ',');
    if s == "" then [] else if k == |s| then [s] else [s[..k]] + ShellWords(s[k + 1..])
  }

  /** `test` compares 64-bit numbers and fails on larger ones. */
  predicate ShellAtLeast(value: string, bound: nat) {
    Numeral(value) && bound <= ValueOf(value) <= MAX_INT64
  }

  predicate CheckNumRange(value: string, min: nat, max: nat) {
    ShellAtLeast(value, min) && ValueOf(value) <= max
  }

  /** Where the last `c` is; the length if there is none. */
  function LastIndexOf(s: string, c: char): (k: nat)
    ensures k <= |s| && (k < |s| ==> s[k] == c)
    ensures k < |s| <==> c in s
  {
    if c !in s then |s| else if s[|s| - 1] == c then |s| - 1 else LastIndexOf(s[..|s| - 1], c)
  }

  /** `^[0-9]+-[0-9]+$`: digits around the first dash. */
  predicate LooksLikeRange(atom: string) {
    var k := IndexOf(atom, '-');
    k < |atom| && Numeral(atom[..k]) && Numeral(atom[k + 1..])
  }

  /** `^.+/[0-9]+$`: something before the last slash and digits after it. */
  predicate LooksStepped(part: string) {
    var k := LastIndexOf(part, '/');
    0 < k < |part| && Numeral(part[k + 1..])
  }

  predicate CheckAtom(atom: string, min: nat, max: nat) {
    if atom == "*" then true
    else if Numeral(atom) then CheckNumRange(atom, min, max)
    else if LooksLikeRange(atom) then
      var start, end := atom[..LastIndexOf(atom, '-')], atom[IndexOf(atom, '-') + 1..];
      CheckNumRange(start, min, max) && CheckNumRange(end, min, max) && ValueOf(start) <= ValueOf(end)
    else false
  }

  predicate CheckPart(part: string, min: nat, max: nat) {
    if LooksStepped(part) then
      var k := LastIndexOf(part, '/');
      ShellAtLeast(part[k + 1..], 1) && CheckAtom(part[..k], min, max)
    else
      CheckAtom(part, min, max)
  }

  predicate CheckField(field: string, min: nat, max: nat) {
    field != "" && forall word <- ShellWords(field) :: word != "" && CheckPart(word, min, max)
  }

  // ------------------------------------------------------------- where they agree

  predicate NoDoubleDash(s: string) {
    forall i | 0 <= i < |s| - 1 :: !(s[i] == '-' && s[i + 1] == '-')
  }

  function WithoutLastComma(s: string): string {
    if s != "" && s[|s| - 1] == ',' then s[..|s| - 1] else s
  }

  lemma NumeralParses(s: string)
    requires Numeral(s)
    ensures Atoi(s) == InRange(ValueOf(s)) && '-' !in s && '/' !in s && '*' !in s && ',' !in s
  {
    assert IsDigit(s[0]);
  }

  /** A number text without a sign in front of it is a numeral. */
  lemma UnsignedParses(s: string)
    requires OverFieldChars(s) && (s == "" || s[0] != '-')
    ensures Atoi(s).Some? <==> Numeral(s) && ValueOf(s) <= MAX_INT64
  {
    assert s != "" ==> FieldChar(s[0]);
  }

  lemma {:induction false} LastIndexOfAt(before: string, c: char, after: string)
    requires c !in after
    ensures LastIndexOf(before + [c] + after, c) == |before|
  {
    var s := before + [c] + after;
    assert s[|before|] == c;
    if after != "" {
      assert s[|s| - 1] == after[|after| - 1];
      assert s[..|s| - 1] == before + [c] + after[..|after| - 1];
      LastIndexOfAt(before, c, after[..|after| - 1]);
    }
  }

  lemma LooksLikeRangeAt(atom: string)
    requires LooksLikeRange(atom)
    ensures LastIndexOf(atom, '-') == IndexOf(atom, '-')
  {
    var k := IndexOf(atom, '-');
    NumeralParses(atom[k + 1..]);
    assert atom == atom[..k] + ['-'] + atom[k + 1..];
    LastIndexOfAt(atom[..k], '-', atom[k + 1..]);
  }

  lemma AtomsAgree(atom: string, min: nat, max: nat)
    requires OverFieldChars(atom) && max <= MAX_INT64
    ensures CheckAtom(atom, min, max) <==> ValidAtom(atom, min, max) && NoDoubleDash(atom)
  {
    var k := IndexOf(atom, '-');
    if LooksLikeRange(atom) { LooksLikeRangeAt(atom); }
    if atom != "*" {
      if k == |atom| {
        UnsignedParses(atom);
      } else {
        UnsignedParses(atom[..k]);
        if k + 1 < |atom| && atom[k + 1] == '-' {
          assert !NoDoubleDash(atom);
          assert !IsDigit(atom[k + 1..][0]);
        } else {
          UnsignedParses(atom[k + 1..]);
        }
      }
    }
  }

  lemma SlashIsNoAtom(atom: string, min: nat, max: nat)
    requires '/' in atom
    ensures !CheckAtom(atom, min, max) && !ValidAtom(atom, min, max)
  {
    SlashParsesNot(atom);
    if LooksLikeRange(atom) { LooksLikeRangeAt(atom); }
    var j, k := IndexOf(atom, '/'), IndexOf(atom, '-');
    if j < k < |atom| {
      assert atom[..k][j] == '/';
      SlashParsesNot(atom[..k]);
    } else if k < j {
      assert atom[k + 1..][j - k - 1] == '/';
      SlashParsesNot(atom[k + 1..]);
    }
  }

  lemma SlashParsesNot(s: string)
    ensures '/' in s ==> Atoi(s) == None && !Numeral(s)
  {
    if '/' in s {
      var i :| 0 <= i < |s| && s[i] == '/';
      assert !IsDigit(s[i]);
      assert i > 0 ==> s[1..][i - 1] == '/';
    }
  }

  lemma NoDoubleDashConcat(a: string, c: char, b: string)
    requires c != '-'
    ensures NoDoubleDash(a + [c] + b) <==> NoDoubleDash(a) && NoDoubleDash(b)
  {
    var s := a + [c] + b;
    assert forall i | 0 <= i < |a| :: s[i] == a[i];
    assert s[|a|] == c;
    assert forall i | 0 <= i < |b| :: s[|a| + 1 + i] == b[i];
    if NoDoubleDash(s) {
      forall i | 0 <= i < |b| - 1 ensures !(b[i] == '-' && b[i + 1] == '-') {
        assert s[|a| + 1 + i] == b[i] && s[|a| + 1 + i + 1] == b[i + 1];
      }
    }
    if NoDoubleDash(a) && NoDoubleDash(b) {
      forall i | 0 <= i < |s| - 1 ensures !(s[i] == '-' && s[i + 1] == '-') {
        if i > |a| { assert s[i] == b[i - |a| - 1] && s[i + 1] == b[i - |a|]; }
      }
    }
  }

  lemma NoDoubleDashAround(s: string, k: nat)
    requires k < |s| && s[k] != '-'
    ensures NoDoubleDash(s) <==> NoDoubleDash(s[..k]) && NoDoubleDash(s[k + 1..])
  {
    assert s == s[..k] + [s[k]] + s[k + 1..];
    NoDoubleDashConcat(s[..k], s[k], s[k + 1..]);
  }

  /** A step is a numeral from 1 on for both. */
  lemma StepsAgree(step: string)
    requires OverFieldChars(step)
    ensures ValidStep(step) <==> ShellAtLeast(step, 1)
  {
    if step != "" && step[0] == '-' {
      assert !IsDigit(step[0]);
    } else {
      UnsignedParses(step);
    }
  }

  lemma PartsAgree(part: string, min: nat, max: nat)
    requires OverFieldChars(part) && max <= MAX_INT64
    ensures CheckPart(part, min, max) <==> ValidPart(part, min, max) && NoDoubleDash(part)
  {
    var first, last := IndexOf(part, '/'), LastIndexOf(part, '/');
    if first == |part| {
      AtomsAgree(part, min, max);
    } else if first == last {
      SteppedAgree(part, min, max);
    } else {
      SlashIsNoAtom(part, min, max);
      assert part[..last][first] == '/';
      SlashIsNoAtom(part[..last], min, max);
      assert part[first + 1..][last - first - 1] == '/';
      SlashParsesNot(part[first + 1..]);
    }
  }

  lemma ShellStepped(part: string, min: nat, max: nat)
    requires IndexOf(part, '/') == LastIndexOf(part, '/') < |part|
    ensures var k := IndexOf(part, '/');
            CheckPart(part, min, max) <==> ShellAtLeast(part[k + 1..], 1) && CheckAtom(part[..k], min, max)
  {
    SlashIsNoAtom(part, min, max);
    if LooksStepped(part) {
    } else if IndexOf(part, '/') == 0 {
      assert !LooksLikeRange(part[..0]);
    }
  }

  lemma GoStepped(part: string, min: nat, max: nat)
    requires IndexOf(part, '/') < |part|
    ensures var k := IndexOf(part, '/');
            ValidPart(part, min, max) <==> ValidStep(part[k + 1..]) && ValidAtom(part[..k], min, max)
  {
  }

  lemma SteppedAgree(part: string, min: nat, max: nat)
    requires OverFieldChars(part) && max <= MAX_INT64
    requires IndexOf(part, '/') == LastIndexOf(part, '/') < |part|
    ensures CheckPart(part, min, max) <==> ValidPart(part, min, max) && NoDoubleDash(part)
  {
    var k := IndexOf(part, '/');
    ShellStepped(part, min, max);
    GoStepped(part, min, max);
    BaseAndStepAgree(part[..k], part[k + 1..], min, max);
    NoDoubleDashAround(part, k);
  }

  lemma BaseAndStepAgree(base: string, step: string, min: nat, max: nat)
    requires OverFieldChars(base) && OverFieldChars(step) && max <= MAX_INT64
    ensures ShellAtLeast(step, 1) && CheckAtom(base, min, max) <==>
            ValidStep(step) && ValidAtom(base, min, max) && NoDoubleDash(base) && NoDoubleDash(step)
  {
    StepsAgree(step);
    AtomsAgree(base, min, max);
    if ShellAtLeast(step, 1) { NumeralHasNoDash(step); }
  }

  lemma NumeralHasNoDash(s: string)
    requires Numeral(s)
    ensures NoDoubleDash(s)
  {
    forall i | 0 <= i < |s| ensures s[i] != '-' { assert IsDigit(s[i]); }
  }

  /** Splitting at commas and word splitting differ in a last comma only. */
  lemma {:induction false} WordsAreParts(s: string)
    requires s != ""
    ensures ShellWords(s) == Split(WithoutLastComma(s), ',')
  {
    var k := IndexOf(s, ',');
    if k == |s| {
      assert WithoutLastComma(s) == s;
    } else if k + 1 == |s| {
      assert WithoutLastComma(s) == s[..k];
      assert IndexOf(s[..k], ',') == |s[..k]|;
    } else {
      var front, tail := s[..k], s[k + 1..];
      CutLater(s, k);
      WordsAreParts(tail);
      SplitAtFirst(front, ',', WithoutLastComma(tail));
      WordsFirst(s, k);
    }
  }

  lemma WordsFirst(s: string, k: nat)
    requires k < |s| && k == IndexOf(s, ',')
    ensures ShellWords(s) == [s[..k]] + ShellWords(s[k + 1..])
  {
  }

  lemma CutLater(s: string, k: nat)
    requires k + 1 < |s| && s[k] == ','
    ensures WithoutLastComma(s) == s[..k] + [','] + WithoutLastComma(s[k + 1..])
  {
    assert s[k + 1..][|s| - k - 2] == s[|s| - 1];
  }

  ghost predicate AllNoDoubleDash(parts: seq<string>) {
    forall part <- parts :: NoDoubleDash(part)
  }

  ghost predicate AllPlain(parts: seq<string>) {
    forall part <- parts :: OverFieldChars(part)
  }

  lemma {:induction false} SplitIsPlain(s: string)
    requires OverFieldChars(s)
    ensures AllPlain(Split(s, ','))
  {
    var k := IndexOf(s, ',');
    if k < |s| { SplitIsPlain(s[k + 1..]); }
  }

  lemma NoDoubleDashCons(first: string, rest: seq<string>)
    ensures AllNoDoubleDash([first] + rest) <==> NoDoubleDash(first) && AllNoDoubleDash(rest)
  {
    assert ([first] + rest)[0] == first && ([first] + rest)[1..] == rest;
  }

  lemma {:induction false} SplitKeepsDashes(s: string)
    ensures NoDoubleDash(s) <==> AllNoDoubleDash(Split(s, ','))
  {
    var k := IndexOf(s, ',');
    if k < |s| {
      SplitKeepsDashes(s[k + 1..]);
      NoDoubleDashAround(s, k);
      NoDoubleDashCons(s[..k], Split(s[k + 1..], ','));
    }
  }

  lemma PlainAgree(field: string, min: nat, max: nat)
    requires OverFieldChars(field) && max <= MAX_INT64
    ensures CheckField(field, min, max) <==> ValidField(WithoutLastComma(field), min, max) && NoDoubleDash(field)
  {
    if field != "" {
      var cut := WithoutLastComma(field);
      WordsAreParts(field);
      SplitIsPlain(cut);
      SplitKeepsDashes(cut);
      assert NoDoubleDash(field) <==> NoDoubleDash(cut) by {
        if cut != field {
          NoDoubleDashAround(field, |field| - 1);
          assert field[|field|..] == "";
        }
      }
      forall part <- Split(cut, ',')
        ensures CheckPart(part, min, max) <==> ValidPart(part, min, max) && NoDoubleDash(part)
      {
        PartsAgree(part, min, max);
      }
    }
  }

  // ------------------------------------------------------------- what fields consist of

  /** Field characters, or the sign that strconv.Atoi allows. */
  predicate OverSigned(s: string) {
    forall i | 0 <= i < |s| :: FieldChar(s[i]) || s[i] == '+'
  }

  lemma NumberIsSigned(s: string)
    requires Atoi(s).Some?
    ensures OverSigned(s)
  {
    forall i | 0 <= i < |s| ensures FieldChar(s[i]) || s[i] == '+' {
      if i > 0 { assert s[i] == s[1..][i - 1]; }
    }
  }

  lemma OverSignedAround(a: string, c: char, b: string)
    requires OverSigned(a) && FieldChar(c) && OverSigned(b)
    ensures OverSigned(a + [c] + b)
  {
  }

  lemma AtomIsSigned(atom: string, min: nat, max: nat)
    requires ValidAtom(atom, min, max)
    ensures OverSigned(atom)
  {
    var k := IndexOf(atom, '-');
    if atom == "*" {
    } else if k < |atom| {
      NumberIsSigned(atom[..k]);
      NumberIsSigned(atom[k + 1..]);
      OverSignedAround(atom[..k], '-', atom[k + 1..]);
      assert atom == atom[..k] + ['-'] + atom[k + 1..];
    } else {
      NumberIsSigned(atom);
    }
  }

  lemma PartIsSigned(part: string, min: nat, max: nat)
    requires ValidPart(part, min, max)
    ensures OverSigned(part)
  {
    var k := IndexOf(part, '/');
    if k < |part| {
      NumberIsSigned(part[k + 1..]);
      AtomIsSigned(part[..k], min, max);
      OverSignedAround(part[..k], '/', part[k + 1..]);
      assert part == part[..k] + ['/'] + part[k + 1..];
    } else {
      AtomIsSigned(part, min, max);
    }
  }

  /** Nothing but field characters and plus signs passes the Go validator. */
  lemma FieldIsSigned(field: string, min: nat, max: nat)
    requires ValidField(field, min, max)
    ensures OverSigned(field)
  {
    forall part <- Split(field, ',') ensures OverSigned(part) { PartIsSigned(part, min, max); }
    PartsAreSigned(field);
  }

  lemma {:induction false} PartsAreSigned(s: string)
    requires forall part <- Split(s, ',') :: OverSigned(part)
    ensures OverSigned(s)
  {
    var k := IndexOf(s, ',');
    assert Split(s, ',')[0] == s[..k];
    if k < |s| {
      assert Split(s, ',')[1..] == Split(s[k + 1..], ',');
      PartsAreSigned(s[k + 1..]);
      OverSignedAround(s[..k], ',', s[k + 1..]);
      assert s == s[..k] + [','] + s[k + 1..];
    } else {
      assert s[..k] == s;
    }
  }

  /** An accepted field is one word of its line. */
  lemma AcceptedFieldsAreTokens(field: string, min: nat, max: nat)
    requires ValidField(field, min, max)
    ensures IsToken(field)
  {
    FieldIsSigned(field, min, max);
  }

  lemma NumeralIsPlain(s: string)
    requires Numeral(s)
    ensures OverFieldChars(s)
  {
  }

  lemma CheckedAtomIsPlain(atom: string, min: nat, max: nat)
    requires CheckAtom(atom, min, max)
    ensures OverFieldChars(atom)
  {
    if atom != "*" && !Numeral(atom) {
      var k := IndexOf(atom, '-');
      NumeralIsPlain(atom[..k]);
      NumeralIsPlain(atom[k + 1..]);
      assert atom == atom[..k] + ['-'] + atom[k + 1..];
    }
  }

  lemma CheckedPartIsPlain(part: string, min: nat, max: nat)
    requires CheckPart(part, min, max)
    ensures OverFieldChars(part)
  {
    if LooksStepped(part) {
      var k := LastIndexOf(part, '/');
      CheckedAtomIsPlain(part[..k], min, max);
      NumeralIsPlain(part[k + 1..]);
      assert part == part[..k] + ['/'] + part[k + 1..];
    } else {
      CheckedAtomIsPlain(part, min, max);
    }
  }

  lemma PlainAround(a: string, c: char, b: string)
    requires OverFieldChars(a) && FieldChar(c) && OverFieldChars(b)
    ensures OverFieldChars(a + [c] + b)
  {
  }

  lemma AllPlainConcat(first: string, rest: seq<string>)
    requires AllPlain([first] + rest)
    ensures OverFieldChars(first) && AllPlain(rest)
  {
    assert ([first] + rest)[0] == first;
    forall part <- rest ensures OverFieldChars(part) { assert part in [first] + rest; }
  }

  lemma {:induction false} PlainPartsArePlain(s: string)
    requires AllPlain(Split(s, ','))
    ensures OverFieldChars(s)
  {
    var k := IndexOf(s, ',');
    if k < |s| {
      AllPlainConcat(s[..k], Split(s[k + 1..], ','));
      PlainPartsArePlain(s[k + 1..]);
      PlainAround(s[..k], ',', s[k + 1..]);
      assert s == s[..k] + [','] + s[k + 1..];
    } else {
      assert Split(s, ',')[0] == s;
    }
  }

  lemma PlainWithComma(s: string)
    requires OverFieldChars(WithoutLastComma(s))
    ensures OverFieldChars(s)
  {
    var cut := WithoutLastComma(s);
    forall i | 0 <= i < |s| ensures FieldChar(s[i]) { if i < |cut| { assert s[i] == cut[i]; } }
  }

  lemma CheckedWordsArePlain(words: seq<string>, min: nat, max: nat)
    requires forall word <- words :: CheckPart(word, min, max)
    ensures AllPlain(words)
  {
    forall word <- words ensures OverFieldChars(word) { CheckedPartIsPlain(word, min, max); }
  }

  /** Nothing but field characters passes the shell validator. */
  lemma CheckedFieldIsPlain(field: string, min: nat, max: nat)
    requires CheckField(field, min, max)
    ensures OverFieldChars(field)
  {
    CheckedWordsArePlain(ShellWords(field), min, max);
    WordsAreParts(field);
    PlainPartsArePlain(WithoutLastComma(field));
    PlainWithComma(field);
  }

  lemma SignedWithoutPlus(s: string)
    requires OverSigned(s) && '+' !in s
    ensures OverFieldChars(s)
  {
  }

  /** The shell validator accepts a word exactly when the Go validator accepts it
      without a comma at its end, if there is one, and it has no two dashes in a row
      and no plus sign. */
  lemma ValidatorsAgree(field: string, min: nat, max: nat)
    requires NoSpace(field) && max <= MAX_INT64
    ensures CheckField(field, min, max) <==>
            ValidField(WithoutLastComma(field), min, max) && NoDoubleDash(field) && '+' !in field
  {
    if CheckField(field, min, max) { CheckedFieldIsPlain(field, min, max); }
    if ValidField(WithoutLastComma(field), min, max) && '+' !in field {
      FieldIsSigned(WithoutLastComma(field), min, max);
      SignedWithoutPlus(WithoutLastComma(field));
    }
    if OverFieldChars(field) { PlainAgree(field, min, max); }
  }

  /** The differences are real: each of these is accepted by one validator only. */
  lemma ValidatorsDiffer()
    ensures ValidField("0--0", 0, 59) && !CheckField("0--0", 0, 59)
    ensures ValidField("+5", 0, 59) && !CheckField("+5", 0, 59)
    ensures !ValidField("5,", 0, 59) && CheckField("5,", 0, 59)
  {
    RangeToMinusZero();
    assert WithoutLastComma("0--0") == "0--0";
    ValidatorsAgree("0--0", 0, 59);
    assert "0--0"[1] == '-' && "0--0"[2] == '-';
    PlusIsNumber();
    assert WithoutLastComma("+5") == "+5" && "+5"[0] == '+';
    ValidatorsAgree("+5", 0, 59);
    LastCommaOnly();
  }

  lemma RangeToMinusZero()
    ensures ValidField("0--0", 0, 59)
  {
    IndexOfAt("0", '-', "-0");
    assert "0" + ['-'] + "-0" == "0--0";
    assert "0--0"[..1] == "0" && "0--0"[2..] == "-0" && "-0"[1..] == "0";
    DecimalValue(0);
    assert Atoi("0") == Some(0) && Atoi("-0") == Some(0);
    assert ValidAtom("0--0", 0, 59);
    assert IndexOf("0--0", '/') == 4 && IndexOf("0--0", ',') == 4;
  }

  lemma PlusIsNumber()
    ensures ValidField("+5", 0, 59)
  {
    assert "+5"[1..] == "5";
    DecimalValue(5);
    assert Atoi("+5") == Some(5);
    assert IndexOf("+5", '-') == 2 && IndexOf("+5", '/') == 2 && IndexOf("+5", ',') == 2;
    assert ValidPart("+5", 0, 59);
  }

  lemma LastCommaOnly()
    ensures !ValidField("5,", 0, 59) && CheckField("5,", 0, 59)
  {
    IndexOfAt("5", ',', "");
    assert "5" + [','] + "" == "5," && "5,"[..1] == "5" && "5,"[2..] == "";
    assert Split("5,", ',')[1] == "";
    assert "" in Split("5,", ',');
    assert ShellWords("5,") == ["5"];
    DecimalValue(5);
    assert Numeral("5") && ValueOf("5") == 5;
    assert LastIndexOf("5", '/') == 1;
  }

  // ------------------------------------------------------------- what fields mean

  /** The values a base stands for, from the first to the last. */
  function Bounds(atom: string, min: nat, max: nat): (int, int)
    requires ValidAtom(atom, min, max)
  {
    var k := IndexOf(atom, '-');
    if atom == "*" then (min, max)
    else if k < |atom| then (Atoi(atom[..k]).value, Atoi(atom[k + 1..]).value)
    else (Atoi(atom).value, Atoi(atom).value)
  }

  function BaseOf(part: string): string {
    if '/' in part then part[..IndexOf(part, '/')] else part
  }

  function StepOf(part: string, min: nat, max: nat): (step: int)
    requires ValidPart(part, min, max)
    ensures step >= 1 && ValidAtom(BaseOf(part), min, max)
  {
    if '/' in part then Atoi(part[IndexOf(part, '/') + 1..]).value else 1
  }

  /** The values a part stands for: every step-th one from the base's first on. */
  predicate PartHas(part: string, min: nat, max: nat, value: int)
    requires ValidPart(part, min, max)
  {
    var step := StepOf(part, min, max);
    var bounds := Bounds(BaseOf(part), min, max);
    bounds.0 <= value <= bounds.1 && (value - bounds.0) % step == 0
  }

  ghost predicate FieldHas(field: string, min: nat, max: nat, value: int) {
    exists part <- Split(field, ',') :: ValidPart(part, min, max) && PartHas(part, min, max, value)
  }

  lemma BoundsAreInRange(atom: string, min: nat, max: nat)
    requires min <= max && ValidAtom(atom, min, max)
    ensures min <= Bounds(atom, min, max).0 <= Bounds(atom, min, max).1 <= max
  {
  }

  lemma PartMeansSomething(part: string, min: nat, max: nat)
    requires min <= max && ValidPart(part, min, max)
    ensures PartHas(part, min, max, Bounds(BaseOf(part), min, max).0)
    ensures forall value | PartHas(part, min, max, value) :: min <= value <= max
  {
    var step := StepOf(part, min, max);
    BoundsAreInRange(BaseOf(part), min, max);
    assert 0 % step == 0;
  }

  /** An accepted field stands for at least one value, and for none outside the
      range. */
  lemma AcceptedFieldsMeanSomething(field: string, min: nat, max: nat)
    requires min <= max && ValidField(field, min, max)
    ensures exists value :: FieldHas(field, min, max, value)
    ensures forall value | FieldHas(field, min, max, value) :: min <= value <= max
  {
    var part := Split(field, ',')[0];
    assert ValidPart(part, min, max);
    PartMeansSomething(part, min, max);
    assert FieldHas(field, min, max, Bounds(BaseOf(part), min, max).0);
    forall value | FieldHas(field, min, max, value) ensures min <= value <= max {
      var p :| p in Split(field, ',') && ValidPart(p, min, max) && PartHas(p, min, max, value);
      PartMeansSomething(p, min, max);
    }
  }
}
