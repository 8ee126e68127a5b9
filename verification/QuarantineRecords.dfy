/** Quarantine records: one line with the quoted source path and the owner
    (written by quarantine_detected_file in scan_once.sh, read by
    parseQuotedRecord in server/quarantine.go), and the names files get in the
    quarantine directory (reserve_quarantine_name in scan_once.sh). */
module QuarantineRecords {
  import opened UserIds
  import opened Text

  datatype Record = Invalid | Record(source: string, owner: string)

  const SUFFIX: string := ".rec"
  const LOCK_NAME: string := "clamav-quarantine-lock"

  function PrintRecord(source: string, owner: string): string {
    [QUOTE] + source + [QUOTE] + " " + owner + "\n"
  }

  function ParseRecord(text: string): Record {
    var value := TrimSpace(text);
    if value == "" || value[0] != QUOTE then Invalid else ParseAfterQuote(value[1..])
  }

  function ParseAfterQuote(rest: string): Record {
    var end := IndexOf(rest, QUOTE);
    if end == |rest| then Invalid else ParseOwner(rest[..end], rest[end + 1..])
  }

  function ParseOwner(source: string, tail: string): Record {
    var fields := Fields(tail);
    if |fields| != 1 || !ValidUserId(fields[0]) then Invalid else Record(source, fields[0])
  }

  lemma AtQuote(source: string, tail: string)
    requires QUOTE !in source
    ensures ParseAfterQuote(source + [QUOTE] + tail) == ParseOwner(source, tail)
  {
    IndexOfAt(source, QUOTE, tail);
    var rest := source + [QUOTE] + tail;
    assert rest[..|source|] == source && rest[|source| + 1..] == tail;
  }

  lemma OwnerAlone(source: string, owner: string)
    requires ValidUserId(owner)
    ensures ParseOwner(source, [' '] + owner) == Record(source, owner)
  {
    UserIdIsToken(owner);
    FieldsOfToken(owner);
    assert ([' '] + owner)[1..] == owner;
  }

  lemma OwnerNotAlone(source: string, tail: string, owner: string)
    requires ValidUserId(owner) && !AllSpace(tail)
    ensures ParseOwner(source, tail + [' '] + owner) == Invalid
  {
    UserIdIsToken(owner);
    FieldsOfToken(owner);
    FieldsConcat(tail, ' ', owner);
    FieldsOfSpace(tail);
  }

  lemma PrintTrims(source: string, owner: string)
    requires ValidUserId(owner)
    ensures ParseRecord(PrintRecord(source, owner)) == ParseAfterQuote(source + [QUOTE] + ([' '] + owner))
  {
    UserIdIsToken(owner);
    var line := [QUOTE] + (source + [QUOTE] + ([' '] + owner));
    assert line[|line| - 1] == owner[|owner| - 1];
    TrimExact("", line, "\n");
    assert "" + line + "\n" == PrintRecord(source, owner);
  }

  /** Reading a written record: a path without a double quote comes back as it was,
      and any other is refused, never misread. */
  lemma ParseOfPrint(source: string, owner: string)
    requires ValidUserId(owner)
    ensures ParseRecord(PrintRecord(source, owner)) == if QUOTE in source then Invalid else Record(source, owner)
  {
    PrintTrims(source, owner);
    var k := IndexOf(source, QUOTE);
    if k == |source| {
      assert source[..k] == source;
      AtQuote(source, [' '] + owner);
      OwnerAlone(source, owner);
    } else {
      QuoteInside(source, k, owner);
    }
  }

  lemma QuoteInside(source: string, k: nat, owner: string)
    requires ValidUserId(owner) && k < |source| && source[k] == QUOTE && QUOTE !in source[..k]
    ensures ParseAfterQuote(source + [QUOTE] + ([' '] + owner)) == Invalid
  {
    var tail := source[k + 1..] + [QUOTE];
    assert source + [QUOTE] + ([' '] + owner) == source[..k] + [QUOTE] + (tail + [' '] + owner);
    AtQuote(source[..k], tail + [' '] + owner);
    assert !IsSpace(tail[|tail| - 1]);
    OwnerNotAlone(source[..k], tail, owner);
  }

  /** What is read is a path without a quote and a well-formed owner; an empty
      record, which only reserves a name, is not readable. */
  lemma ParseIsSafe(text: string)
    ensures ParseRecord(text).Record? ==> QUOTE !in ParseRecord(text).source && ValidUserId(ParseRecord(text).owner)
    ensures AllSpace(text) ==> ParseRecord(text) == Invalid
  {
    if AllSpace(text) {
      TrimExact(text, "", "");
      assert text + "" + "" == text;
    }
  }

  // ------------------------------------------------------------- names

  /** basename of a path, without the newlines that command substitution drops. */
  function BaseName(path: string): string {
    WithoutNewlines(AfterSlash(path))
  }

  function AfterSlash(path: string): string {
    var k := IndexOf(path, '/');
    if k == |path| then path else AfterSlash(path[k + 1..])
  }

  function WithoutNewlines(s: string): string {
    if s != "" && s[|s| - 1] == '\n' then WithoutNewlines(s[..|s| - 1]) else s
  }

  predicate HasSuffix(s: string, suffix: string) {
    |s| >= |suffix| && s[|s| - |suffix|..] == suffix
  }

  /** printf '%03d'. */
  function Serial(n: nat): string {
    if n < 10 then "00" + Decimal(n) else if n < 100 then "0" + Decimal(n) else Decimal(n)
  }

  function FirstIndex(base: string): nat {
    if HasSuffix(base, SUFFIX) || base == LOCK_NAME then 1 else 0
  }

  function NameAt(base: string, index: nat): string {
    if index == 0 then base else base + "." + Serial(index)
  }

  /** A name the listing and the delete and recover requests take for a file. */
  predicate DataName(name: string) {
    !HasSuffix(name, SUFFIX) && name != LOCK_NAME
  }

  /** The name and the name of its record are short enough for the file system. */
  predicate Fits(name: string, nameMax: nat) {
    |name| <= nameMax && |name| + |SUFFIX| <= nameMax
  }

  lemma SerialDigits(n: nat)
    ensures Numeral(Serial(n))
  {
  }

  /** Data names and record names never collide. */
  lemma NameIsDataName(base: string, index: nat)
    requires index >= FirstIndex(base)
    ensures DataName(NameAt(base, index))
    ensures forall other: string :: NameAt(base, index) != other + SUFFIX
  {
    var name := NameAt(base, index);
    if index > 0 {
      SerialDigits(index);
      assert name[|name| - 1] == Serial(index)[|Serial(index)| - 1];
      assert IsDigit(name[|name| - 1]);
    }
    forall other: string ensures name != other + SUFFIX {
      assert HasSuffix(other + SUFFIX, SUFFIX);
    }
  }

  function Pow10(n: nat): nat {
    if n == 0 then 1 else 10 * Pow10(n - 1)
  }

  lemma {:induction false} ValueBound(s: string)
    requires forall i | 0 <= i < |s| :: IsDigit(s[i])
    ensures ValueOf(s) < Pow10(|s|)
  {
    if s != "" { ValueBound(s[..|s| - 1]); }
  }

  lemma SerialValue(n: nat)
    ensures Numeral(Serial(n)) && ValueOf(Serial(n)) == n
  {
    DecimalValue(n);
    LeadingZero(Decimal(n));
    LeadingZero("0" + Decimal(n));
    assert "0" + ("0" + Decimal(n)) == "00" + Decimal(n);
  }

  lemma {:induction false} Pow10Grows(a: nat, b: nat)
    requires a <= b
    ensures Pow10(a) <= Pow10(b)
  {
    if a < b { Pow10Grows(a, b - 1); }
  }

  /** A name that fits has a bounded serial number, so the search for one ends. */
  lemma IndexBound(base: string, index: nat, nameMax: nat)
    requires |NameAt(base, index)| <= nameMax
    ensures index < Pow10(nameMax)
  {
    if index > 0 {
      SerialValue(index);
      ValueBound(Serial(index));
      Pow10Grows(|Serial(index)|, nameMax);
    } else {
      Pow10Grows(0, nameMax);
    }
  }
}
