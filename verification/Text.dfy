/** The string functions the text formats are built from: trimming, fields, the
    first occurrence of a character, and decimal numerals (package strings and
    package strconv of Go). */
module Text {
  import opened Optional
  import opened UserIds

  const QUOTE: char := '"'

  /** unicode.IsSpace. */
  predicate IsSpace(c: char) {
    || c == ' ' || '\U{0009}' <= c <= '\U{000D}' || c == '\U{0085}' || c == '\U{00A0}' || c == '\U{1680}'
    || '\U{2000}' <= c <= '\U{200A}' || c == '\U{2028}' || c == '\U{2029}' || c == '\U{202F}'
    || c == '\U{205F}' || c == '\U{3000}'
  }

  predicate AllSpace(s: string) {
    forall i | 0 <= i < |s| :: IsSpace(s[i])
  }

  predicate NoSpace(s: string) {
    forall i | 0 <= i < |s| :: !IsSpace(s[i])
  }

  /** A field as strings.Fields cuts them out. */
  predicate IsToken(s: string) {
    s != "" && NoSpace(s)
  }

  /** Nothing for TrimSpace to take off. */
  predicate Trimmed(s: string) {
    s == "" || (!IsSpace(s[0]) && !IsSpace(s[|s| - 1]))
  }

  predicate EndsInCr(line: string) {
    line != "" && line[|line| - 1] == '\r'
  }

  function TrimLeft(s: string): string {
    if s != "" && IsSpace(s[0]) then TrimLeft(s[1..]) else s
  }

  function TrimRight(s: string): string {
    if s != "" && IsSpace(s[|s| - 1]) then TrimRight(s[..|s| - 1]) else s
  }

  function TrimSpace(s: string): string {
    TrimRight(TrimLeft(s))
  }

  /** Where the first `c` is; the length if there is none. */
  function IndexOf(s: string, c: char): (k: nat)
    ensures k <= |s| && (k < |s| ==> s[k] == c) && c !in s[..k]
    ensures k < |s| <==> c in s
  {
    if s == "" || s[0] == c then 0 else 1 + IndexOf(s[1..], c)
  }

  function TokenLength(s: string): (k: nat)
    ensures k <= |s| && NoSpace(s[..k]) && (k < |s| ==> IsSpace(s[k]))
  {
    if s == "" || IsSpace(s[0]) then 0 else 1 + TokenLength(s[1..])
  }

  /** strings.Split. */
  function Split(s: string, c: char): (parts: seq<string>)
    ensures parts != []
  {
    var k := IndexOf(s, c);
    if k == |s| then [s] else [s[..k]] + Split(s[k + 1..], c)
  }

  /** strings.Fields. */
  function Fields(s: string): seq<string> {
    if s == "" then []
    else if IsSpace(s[0]) then Fields(s[1..])
    else [s[..TokenLength(s)]] + Fields(s[TokenLength(s)..])
  }

  lemma IndexOfAt(before: string, c: char, after: string)
    requires c !in before
    ensures IndexOf(before + [c] + after, c) == |before|
  {
    var s := before + [c] + after;
    assert s[|before|] == c;
    assert s[..|before|] == before;
  }

  lemma IndexOfNone(s: string, c: char)
    requires c !in s
    ensures IndexOf(s, c) == |s| && Split(s, c) == [s]
  {
  }

  /** The first part of a split text. */
  lemma SplitAtFirst(front: string, c: char, tail: string)
    requires c !in front
    ensures Split(front + [c] + tail, c) == [front] + Split(tail, c)
  {
    var text := front + [c] + tail;
    IndexOfAt(front, c, tail);
    assert text[..|front|] == front && text[|front| + 1..] == tail;
  }

  lemma {:induction false} TrimLeftDrops(left: string, s: string)
    requires AllSpace(left) && (s == "" || !IsSpace(s[0]))
    ensures TrimLeft(left + s) == s
  {
    if left == "" {
      assert left + s == s;
    } else {
      assert (left + s)[1..] == left[1..] + s;
      TrimLeftDrops(left[1..], s);
    }
  }

  lemma {:induction false} TrimRightDrops(s: string, right: string)
    requires AllSpace(right) && (s == "" || !IsSpace(s[|s| - 1]))
    ensures TrimRight(s + right) == s
  {
    if right == "" {
      assert s + right == s;
    } else {
      assert (s + right)[..|s + right| - 1] == s + right[..|right| - 1];
      TrimRightDrops(s, right[..|right| - 1]);
    }
  }

  /** TrimSpace takes off the white space around a trimmed text. */
  lemma TrimExact(left: string, s: string, right: string)
    requires AllSpace(left) && AllSpace(right) && Trimmed(s)
    ensures TrimSpace(left + s + right) == s
  {
    if s == "" {
      assert left + s + right == left + right + "";
      TrimLeftDrops(left + right, "");
    } else {
      assert left + s + right == left + (s + right);
      TrimLeftDrops(left, s + right);
      TrimRightDrops(s, right);
    }
  }

  lemma TrimOfTrimmed(s: string)
    requires Trimmed(s)
    ensures TrimSpace(s) == s
  {
    TrimExact("", s, "");
    assert "" + s + "" == s;
  }

  lemma {:induction false} TrimLeftSplits(s: string) returns (left: string)
    ensures AllSpace(left) && s == left + TrimLeft(s)
    ensures TrimLeft(s) == "" || !IsSpace(TrimLeft(s)[0])
  {
    if s != "" && IsSpace(s[0]) {
      var rest := TrimLeftSplits(s[1..]);
      left := [s[0]] + rest;
    } else {
      left := "";
    }
  }

  lemma {:induction false} TrimRightSplits(s: string) returns (right: string)
    ensures AllSpace(right) && s == TrimRight(s) + right
    ensures TrimRight(s) == "" || !IsSpace(TrimRight(s)[|TrimRight(s)| - 1])
  {
    if s != "" && IsSpace(s[|s| - 1]) {
      var rest := TrimRightSplits(s[..|s| - 1]);
      right := rest + [s[|s| - 1]];
    } else {
      right := "";
    }
  }

  /** Any text is its trimmed text between white space. */
  lemma TrimSplits(s: string) returns (left: string, right: string)
    ensures AllSpace(left) && AllSpace(right) && Trimmed(TrimSpace(s))
    ensures s == left + TrimSpace(s) + right
  {
    left := TrimLeftSplits(s);
    right := TrimRightSplits(TrimLeft(s));
  }

  lemma TokenLengthIs(token: string, rest: string)
    requires NoSpace(token) && (rest == "" || IsSpace(rest[0]))
    ensures TokenLength(token + rest) == |token|
  {
    var s := token + rest;
    assert s[..|token|] == token;
    assert rest != "" ==> s[|token|] == rest[0];
  }

  /** A token at the front is the first field. */
  lemma FieldsToken(token: string, rest: string)
    requires IsToken(token) && (rest == "" || IsSpace(rest[0]))
    ensures Fields(token + rest) == [token] + Fields(rest)
  {
    TokenLengthIs(token, rest);
    assert (token + rest)[..|token|] == token && (token + rest)[|token|..] == rest;
  }

  /** Separating white space starts a new list of fields. */
  lemma {:induction false} FieldsConcat(a: string, space: char, b: string)
    requires IsSpace(space)
    ensures Fields(a + [space] + b) == Fields(a) + Fields(b)
    decreases |a|
  {
    var s := a + [space] + b;
    if a == "" {
      assert s == [space] + b && s[1..] == b;
    } else if IsSpace(a[0]) {
      assert s[1..] == a[1..] + [space] + b;
      FieldsConcat(a[1..], space, b);
    } else {
      var k := TokenLength(a);
      FieldsConcat(a[k..], space, b);
      assert a[..k][0] == a[0];
      FieldsAfterToken(a[..k], a[k..], a[k..] + [space] + b, Fields(b));
      assert a == a[..k] + a[k..] && s == a[..k] + (a[k..] + [space] + b);
    }
  }

  /** The same token in front of both sides. */
  lemma FieldsAfterToken(token: string, rest: string, tail: string, more: seq<string>)
    requires IsToken(token) && (rest == "" || IsSpace(rest[0])) && (tail == "" || IsSpace(tail[0]))
    requires Fields(tail) == Fields(rest) + more
    ensures Fields(token + tail) == Fields(token + rest) + more
  {
    FieldsToken(token, rest);
    FieldsToken(token, tail);
    FirstOfAll(token, Fields(rest), more);
  }

  lemma FirstOfAll(first: string, middle: seq<string>, last: seq<string>)
    ensures [first] + (middle + last) == [first] + middle + last
  {
  }

  lemma {:induction false} FieldsOfSpace(s: string)
    ensures Fields(s) == [] <==> AllSpace(s)
  {
    if s != "" && IsSpace(s[0]) {
      FieldsOfSpace(s[1..]);
      assert AllSpace(s) <==> AllSpace(s[1..]) by {
        if AllSpace(s[1..]) {
          forall i | 0 <= i < |s| ensures IsSpace(s[i]) { if i > 0 { assert s[i] == s[1..][i - 1]; } }
        }
      }
    }
  }

  lemma FieldsOfToken(token: string)
    requires IsToken(token)
    ensures Fields(token) == [token]
  {
    FieldsToken(token, "");
    assert token + "" == token;
  }

  lemma {:induction false} FieldsAreTokens(s: string)
    ensures forall field <- Fields(s) :: IsToken(field)
  {
    if s != "" {
      if IsSpace(s[0]) {
        FieldsAreTokens(s[1..]);
      } else {
        assert s[..TokenLength(s)][0] == s[0];
        FieldsAreTokens(s[TokenLength(s)..]);
      }
    }
  }

  lemma UserIdIsToken(id: string)
    requires ValidUserId(id)
    ensures IsToken(id)
  {
    forall i | 0 <= i < |id| ensures !IsSpace(id[i]) {
      assert IsLower(id[i]) || IsDigit(id[i]);
    }
  }

  // ------------------------------------------------------------- numerals

  function Digit(d: nat): char
    requires d < 10
  {
    '0' + d as char
  }

  function DigitValue(c: char): nat
    requires IsDigit(c)
  {
    c as nat - '0' as nat
  }

  function Decimal(n: nat): (s: string)
    ensures s != "" && forall i | 0 <= i < |s| :: IsDigit(s[i])
  {
    if n < 10 then [Digit(n)] else Decimal(n / 10) + [Digit(n % 10)]
  }

  predicate Numeral(s: string) {
    s != "" && forall i | 0 <= i < |s| :: IsDigit(s[i])
  }

  function ValueOf(s: string): nat
    requires forall i | 0 <= i < |s| :: IsDigit(s[i])
  {
    if s == "" then 0 else 10 * ValueOf(s[..|s| - 1]) + DigitValue(s[|s| - 1])
  }

  lemma {:induction false} DecimalValue(n: nat)
    ensures ValueOf(Decimal(n)) == n
  {
    if n >= 10 {
      DecimalValue(n / 10);
      assert Decimal(n)[..|Decimal(n)| - 1] == Decimal(n / 10);
    } else {
      assert Decimal(n)[..0] == "";
    }
  }

  lemma {:induction false} LeadingZero(s: string)
    requires forall i | 0 <= i < |s| :: IsDigit(s[i])
    ensures ValueOf("0" + s) == ValueOf(s)
  {
    if s == "" {
      assert ("0" + s)[..0] == "";
    } else {
      assert ("0" + s)[..|s|] == "0" + s[..|s| - 1];
      LeadingZero(s[..|s| - 1]);
    }
  }

  const MAX_INT64: int := 0x7fff_ffff_ffff_ffff

  /** strconv.Atoi on a 64-bit machine. */
  function Atoi(s: string): Option<int> {
    if s != "" && (s[0] == '-' || s[0] == '+') then
      if Numeral(s[1..]) then InRange(if s[0] == '-' then 0 - ValueOf(s[1..]) as int else ValueOf(s[1..])) else None
    else if Numeral(s) then InRange(ValueOf(s))
    else None
  }

  function InRange(n: int): Option<int> {
    if -MAX_INT64 - 1 <= n <= MAX_INT64 then Some(n) else None
  }

  /** strconv.Itoa. */
  function Itoa(n: int): string {
    if n < 0 then "-" + Decimal(-n) else Decimal(n)
  }

  /** Printed numbers are read back, as long as they fit. */
  lemma AtoiOfItoa(n: int)
    requires -MAX_INT64 <= n <= MAX_INT64
    ensures Atoi(Itoa(n)) == Some(n)
  {
    if n < 0 {
      DecimalValue(-n);
      assert ("-" + Decimal(-n))[1..] == Decimal(-n);
    } else {
      DecimalValue(n);
      assert IsDigit(Decimal(n)[0]);
    }
  }
}
