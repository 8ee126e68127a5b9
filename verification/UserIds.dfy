/** Account identifiers (server/auth.go): eight characters, lower-case letters
    and digits, at least one of each. */
module UserIds {

  predicate IsLower(c: char) { 'a' <= c <= 'z' }

  predicate IsDigit(c: char) { '0' <= c <= '9' }

  predicate ValidUserId(value: string) {
    && |value| == 8
    && (forall i | 0 <= i < |value| :: IsLower(value[i]) || IsDigit(value[i]))
    && (exists i | 0 <= i < |value| :: IsLower(value[i]))
    && (exists i | 0 <= i < |value| :: IsDigit(value[i]))
  }

  /** The single pass of validUserID: flags for "seen a letter" and "seen a
      digit", giving up at the first other character. */
  method CheckUserId(value: string) returns (ok: bool)
    ensures ok <==> ValidUserId(value)
    ensures ok <==> |value| == 8 && (forall i | 0 <= i < 8 :: 'a' <= value[i] <= 'z' || '0' <= value[i] <= '9') &&
                    (exists i | 0 <= i < 8 :: 'a' <= value[i] <= 'z') && exists i | 0 <= i < 8 :: '0' <= value[i] <= '9'
  {
    if |value| != 8 { return false; }
    var hasLetter, hasDigit := false, false;
    for k := 0 to |value|
      invariant forall i | 0 <= i < k :: IsLower(value[i]) || IsDigit(value[i])
      invariant hasLetter <==> exists i | 0 <= i < k :: IsLower(value[i])
      invariant hasDigit <==> exists i | 0 <= i < k :: IsDigit(value[i])
    {
      if IsLower(value[k]) {
        hasLetter := true;
      } else if IsDigit(value[k]) {
        hasDigit := true;
      } else {
        return false;
      }
    }
    return hasLetter && hasDigit;
  }
}
