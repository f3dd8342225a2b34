/**
  `hex_code_validator` (backend/api/validators.py): the tag colour must match
  `^#(?:[0-9a-fA-F]{3}){1,2}$` under Python's `re.search`.
*/
module Validators {
  import opened Common

  /** The error `hex_code_validator` raises: ValidationError('Invalid HEX-code!'). */
  datatype ValidationError = ValidationError(message: string)

  /** The character class `[0-9a-fA-F]`. */
  predicate IsHexDigit(c: char)
  {
    '0' <= c <= '9' || 'a' <= c <= 'f' || 'A' <= c <= 'F'
  }

  predicate AllHex(s: string)
  {
    forall i :: 0 <= i < |s| ==> IsHexDigit(s[i])
  }

  /** One repetition of the group `(?:[0-9a-fA-F]{3})` starting at `i`. */
  predicate HexTriple(s: string, i: nat)
  {
    i + 3 <= |s| && IsHexDigit(s[i]) && IsHexDigit(s[i + 1]) && IsHexDigit(s[i + 2])
  }

  /**
    `$` without MULTILINE: it matches at the end of the string and also just
    before a newline that is the string's last character.
  */
  predicate DollarAt(s: string, i: nat)
  {
    i == |s| || (i + 1 == |s| && s[i] == '\n')
  }

  /**
    The pattern tried at position `start`: `^` holds only at 0, then `#`, then the
    group greedily twice and, when that fails, once, then `$`.
  */
  predicate MatchAt(s: string, start: nat)
  {
    && start == 0
    && start < |s| && s[start] == '#'
    && HexTriple(s, start + 1)
    && ((HexTriple(s, start + 4) && DollarAt(s, start + 7)) || DollarAt(s, start + 4))
  }

  /** `re.search`: the pattern is tried at every position from `from` to the end. */
  predicate SearchFrom(s: string, from: nat)
    decreases |s| - from
  {
    if from > |s| then false else MatchAt(s, from) || SearchFrom(s, from + 1)
  }

  /** `hex_code_validator(code)`: returns nothing when the search finds a match, raises otherwise. */
  function HexCodeValidator(code: string): (r: Outcome<ValidationError>)
    ensures r.Fail? ==> r.error == ValidationError("Invalid HEX-code!")
    ensures r.Pass? ==> 4 <= |code| <= 8 && code[0] == '#' && IsHexDigit(code[1])
  {
    SearchAnchored(code, 0);
    if SearchFrom(code, 0) then Pass else Fail(ValidationError("Invalid HEX-code!"))
  }

  /** Because of `^`, searching succeeds exactly when the pattern matches at position 0. */
  lemma {:induction false} SearchAnchored(s: string, from: nat)
    ensures SearchFrom(s, from) <==> from == 0 && MatchAt(s, 0)
    decreases |s| - from
  {
    if from <= |s| {
      SearchAnchored(s, from + 1);
    }
  }

  /**
    The strings accepted: `#` and 3 or 6 hex digits, optionally followed by a
    single newline, and nothing else.
  */
  lemma Accepts(code: string)
    ensures HexCodeValidator(code).Pass? <==>
      && |code| >= 1 && code[0] == '#'
      && ((|code| in {4, 7} && AllHex(code[1..]))
          || (|code| in {5, 8} && code[|code| - 1] == '\n' && AllHex(code[1..|code| - 1])))
  {
    SearchAnchored(code, 0);
    if |code| >= 1 && code[0] == '#' {
      var all := code[1..];
      assert forall i :: 0 <= i < |all| ==> all[i] == code[i + 1];
      if |code| >= 2 {
        var inner := code[1..|code| - 1];
        assert forall i :: 0 <= i < |inner| ==> inner[i] == code[i + 1];
      }
    }
  }

  /** `#` followed by exactly three hex digits is accepted, with or without a final newline. */
  lemma AcceptsThreeDigits(digits: string)
    requires |digits| == 3 && AllHex(digits)
    ensures HexCodeValidator("#" + digits) == Pass
    ensures HexCodeValidator("#" + digits + "\n") == Pass
  {
    Accepts("#" + digits);
    assert ("#" + digits)[1..] == digits;
    Accepts("#" + digits + "\n");
    assert ("#" + digits + "\n")[1..4] == digits;
  }

  /** `#` followed by exactly six hex digits is accepted, with or without a final newline. */
  lemma AcceptsSixDigits(digits: string)
    requires |digits| == 6 && AllHex(digits)
    ensures HexCodeValidator("#" + digits) == Pass
    ensures HexCodeValidator("#" + digits + "\n") == Pass
  {
    Accepts("#" + digits);
    assert ("#" + digits)[1..] == digits;
    Accepts("#" + digits + "\n");
    assert ("#" + digits + "\n")[1..7] == digits;
  }

  /** Any other number of hex digits after `#` is refused with the validator's error. */
  lemma RejectsOtherLengths(digits: string)
    requires AllHex(digits) && |digits| != 3 && |digits| != 6
    ensures HexCodeValidator("#" + digits) == Fail(ValidationError("Invalid HEX-code!"))
    ensures HexCodeValidator("#" + digits + "\n") == Fail(ValidationError("Invalid HEX-code!"))
  {
    Accepts("#" + digits);
    Accepts("#" + digits + "\n");
    var s := "#" + digits + "\n";
    if |s| in {4, 7} {
      assert !IsHexDigit(s[1..][|s| - 2]);
    }
  }

  /** A string that does not start with `#` is refused. */
  lemma RejectsWithoutHash(code: string)
    requires code == [] || code[0] != '#'
    ensures HexCodeValidator(code).Fail?
  {
    Accepts(code);
  }

  /** A character outside `[0-9a-fA-F]` among the digits is refused (a final newline aside). */
  lemma RejectsNonHexDigit(code: string, i: nat)
    requires 1 <= i < |code| && !IsHexDigit(code[i])
    requires !(i == |code| - 1 && code[i] == '\n')
    ensures HexCodeValidator(code).Fail?
  {
    Accepts(code);
    if |code| >= 1 && code[0] == '#' {
      assert code[1..][i - 1] == code[i];
      if i < |code| - 1 {
        assert code[1..|code| - 1][i - 1] == code[i];
      }
    }
  }

  /** Hex letters are accepted in either case; the Tag colour default `#0000ff` (backend/recipes/models.py:14) passes. */
  lemma MixedCaseAccepted()
    ensures HexCodeValidator("#aBc") == Pass
    ensures HexCodeValidator("#0000ff") == Pass
    ensures HexCodeValidator("#ABCDEF") == Pass
  {
    AcceptsThreeDigits("aBc");
    AcceptsSixDigits("0000ff");
    AcceptsSixDigits("ABCDEF");
  }
}
