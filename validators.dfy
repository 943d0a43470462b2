/** The SWIFT/BIC shape check `is_valid_swift_code` (app/utils/validators.py). */
module Validators {

  /** The Python values the validator can be handed; only `PyStr` is a `str`.
      A pandas missing cell (NaN) arrives as a `PyFloat`. */
  datatype PyValue = PyStr(s: string) | PyNone | PyInt(n: int) | PyFloat | PyList | PyTuple | PyDict

  /** `[A-Z]` */
  predicate IsLetter(c: char) { 'A' <= c <= 'Z' }

  /** `[A-Z0-9]` */
  predicate IsAlnum(c: char) { IsLetter(c) || '0' <= c <= '9' }

  /** The identifier shape: 8 or 11 characters, a 4-letter bank code and a 2-letter country
      code, then a 2-character location code and an optional 3-character branch code, both
      of letters or digits. */
  predicate HasSwiftShape(s: string) {
    && (|s| == 8 || |s| == 11)
    && (forall i :: 0 <= i < 6 ==> IsLetter(s[i]))
    && (forall i :: 6 <= i < |s| ==> IsAlnum(s[i]))
  }

  /** `n` characters of `[A-Z]` at `pos`, as the regex engine consumes them. */
  predicate LettersAt(s: string, pos: nat, n: nat)
    decreases n
  {
    if n == 0 then pos <= |s| else pos < |s| && IsLetter(s[pos]) && LettersAt(s, pos + 1, n - 1)
  }

  /** `n` characters of `[A-Z0-9]` at `pos`. */
  predicate AlnumsAt(s: string, pos: nat, n: nat)
    decreases n
  {
    if n == 0 then pos <= |s| else pos < |s| && IsAlnum(s[pos]) && AlnumsAt(s, pos + 1, n - 1)
  }

  /** Python's `$` without MULTILINE: the end of the string, or just before a final "\n". */
  predicate DollarAt(s: string, pos: nat) {
    pos == |s| || (pos == |s| - 1 && s[pos] == '\n')
  }

  /** `re.match(r'^[A-Z]{6}[A-Z0-9]{2}([A-Z0-9]{3})?$', s)` succeeds: the greedy optional
      group is tried first and abandoned when `$` does not follow it. */
  predicate RegexMatch(s: string) {
    && LettersAt(s, 0, 6)
    && AlnumsAt(s, 6, 2)
    && ((AlnumsAt(s, 8, 3) && DollarAt(s, 11)) || DollarAt(s, 8))
  }

  /** The same pattern anchored at the true end of the string (`re.fullmatch`). */
  predicate FullMatch(s: string) {
    && LettersAt(s, 0, 6)
    && AlnumsAt(s, 6, 2)
    && ((AlnumsAt(s, 8, 3) && |s| == 11) || |s| == 8)
  }

  lemma {:induction false} LettersAtIff(s: string, pos: nat, n: nat)
    ensures LettersAt(s, pos, n) <==> pos + n <= |s| && forall i :: pos <= i < pos + n ==> IsLetter(s[i])
    decreases n
  {
    if n > 0 {
      LettersAtIff(s, pos + 1, n - 1);
      if LettersAt(s, pos, n) {
        forall i | pos <= i < pos + n ensures IsLetter(s[i]) {
          if i > pos { assert pos + 1 <= i < pos + 1 + (n - 1); }
        }
      }
    }
  }

  lemma {:induction false} AlnumsAtIff(s: string, pos: nat, n: nat)
    ensures AlnumsAt(s, pos, n) <==> pos + n <= |s| && forall i :: pos <= i < pos + n ==> IsAlnum(s[i])
    decreases n
  {
    if n > 0 {
      AlnumsAtIff(s, pos + 1, n - 1);
      if AlnumsAt(s, pos, n) {
        forall i | pos <= i < pos + n ensures IsAlnum(s[i]) {
          if i > pos { assert pos + 1 <= i < pos + 1 + (n - 1); }
        }
      }
    }
  }

  /** The full-match scanner accepts exactly the identifier shape. */
  lemma FullMatchIsShape(s: string)
    ensures FullMatch(s) <==> HasSwiftShape(s)
  {
    LettersAtIff(s, 0, 6);
    AlnumsAtIff(s, 6, 2);
    AlnumsAtIff(s, 8, 3);
  }

  /** What the pattern as written accepts: the identifier shape, or the identifier shape
      followed by one "\n". */
  lemma RegexMatchAcceptsTrailingNewline(s: string)
    ensures RegexMatch(s) <==>
      HasSwiftShape(s) || (|s| > 0 && s[|s| - 1] == '\n' && HasSwiftShape(s[..|s| - 1]))
  {
    LettersAtIff(s, 0, 6);
    AlnumsAtIff(s, 6, 2);
    AlnumsAtIff(s, 8, 3);
    if |s| > 0 {
      var t := s[..|s| - 1];
      LettersAtIff(t, 0, 6);
      AlnumsAtIff(t, 6, 2);
      AlnumsAtIff(t, 8, 3);
    }
  }

  /** `is_valid_swift_code` exactly as written: a type test, then `re.match`. */
  function IsValidSwiftCodeAsWritten(v: PyValue): (ok: bool)
    ensures ok <==>
      v.PyStr? && (HasSwiftShape(v.s) || (|v.s| > 0 && v.s[|v.s| - 1] == '\n' && HasSwiftShape(v.s[..|v.s| - 1])))
  {
    match v
    case PyStr(s) => RegexMatchAcceptsTrailingNewline(s); RegexMatch(s)
    case _ => false
  }

  /** The "\n"-terminated identifier that the pattern as written lets through. */
  lemma AsWrittenAcceptsNineCharacters()
    ensures IsValidSwiftCodeAsWritten(PyStr("AAAABBCC\n"))
    ensures |"AAAABBCC\n"| == 9
  {
    assert HasSwiftShape("AAAABBCC");
    assert "AAAABBCC\n"[..8] == "AAAABBCC";
  }

  /** `is_valid_swift_code` as its documentation states it (8 or 11 characters): a value is
      accepted iff it is a string of the identifier shape. */
  function IsValidSwiftCode(v: PyValue): (ok: bool)
    ensures ok <==> v.PyStr? && HasSwiftShape(v.s)
  {
    match v
    case PyStr(s) => FullMatchIsShape(s); FullMatch(s)
    case _ => false
  }

  /** Every accepted value is a string of length 8 or 11 with letters in positions 1-6 and
      letters or digits in positions 7-8 and 9-11. */
  lemma AcceptedCodeSegments(v: PyValue)
    requires IsValidSwiftCode(v)
    ensures v.PyStr? && (|v.s| == 8 || |v.s| == 11)
    ensures forall i :: 0 <= i < 4 ==> IsLetter(v.s[i])
    ensures IsLetter(v.s[4]) && IsLetter(v.s[5])
    ensures IsAlnum(v.s[6]) && IsAlnum(v.s[7])
    ensures |v.s| == 11 ==> IsAlnum(v.s[8]) && IsAlnum(v.s[9]) && IsAlnum(v.s[10])
  {
  }

  /** The corrected check rejects the "\n"-terminated identifier, and both versions agree on
      every string that does not end in "\n". */
  lemma CorrectedRejectsTrailingNewline(s: string)
    ensures !IsValidSwiftCode(PyStr("AAAABBCC\n"))
    ensures (s == [] || s[|s| - 1] != '\n') ==>
      (IsValidSwiftCode(PyStr(s)) <==> IsValidSwiftCodeAsWritten(PyStr(s)))
  {
  }

  /** Non-string values are rejected, never an error. */
  lemma NonStringsRejected(v: PyValue)
    requires !v.PyStr?
    ensures !IsValidSwiftCode(v) && !IsValidSwiftCodeAsWritten(v)
  {
  }

  /** The shape test is case-sensitive. */
  lemma CaseSensitive()
    ensures !IsValidSwiftCode(PyStr("aaaabbcc123"))
    ensures IsValidSwiftCode(PyStr("AAAABBCC123"))
  {
    assert !IsLetter("aaaabbcc123"[0]);
  }

  /** Rejections from the unit tests of the validator: empty, punctuation, too short, too
      long, and a digit in each of the letter-only segments. */
  lemma ValidatorRejections()
    ensures !IsValidSwiftCode(PyStr("")) && !IsValidSwiftCode(PyStr("AAAA-BB-CC-123"))
    ensures !IsValidSwiftCode(PyStr("AAAABB")) && !IsValidSwiftCode(PyStr("AAAABBCC123123"))
    ensures !IsValidSwiftCode(PyStr("1234BBCC123")) && !IsValidSwiftCode(PyStr("A1AABBCC123"))
    ensures !IsValidSwiftCode(PyStr("AAAA12CC123")) && !IsValidSwiftCode(PyStr("AAAAB2CC123"))
  {
    assert !IsLetter("1234BBCC123"[0]);
    assert !IsLetter("A1AABBCC123"[1]);
    assert !IsLetter("AAAA12CC123"[4]);
    assert !IsLetter("AAAAB2CC123"[5]);
  }

  /** Acceptances from the unit tests: digits are allowed from position 7 on. */
  lemma ValidatorAcceptances()
    ensures IsValidSwiftCode(PyStr("APSBMTMTXXX")) && IsValidSwiftCode(PyStr("BCHICLR10R3"))
  {
    assert FullMatch("APSBMTMTXXX");
    assert FullMatch("BCHICLR10R3");
  }
}
