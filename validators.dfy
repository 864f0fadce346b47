/** `validate_username`: a user name is accepted when the pattern `^[\w.-]+$` matches it from
    the start, in the sense of Python's `re.match`. */
module UsernameValidator {

  /** The error text raised for a rejected name. */
  const RejectionMessage: string := "Имя пользователя может содержать только латинские буквы, цифры"

  datatype Outcome = Accepted(value: string) | Rejected(message: string)

  /** `\w`, restricted to ASCII letters and digits, the underscore and the Russian alphabet. */
  predicate WordChar(c: char) {
    ('a' <= c <= 'z') || ('A' <= c <= 'Z') || ('0' <= c <= '9') || c == '_'
    || ('А' <= c <= 'я') || c == 'Ё' || c == 'ё'
  }

  /** The character class `[\w.-]`. */
  predicate InClass(c: char) {
    WordChar(c) || c == '.' || c == '-'
  }

  /** How many characters of the class follow position `i`: what the greedy `+` consumes. */
  function RunLength(s: string, i: nat): (n: nat)
    requires i <= |s|
    ensures i + n <= |s|
    ensures forall j :: i <= j < i + n ==> InClass(s[j])
    ensures i + n == |s| || !InClass(s[i + n])
    decreases |s| - i
  {
    if i < |s| && InClass(s[i]) then 1 + RunLength(s, i + 1) else 0
  }

  /** `$` without MULTILINE: the end of the text, or a final newline just before it. */
  predicate EndAnchor(s: string, p: nat) {
    p == |s| || (p == |s| - 1 && s[p] == '\n')
  }

  /** The regular expression as the matcher runs it: `+` takes between one character and the
      whole run, and the match succeeds when `$` holds after one of those choices. */
  predicate PatternMatches(s: string) {
    exists k | 1 <= k <= RunLength(s, 0) :: EndAnchor(s, k)
  }

  /** What the pattern accepts, stated independently of the matcher: one or more characters of
      the class, optionally followed by exactly one newline. */
  predicate UsernameOk(s: string) {
    (|s| >= 1 && forall i :: 0 <= i < |s| ==> InClass(s[i]))
    || (|s| >= 2 && s[|s| - 1] == '\n' && forall i :: 0 <= i < |s| - 1 ==> InClass(s[i]))
  }

  /** The validator: a matching value comes back unchanged, any other raises the error. */
  function ValidateUsername(value: string): (r: Outcome)
    ensures r.Accepted? <==> UsernameOk(value)
    ensures r.Accepted? ==> r.value == value
    ensures r.Rejected? ==> r.message == RejectionMessage
  {
    PatternMatchesIffOk(value);
    if PatternMatches(value) then Accepted(value) else Rejected(RejectionMessage)
  }

  /** Backtracking never helps: the match succeeds exactly when `$` holds after the whole run,
      and exactly on the names `UsernameOk` describes. */
  lemma PatternMatchesIffOk(s: string)
    ensures PatternMatches(s) <==> UsernameOk(s)
    ensures PatternMatches(s) <==> RunLength(s, 0) >= 1 && EndAnchor(s, RunLength(s, 0))
  {
    var n := RunLength(s, 0);
    // A newline is not in the class, so `$` can hold only where the run ends.
    assert !InClass('\n');
    if PatternMatches(s) {
      var k :| 1 <= k <= n && EndAnchor(s, k);
      assert k == n;
    }
    if UsernameOk(s) {
      assert EndAnchor(s, n);
    }
  }

  /** The empty name is rejected: `+` needs at least one character. */
  lemma EmptyRejected()
    ensures ValidateUsername("").Rejected?
  {
  }

  /** A space, '@' or '+' anywhere in the name makes it rejected. */
  lemma ForeignCharacterRejected(s: string, i: nat)
    requires i < |s| && (s[i] == ' ' || s[i] == '@' || s[i] == '+')
    ensures ValidateUsername(s).Rejected?
  {
    assert !InClass(s[i]);
  }

  /** A single trailing newline after a valid name slips through, and the name is returned with
      it; a second newline, or a newline alone, does not. */
  lemma TrailingNewline(s: string)
    requires |s| >= 1 && forall i :: 0 <= i < |s| ==> InClass(s[i])
    ensures ValidateUsername(s + "\n") == Accepted(s + "\n")
    ensures ValidateUsername(s + "\n\n").Rejected?
    ensures ValidateUsername("\n").Rejected?
  {
    var t := s + "\n\n";
    assert t[|t| - 2] == '\n';
    assert !InClass('\n');
  }

  /** The check the error message describes, as `re.fullmatch(r'[\w.-]+', value)` would make
      it: the whole name, and nothing but the name, drawn from the class. */
  function ValidateUsernameFull(value: string): (r: Outcome)
    ensures r.Accepted? <==> |value| >= 1 && forall i :: 0 <= i < |value| ==> InClass(value[i])
    ensures r.Accepted? ==> r.value == value
    ensures r.Rejected? ==> r.message == RejectionMessage
  {
    var n := RunLength(value, 0);
    if n >= 1 && n == |value| then Accepted(value) else Rejected(RejectionMessage)
  }

  /** The corrected check accepts no newline at all, and on names without a newline it agrees
      with the pattern as written. */
  lemma FullMatchRejectsNewline(s: string)
    ensures ValidateUsernameFull(s).Accepted? ==> forall i :: 0 <= i < |s| ==> s[i] != '\n'
    ensures (forall i :: 0 <= i < |s| ==> s[i] != '\n') ==> ValidateUsernameFull(s) == ValidateUsername(s)
  {
    assert !InClass('\n');
    if forall i :: 0 <= i < |s| ==> s[i] != '\n' {
      if |s| >= 2 {
        assert s[|s| - 1] != '\n';
      }
    }
  }
}
