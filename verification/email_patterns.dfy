/**
  The two email regular expressions of the front end, stated as what a match means.

  The services (authService.ts, userService.ts) use the anchored `^[^\s@]+@[^\s@]+\.[^\s@]+$`;
  the login and register forms (LoginPage.tsx, RegisterPage.tsx) use the unanchored
  `\S+@\S+\.\S+`. `\s` is JavaScript's whitespace set, `IsWhitespace`.
*/
module EmailPatterns {
  import opened Js

  predicate NoWhitespace(s: string) {
    forall k :: 0 <= k < |s| ==> !IsWhitespace(s[k])
  }

  /** Every character strictly between positions lo and hi is not whitespace. */
  predicate NoWhitespaceBetween(s: string, lo: int, hi: int) {
    forall k :: lo < k < hi && 0 <= k < |s| ==> !IsWhitespace(s[k])
  }

  /**
    `/^[^\s@]+@[^\s@]+\.[^\s@]+$/.test(s)`: no whitespace anywhere, exactly one '@', something
    before it, and a '.' after it with something on both sides.
  */
  predicate StrictEmail(s: string) {
    exists at, dot :: 0 < at && at + 1 < dot && dot + 1 < |s| && s[at] == '@' && s[dot] == '.' &&
      NoWhitespace(s) && forall k :: 0 <= k < |s| && s[k] == '@' ==> k == at
  }

  /**
    `/\S+@\S+\.\S+/.test(s)`: somewhere in s, a non-whitespace character, '@', a run of
    non-whitespace characters, '.', and a non-whitespace character.
  */
  predicate LooseEmail(s: string) {
    exists at, dot | 0 < at < dot < |s| :: LooseAt(s, at, dot)
  }

  /** The loose pattern matches with its '@' at `at` and its '.' at `dot`. */
  predicate LooseAt(s: string, at: int, dot: int) {
    0 < at && at + 1 < dot && dot + 1 < |s| && s[at] == '@' && s[dot] == '.' &&
    !IsWhitespace(s[at - 1]) && !IsWhitespace(s[dot + 1]) && NoWhitespaceBetween(s, at, dot)
  }

  /** A '.' inside the part after the only '@' gives a strict match. */
  lemma StrictEmailIfDotAfterAt(email: string, at: nat)
    requires NoWhitespace(email) && at < |email| && email[at] == '@' && at > 0 && at + 3 <= |email|
    requires '@' !in email[at + 1..] && '.' in email[at + 2..|email| - 1]
    requires '@' !in email[..at]
    ensures StrictEmail(email)
  {
    var j :| 0 <= j < |email[at + 2..|email| - 1]| && email[at + 2..|email| - 1][j] == '.';
    var dot := at + 2 + j;
    assert email[dot] == '.';
  }

  /** A strict match has its only '@' at `at` and a '.' inside the part after it. */
  lemma DotAfterAtIfStrictEmail(email: string, at: nat)
    requires StrictEmail(email) && at < |email| && email[at] == '@'
    ensures at > 0 && at + 3 <= |email| && '@' !in email[at + 1..] && '.' in email[at + 2..|email| - 1]
  {
    var at', dot :| 0 < at' && at' + 1 < dot && dot + 1 < |email| && email[at'] == '@' && email[dot] == '.' &&
      NoWhitespace(email) && forall k :: 0 <= k < |email| && email[k] == '@' ==> k == at';
    assert at' == at;
    assert email[at + 2..|email| - 1][dot - at - 2] == '.';
  }

  /** Once the first '@' is found, a strict match is decided by what follows it. */
  lemma StrictEmailByFirstAt(email: string)
    requires NoWhitespace(email) && '@' in email
    ensures var at := IndexOf(email, '@');
            StrictEmail(email) <==>
              at > 0 && at + 3 <= |email| && '@' !in email[at + 1..] && '.' in email[at + 2..|email| - 1]
  {
    var at := IndexOf(email, '@');
    if at > 0 && at + 3 <= |email| && '@' !in email[at + 1..] && '.' in email[at + 2..|email| - 1] {
      StrictEmailIfDotAfterAt(email, at);
    }
    if StrictEmail(email) {
      DotAfterAtIfStrictEmail(email, at);
    }
  }

  /**
    `validateEmail` (and the same test inside `validateUserData`): find the first '@', then
    look for a '.' strictly inside the part after it.
  */
  function MatchesStrictEmail(email: string): (ok: bool)
    ensures ok <==> StrictEmail(email)
  {
    if !NoWhitespace(email) || '@' !in email then
      false
    else
      StrictEmailByFirstAt(email);
      var at := IndexOf(email, '@');
      at > 0 && at + 3 <= |email| && '@' !in email[at + 1..] && '.' in email[at + 2..|email| - 1]
  }

  /** `emailRegex.test(email)` for the anchored pattern, as the validators call it. */
  method TestStrictEmail(email: string) returns (ok: bool)
    ensures ok <==> StrictEmail(email)
  {
    ok := MatchesStrictEmail(email);
  }

  /**
    What the scan of `TestLooseEmail` knows on reaching position i: the current run of
    non-whitespace characters starts at `runStart`, and `firstAt` is the first '@' of that run
    with a character before it, or -1 when there is none yet.
  */
  predicate ScanState(email: string, runStart: int, firstAt: int, i: int) {
    && 0 <= runStart <= i <= |email|
    && (runStart > 0 ==> IsWhitespace(email[runStart - 1]))
    && (forall k :: runStart <= k < i ==> !IsWhitespace(email[k]))
    && (firstAt == -1 ==> forall k :: runStart < k < i ==> email[k] != '@')
    && (firstAt != -1 ==> runStart < firstAt < i && email[firstAt] == '@' &&
                          forall k :: runStart < k < firstAt ==> email[k] != '@')
  }

  /** The scan's test at position i: a '.' two or more places after `firstAt`, followed by a non-space. */
  predicate ClosesMatch(email: string, firstAt: int, i: int) {
    0 <= i < |email| && email[i] == '.' && firstAt != -1 && firstAt + 1 < i &&
    i + 1 < |email| && !IsWhitespace(email[i + 1])
  }

  /** Every match whose '.' is at i lies inside the current run, so the scan's test sees it. */
  lemma MatchEndingAt(email: string, runStart: int, firstAt: int, i: int)
    requires ScanState(email, runStart, firstAt, i) && i < |email|
    ensures forall at :: LooseAt(email, at, i) ==> ClosesMatch(email, firstAt, i)
  {
    forall at | LooseAt(email, at, i) ensures ClosesMatch(email, firstAt, i) {
      MatchInRun(email, runStart, i, at);
      assert email[at] == '@';
    }
  }

  /** The characters at - 1 to i of a match are not whitespace, so at - 1 is in the current run. */
  lemma MatchInRun(email: string, runStart: int, i: int, at: int)
    requires 0 <= runStart <= i < |email|
    requires runStart > 0 ==> IsWhitespace(email[runStart - 1])
    requires LooseAt(email, at, i)
    ensures runStart < at
  {
    assert !IsWhitespace(email[at]);
  }

  /**
    `/\S+@\S+\.\S+/.test(email)`, as the forms call it: one pass over the string, keeping the
    start of the current run of non-whitespace characters and the first usable '@' in it, and
    stopping at the first '.' that closes a match.
  */
  method TestLooseEmail(email: string) returns (ok: bool)
    ensures ok <==> LooseEmail(email)
  {
    var runStart, firstAt, i := 0, -1, 0;
    while i < |email|
      invariant ScanState(email, runStart, firstAt, i)
      invariant forall at, dot :: dot < i ==> !LooseAt(email, at, dot)
    {
      MatchEndingAt(email, runStart, firstAt, i);
      var c := email[i];
      if ClosesMatch(email, firstAt, i) {
        assert LooseAt(email, firstAt, i);
        return true;
      }
      if IsWhitespace(c) {
        runStart, firstAt := i + 1, -1;
      } else if c == '@' && firstAt == -1 && runStart < i {
        firstAt := i;
      }
      i := i + 1;
    }
    return false;
  }

  /** Every address the services accept is accepted by the forms. */
  lemma StrictIsLoose(s: string)
    requires StrictEmail(s)
    ensures LooseEmail(s)
  {
    var at, dot :| 0 < at && at + 1 < dot && dot + 1 < |s| && s[at] == '@' && s[dot] == '.' &&
      NoWhitespace(s) && forall k :: 0 <= k < |s| && s[k] == '@' ==> k == at;
    assert !IsWhitespace(s[at - 1]) && !IsWhitespace(s[dot + 1]);
    assert LooseAt(s, at, dot);
  }

  /** The forms accept addresses the services reject: text around the match is not checked. */
  lemma LooseAcceptsMore()
    ensures LooseEmail("a b@c.d") && !StrictEmail("a b@c.d")
  {
    var s := "a b@c.d";
    assert s[3] == '@' && s[5] == '.' && s[2] == 'b' && s[6] == 'd' && s[4] == 'c';
    assert IsWhitespace(s[1]);
    assert LooseAt(s, 3, 5);
  }
}
