/**
 * Gamertag syntax: `3 <= len(name) <= 16` followed by
 * `re.match(r"^[A-Za-z0-9 ]+$", name)`.
 *
 * Python's `$` (without MULTILINE) matches at the end of the string and also
 * just before a newline that ends the string, so a name made of allowed
 * characters followed by one "\n" passes; the length bound counts that "\n".
 */
module GamertagFormat {

  /** The character class `[A-Za-z0-9 ]`. */
  predicate IsGamertagChar(c: char) {
    ('A' <= c <= 'Z') || ('a' <= c <= 'z') || ('0' <= c <= '9') || c == ' '
  }

  ghost predicate AllGamertagChars(s: string) {
    forall i :: 0 <= i < |s| ==> IsGamertagChar(s[i])
  }

  /** How many characters the greedy `[A-Za-z0-9 ]+` consumes from the start of `s`. */
  function ClassRun(s: string): (n: nat)
    ensures n <= |s|
    ensures forall i :: 0 <= i < n ==> IsGamertagChar(s[i])
    ensures n < |s| ==> !IsGamertagChar(s[n])
  {
    if |s| == 0 || !IsGamertagChar(s[0]) then 0 else 1 + ClassRun(s[1..])
  }

  /** Where `$` succeeds: at the very end, or before a final newline. */
  predicate AtEnd(s: string, i: nat): (r: bool)
    ensures r <==> i <= |s| && (s[i..] == [] || s[i..] == "\n")
  {
    i == |s| || (i + 1 == |s| && s[i] == '\n')
  }

  /**
   * `re.match(r"^[A-Za-z0-9 ]+$", s)` succeeds. The regex backtracks: some
   * non-empty run of class characters at the start is followed by a position
   * where `$` holds. Trying only the greedy run is enough, since a shorter run
   * stops in front of a class character.
   */
  predicate RegexMatches(s: string): (r: bool)
    ensures r <==>
      exists k :: 1 <= k <= |s| && (forall i :: 0 <= i < k ==> IsGamertagChar(s[i])) && AtEnd(s, k)
  {
    var n := ClassRun(s);
    n >= 1 && AtEnd(s, n)
  }

  function IsValidGamertag(name: string): (ok: bool)
    ensures ok <==>
      && 3 <= |name| <= 16
      && (|| AllGamertagChars(name)
          || (name[|name| - 1] == '\n' && AllGamertagChars(name[..|name| - 1])))
  {
    var ok := 3 <= |name| <= 16 && RegexMatches(name);
    assert ok && ClassRun(name) < |name| ==> name[..|name| - 1] == name[..ClassRun(name)];
    assert AllGamertagChars(name) ==> ClassRun(name) == |name|;
    assert 3 <= |name| && AllGamertagChars(name[..|name| - 1]) ==> ClassRun(name) >= |name| - 1;
    ok
  }

  /** The `$` caveat: one trailing newline is let through. */
  lemma TrailingNewlineAccepted(s: string)
    requires 2 <= |s| <= 15 && AllGamertagChars(s)
    ensures IsValidGamertag(s + "\n")
  {

  }

  /** A newline anywhere but last, or a second one, is refused. */
  lemma InnerNewlineRejected(s: string, i: nat)
    requires i + 1 < |s| && s[i] == '\n'
    ensures !IsValidGamertag(s)
  {

  }
}
