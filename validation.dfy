/** The field checks that the vehicle and service handlers run before touching the store. */
module Validation {

  // ---------------------------------------------------------------- year

  predicate IsAsciiDigit(c: char) {
    '0' <= c <= '9'
  }

  predicate AllDigits(s: string) {
    forall i :: 0 <= i < |s| ==> IsAsciiDigit(s[i])
  }

  /** The year check: `isdigit()` (false on the empty string) and at most four characters. */
  predicate YearAccepted(s: string) {
    AllDigits(s) && 0 < |s| <= 4
  }

  function Pow10(n: nat): (p: nat)
    ensures p >= 1
  {
    if n == 0 then 1 else 10 * Pow10(n - 1)
  }

  /** The decimal value of a digit string, as `int()` reads it (leading zeros allowed). */
  function DigitsValue(s: string): (n: nat)
    requires AllDigits(s)
    ensures n < Pow10(|s|)
  {
    if s == [] then 0
    else DigitsValue(s[..|s| - 1]) * 10 + (s[|s| - 1] as int - '0' as int)
  }

  /** The integer stored for an accepted year field: always a four-digit-or-shorter number. */
  function YearValue(s: string): (y: int)
    requires YearAccepted(s)
    ensures 0 <= y <= 9999
  {
    Pow10Monotone(|s|, 4);
    DigitsValue(s)
  }

  lemma {:induction false} Pow10Monotone(a: nat, b: nat)
    requires a <= b
    ensures Pow10(a) <= Pow10(b)
  {
    if a < b {
      Pow10Monotone(a, b - 1);
    }
  }

  /** The shortest decimal spelling of a natural number. */
  function ShowDigits(n: nat): (s: string)
    ensures AllDigits(s) && 0 < |s|
  {
    if n < 10 then [('0' as int + n) as char]
    else ShowDigits(n / 10) + [('0' as int + n % 10) as char]
  }

  lemma {:induction false} ShowDigitsLength(n: nat, k: nat)
    requires n < Pow10(k)
    ensures |ShowDigits(n)| <= if k == 0 then 1 else k
  {
    if n >= 10 {
      assert k >= 2;
      assert n / 10 < Pow10(k - 1);
      ShowDigitsLength(n / 10, k - 1);
    }
  }

  lemma {:induction false} ShowDigitsValue(n: nat)
    ensures DigitsValue(ShowDigits(n)) == n
  {
    var s := ShowDigits(n);
    if n >= 10 {
      ShowDigitsValue(n / 10);
      assert s[..|s| - 1] == ShowDigits(n / 10);
    }
  }

  /** Every year from 0 to 9999, written in decimal, passes the check and is stored as itself. */
  lemma YearRoundTrip(n: nat)
    requires n <= 9999
    ensures YearAccepted(ShowDigits(n)) && YearValue(ShowDigits(n)) == n
  {
    assert Pow10(4) == 10000;
    ShowDigitsLength(n, 4);
    ShowDigitsValue(n);
  }

  // ---------------------------------------------------------------- plate

  predicate IsPlateChar(c: char) {
    'A' <= c <= 'Z' || '0' <= c <= '9'
  }

  predicate AllPlateChars(s: string) {
    forall i :: 0 <= i < |s| ==> IsPlateChar(s[i])
  }

  /** `re.match(r'^[A-Z0-9]+$', s)`: a non-empty run of class characters from the start,
      followed by the end of the string or by one newline that ends the string (Python's
      `$` also matches just before a final newline). */
  predicate PatternMatches(s: string) {
    exists n :: 1 <= n <= |s| && AllPlateChars(s[..n]) && (s[n..] == "" || s[n..] == "\n")
  }

  /** The same pattern anchored at the very end of the string (`\Z`). */
  predicate PatternFullyMatches(s: string) {
    exists n :: 1 <= n <= |s| && AllPlateChars(s[..n]) && s[n..] == ""
  }

  /** The plate check as the handlers write it: length at most 7, then the `$`-anchored match. */
  predicate PlateAcceptedAsWritten(s: string) {
    !(|s| > 7 || !PatternMatches(s))
  }

  /** The plate check as intended: length at most 7, then the match anchored at the very end.
      The model's handlers use this one. */
  predicate PlateAccepted(s: string) {
    !(|s| > 7 || !PatternFullyMatches(s))
  }

  /** What the as-written check accepts: a plate of one to seven class characters, or one of
      up to six such characters followed by a newline. */
  lemma PlateAcceptedAsWrittenMeaning(s: string)
    ensures PlateAcceptedAsWritten(s) <==>
            |s| <= 7 &&
            ((0 < |s| && AllPlateChars(s)) ||
             (1 < |s| && s[|s| - 1] == '\n' && AllPlateChars(s[..|s| - 1])))
  {
    if 0 < |s| && AllPlateChars(s) {
      assert s[..|s|] == s && s[|s|..] == "";
    }
    if 1 < |s| && s[|s| - 1] == '\n' && AllPlateChars(s[..|s| - 1]) {
      assert s[|s| - 1..] == "\n";
    }
    if PatternMatches(s) {
      var n :| 1 <= n <= |s| && AllPlateChars(s[..n]) && (s[n..] == "" || s[n..] == "\n");
      if s[n..] == "" {
        assert s[..n] == s;
      }
    }
  }

  /** The intended check accepts exactly the plates of one to seven characters, each an
      upper-case ASCII letter or a digit. */
  lemma PlateAcceptedMeaning(s: string)
    ensures PlateAccepted(s) <==> 0 < |s| <= 7 && AllPlateChars(s)
  {
    if 0 < |s| && AllPlateChars(s) {
      assert s[..|s|] == s && s[|s|..] == "";
    }
    if PatternFullyMatches(s) {
      var n :| 1 <= n <= |s| && AllPlateChars(s[..n]) && s[n..] == "";
      assert s[..n] == s;
    }
  }

  /** The two checks differ exactly on the plates that end in a single newline after an
      otherwise accepted plate of at most six characters. */
  lemma PlateChecksDiffer(s: string)
    ensures PlateAcceptedAsWritten(s) <==>
            PlateAccepted(s) || (|s| <= 7 && 1 < |s| && s[|s| - 1] == '\n' && PlateAccepted(s[..|s| - 1]))
  {
    PlateAcceptedAsWrittenMeaning(s);
    PlateAcceptedMeaning(s);
    if 1 < |s| {
      PlateAcceptedMeaning(s[..|s| - 1]);
    }
  }

  /** A concrete plate that the handlers as written accept although it holds a newline. */
  lemma TrailingNewlineAccepted()
    ensures PlateAcceptedAsWritten("ABC123\n") && !PlateAccepted("ABC123\n")
  {
    var s := "ABC123\n";
    assert s[..|s| - 1] == "ABC123";
    assert !IsPlateChar(s[6]);
    PlateAcceptedAsWrittenMeaning(s);
    PlateAcceptedMeaning(s);
  }

  // ---------------------------------------------------------------- description

  /** The description check of the service handlers. */
  predicate DescriptionAccepted(d: string) {
    |d| <= 400
  }
}
