/** The two validators of sbc/sbc.go, which match regular expressions.

    `validateMid` matches `u[0-9a-f]{32}` anywhere in the string (Go's
    MatchString is unanchored); `validatePasscode` matches `^\d{6}$`, where
    Go's `\d` is the ASCII digits and `$` (without the multi-line flag)
    matches only at the very end of the text. Each matcher is written as a
    scan over the string and proved equal to a direct description of the
    matching strings. */
module Validate {

  predicate IsLowerHex(c: char)
  {
    '0' <= c <= '9' || 'a' <= c <= 'f'
  }

  predicate IsDigit(c: char)
  {
    '0' <= c <= '9'
  }

  /** A mid occurs at position i: a 'u' and 32 lower-case hex digits. */
  predicate MidAt(s: string, i: nat)
  {
    i + 33 <= |s| && s[i] == 'u' && forall j :: i + 1 <= j < i + 33 ==> IsLowerHex(s[j])
  }

  /** The 32 characters after a 'u' at the front of s, checked one at a
      time. */
  predicate HexRun(s: string, n: nat)
    requires n <= |s|
  {
    n == 0 || (IsLowerHex(s[n - 1]) && HexRun(s, n - 1))
  }

  /** `validateMid`: try every start position from the left. */
  predicate ValidMid(s: string)
  {
    |s| >= 33 && ((s[0] == 'u' && HexRun(s[1..33], 32)) || ValidMid(s[1..]))
  }

  lemma {:induction false} HexRunAll(s: string, n: nat)
    requires n <= |s|
    ensures HexRun(s, n) <==> forall j :: 0 <= j < n ==> IsLowerHex(s[j])
  {
    if n > 0 {
      HexRunAll(s, n - 1);
    }
  }

  lemma MidShift(s: string, i: nat)
    requires |s| > 0
    ensures MidAt(s[1..], i) <==> MidAt(s, i + 1)
  {
    if i + 34 <= |s| {
      assert forall j :: i + 1 <= j < i + 33 ==> s[1..][j] == s[j + 1];
    }
  }

  /** The scan accepts exactly the strings in which a mid occurs. */
  lemma {:induction false} ValidMidIff(s: string)
    ensures ValidMid(s) <==> exists i :: MidAt(s, i)
  {
    if |s| >= 33 {
      HexRunAll(s[1..33], 32);
      assert (s[0] == 'u' && HexRun(s[1..33], 32)) <==> MidAt(s, 0) by {
        assert forall j :: 0 <= j < 32 ==> s[1..33][j] == s[j + 1];
      }
      ValidMidIff(s[1..]);
      if exists i: nat :: MidAt(s[1..], i) {
        var i: nat :| MidAt(s[1..], i);
        MidShift(s, i);
      }
      if exists i: nat :: MidAt(s, i) {
        var i: nat :| MidAt(s, i);
        if i > 0 {
          MidShift(s, i - 1);
        }
      }
    }
  }

  /** No string shorter than 33 characters holds a mid. */
  lemma ShortMidRejected(s: string)
    requires |s| < 33
    ensures !ValidMid(s)
  {
  }

  /** The pattern is not anchored: text before or after an accepted mid
      leaves it accepted. */
  lemma MidUnanchored(pre: string, s: string, post: string)
    requires ValidMid(s)
    ensures ValidMid(pre + s + post)
  {
    ValidMidIff(s);
    var i :| MidAt(s, i);
    var t := pre + s + post;
    assert forall j :: 0 <= j < |s| ==> t[|pre| + j] == s[j];
    assert MidAt(t, |pre| + i);
    ValidMidIff(t);
  }

  /** `validatePasscode`: exactly six characters, each checked to be a
      digit. */
  predicate ValidPasscode(s: string)
  {
    |s| == 6 && AllDigits(s)
  }

  predicate AllDigits(s: string)
  {
    s == [] || (IsDigit(s[0]) && AllDigits(s[1..]))
  }

  lemma {:induction false} AllDigitsIff(s: string)
    ensures AllDigits(s) <==> forall i :: 0 <= i < |s| ==> IsDigit(s[i])
  {
    if s != [] {
      AllDigitsIff(s[1..]);
      assert forall i :: 1 <= i < |s| ==> s[1..][i - 1] == s[i];
    }
  }

  /** A passcode is accepted exactly when it is six ASCII digits. */
  lemma ValidPasscodeIff(s: string)
    ensures ValidPasscode(s) <==> |s| == 6 && forall i :: 0 <= i < 6 ==> '0' <= s[i] <= '9'
  {
    AllDigitsIff(s);
  }

  /** `$` does not match before a final newline: six digits and a newline
      are refused. */
  lemma TrailingNewlineRejected(s: string)
    ensures !ValidPasscode(s + "\n")
  {
    ValidPasscodeIff(s + "\n");
    if |s + "\n"| == 6 {
      assert (s + "\n")[5] == '\n';
    }
  }
}
