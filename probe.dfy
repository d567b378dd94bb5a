/** The existence probe's acceptance test, `resp.code.match(/20\d/)`: an
    unanchored search for "20" followed by an ASCII digit anywhere in the
    status-code text. */
module Probe {
  import opened Strings

  /** Whether the regular expression matches starting at position i. */
  predicate MatchesAt(code: string, i: int)
    requires 0 <= i
  {
    i + 3 <= |code| && code[i] == '2' && code[i + 1] == '0' && IsDigit(code[i + 2])
  }

  /** `/20\d/` as a search: try each starting position from the left. */
  function Accepts(code: string): (b: bool)
    ensures b ==> |code| >= 3
    decreases |code|
  {
    |code| >= 3 && (MatchesAt(code, 0) || Accepts(code[1..]))
  }

  /** The search succeeds exactly when some position matches. */
  lemma {:induction false} AcceptsIffSomeMatch(code: string)
    ensures Accepts(code) <==> exists i :: 0 <= i && MatchesAt(code, i)
    decreases |code|
  {
    if |code| >= 3 {
      AcceptsIffSomeMatch(code[1..]);
      if Accepts(code) && !MatchesAt(code, 0) {
        var j :| 0 <= j && MatchesAt(code[1..], j);
        assert MatchesAt(code, j + 1);
      }
      if !Accepts(code) {
        forall i | 0 <= i
          ensures !MatchesAt(code, i)
        {
          if i > 0 {
            assert !MatchesAt(code[1..], i - 1);
          }
        }
      }
    } else {
      forall i | 0 <= i
        ensures !MatchesAt(code, i)
      {
      }
    }
  }

  /** For a three-digit status code, only 200 to 209 are accepted: the test is
      narrower than the 2xx "Successful" class of section 15.3 of RFC 9110. */
  lemma ThreeDigitStatus(code: nat)
    requires 100 <= code <= 999
    ensures Accepts(Decimal(code)) <==> 200 <= code <= 209
  {
    ThreeDigits(code);
    var s := Decimal(code);
    assert !Accepts(s[1..]);
    assert DigitChar(code / 100) == '2' <==> code / 100 == 2;
    assert DigitChar(code / 10 % 10) == '0' <==> code / 10 % 10 == 0;
  }

  /** Concretely: 204 No Content is accepted, 226 IM Used is not. */
  lemma SuccessClassGap()
    ensures Accepts(Decimal(204))
    ensures !Accepts(Decimal(226))
  {
    ThreeDigitStatus(204);
    ThreeDigitStatus(226);
  }
}
