/** The string operations of Ruby's core library that the scraper relies on:
    `Integer#to_s`, `String#each_line`, `String#chomp` and `String#downcase`
    (restricted to ASCII letters). */
module Strings {

  predicate IsDigit(c: char) {
    '0' <= c <= '9'
  }

  predicate AllDigits(s: string) {
    forall i :: 0 <= i < |s| ==> IsDigit(s[i])
  }

  function DigitChar(d: nat): (c: char)
    requires d < 10
    ensures IsDigit(c)
  {
    (48 + d) as char
  }

  function DigitValue(c: char): (d: nat)
    requires IsDigit(c)
    ensures d < 10 && DigitChar(d) == c
  {
    c as int - 48
  }

  /** `Integer#to_s` for a non-negative integer: its decimal digits, most
      significant first, without leading zeros. */
  function Decimal(n: nat): (s: string)
    ensures 1 <= |s| && AllDigits(s)
    ensures n < 10 <==> |s| == 1
    ensures n > 0 ==> s[0] != '0'
    decreases n
  {
    if n < 10 then [DigitChar(n)] else Decimal(n / 10) + [DigitChar(n % 10)]
  }

  /** The value of a string of decimal digits (the inverse of `Decimal`). */
  function ParseDecimal(s: string): nat
    requires AllDigits(s)
    decreases |s|
  {
    if s == [] then 0 else 10 * ParseDecimal(s[..|s| - 1]) + DigitValue(s[|s| - 1])
  }

  lemma {:induction false} DecimalRoundTrip(n: nat)
    ensures ParseDecimal(Decimal(n)) == n
  {
    var s := Decimal(n);
    if n < 10 {
      assert s[..0] == [];
    } else {
      assert s[..|s| - 1] == Decimal(n / 10);
      DecimalRoundTrip(n / 10);
    }
  }

  /** A three-digit number prints as its three digits. */
  lemma ThreeDigits(n: nat)
    requires 100 <= n <= 999
    ensures Decimal(n) == [DigitChar(n / 100), DigitChar(n / 10 % 10), DigitChar(n % 10)]
  {
    assert Decimal(n / 10) == [DigitChar(n / 100), DigitChar(n / 10 % 10)];
  }

  /** Index of the first `c` in `s`, or `|s|` if there is none. */
  function IndexOf(s: string, c: char): (k: nat)
    ensures k <= |s|
    ensures forall j :: 0 <= j < k ==> s[j] != c
    ensures k < |s| ==> s[k] == c
    decreases |s|
  {
    if s == [] then 0 else if s[0] == c then 0 else 1 + IndexOf(s[1..], c)
  }

  // ---------------------------------------------------------------------
  // String#each_line (default separator "\n") and String#chomp

  /** Index just past the first "\n" at or after `i`, or `|s|` if there is none. */
  function LineEnd(s: string, i: nat): (k: nat)
    requires i <= |s|
    ensures i <= k <= |s|
    ensures i < |s| ==> i < k
    decreases |s| - i
  {
    if i == |s| then |s| else if s[i] == '\n' then i + 1 else LineEnd(s, i + 1)
  }

  /** A piece that `each_line` can yield: non-empty, and "\n" at most at its end. */
  predicate IsLine(l: string) {
    |l| > 0 && forall j :: 0 <= j < |l| - 1 ==> l[j] != '\n'
  }

  predicate Terminated(s: string) {
    |s| > 0 && s[|s| - 1] == '\n'
  }

  /** `String#each_line`: the pieces of `s`, each keeping its "\n"; a last
      piece without "\n" is yielded too. */
  function Lines(s: string): (r: seq<string>)
    ensures r == [] <==> s == []
    ensures |r| <= |s|
    decreases |s|
  {
    if s == [] then [] else
    var k := LineEnd(s, 0);
    [s[..k]] + Lines(s[k..])
  }

  function Concat(ls: seq<string>): string
    decreases |ls|
  {
    if ls == [] then [] else ls[0] + Concat(ls[1..])
  }

  lemma {:induction false} ConcatSnoc(ls: seq<string>, x: string)
    ensures Concat(ls + [x]) == Concat(ls) + x
    decreases |ls|
  {
    if ls == [] {
      assert [x][1..] == [];
    } else {
      assert (ls + [x])[1..] == ls[1..] + [x];
      ConcatSnoc(ls[1..], x);
    }
  }

  lemma {:induction false} LineEndStops(s: string, i: nat)
    requires i <= |s|
    ensures forall j :: i <= j < LineEnd(s, i) - 1 ==> s[j] != '\n'
    ensures LineEnd(s, i) < |s| ==> s[LineEnd(s, i) - 1] == '\n'
    decreases |s| - i
  {
    if i < |s| && s[i] != '\n' {
      LineEndStops(s, i + 1);
    }
  }

  lemma {:induction false} LineEndOfLine(s: string, i: nat)
    requires i <= |s|
    requires forall j :: i <= j < |s| - 1 ==> s[j] != '\n'
    ensures LineEnd(s, i) == |s|
    decreases |s| - i
  {
    if i < |s| && s[i] != '\n' {
      LineEndOfLine(s, i + 1);
    }
  }

  lemma {:induction false} LineEndPrefix(a: string, b: string, i: nat)
    requires i < |a| && Terminated(a)
    ensures LineEnd(a + b, i) == LineEnd(a, i) <= |a|
    decreases |a| - i
  {
    if a[i] != '\n' {
      LineEndPrefix(a, b, i + 1);
    }
  }

  /** Appending one more line to text that ends at a line boundary adds
      exactly that line to what `each_line` yields. */
  lemma {:induction false} LinesSnoc(a: string, b: string)
    requires a == [] || Terminated(a)
    requires IsLine(b)
    ensures Lines(a + b) == Lines(a) + [b]
    decreases |a|
  {
    if a == [] {
      LineEndOfLine(b, 0);
      assert a + b == b && b[|b|..] == [];
      assert b[..|b|] == b;
    } else {
      var k := LineEnd(a, 0);
      LineEndPrefix(a, b, 0);
      assert (a + b)[..k] == a[..k];
      assert (a + b)[k..] == a[k..] + b;
      LinesSnoc(a[k..], b);
    }
  }

  /** `each_line` loses nothing: its pieces concatenate back to the text. */
  lemma {:induction false} LinesConcat(s: string)
    ensures Concat(Lines(s)) == s
    decreases |s|
  {
    if s != [] {
      var k := LineEnd(s, 0);
      LinesConcat(s[k..]);
      assert s == s[..k] + s[k..];
    }
  }

  /** Every piece is a line; every piece but the last ends with "\n". */
  lemma {:induction false} LinesShape(s: string)
    ensures forall i :: 0 <= i < |Lines(s)| ==> IsLine(Lines(s)[i])
    ensures forall i :: 0 <= i < |Lines(s)| - 1 ==> Terminated(Lines(s)[i])
    ensures Terminated(s) ==> forall i :: 0 <= i < |Lines(s)| ==> Terminated(Lines(s)[i])
    decreases |s|
  {
    if s != [] {
      var k := LineEnd(s, 0);
      LineEndStops(s, 0);
      LinesShape(s[k..]);
      var rest := Lines(s[k..]);
      assert Lines(s) == [s[..k]] + rest;
      if k == |s| {
        assert s[k..] == [] && rest == [];
      } else {
        assert Terminated(s[..k]);
        assert Terminated(s) ==> Terminated(s[k..]);
      }
    }
  }

  /** `String#chomp` with no argument: drops one trailing "\r\n", "\n" or "\r". */
  function Chomp(s: string): (r: string)
    ensures r <= s && |s| - 2 <= |r|
    ensures r == s <==> !(|s| > 0 && (s[|s| - 1] == '\n' || s[|s| - 1] == '\r'))
    ensures |s| >= 2 && s[|s| - 2..] == "\r\n" ==> r == s[..|s| - 2]
    ensures |s| >= 1 && s[|s| - 1] == '\r' ==> r == s[..|s| - 1]
    ensures Terminated(s) && !(|s| >= 2 && s[|s| - 2] == '\r') ==> r == s[..|s| - 1]
  {
    if |s| >= 2 && s[|s| - 2] == '\r' && s[|s| - 1] == '\n' then s[..|s| - 2]
    else if |s| >= 1 && (s[|s| - 1] == '\n' || s[|s| - 1] == '\r') then s[..|s| - 1]
    else s
  }

  function ChompAll(ls: seq<string>): (r: seq<string>)
    ensures |r| == |ls| && forall i :: 0 <= i < |ls| ==> r[i] == Chomp(ls[i])
  {
    seq(|ls|, i requires 0 <= i < |ls| => Chomp(ls[i]))
  }

  // ---------------------------------------------------------------------
  // String#downcase, ASCII only

  predicate IsUpper(c: char) {
    'A' <= c <= 'Z'
  }

  function LowerChar(c: char): (d: char)
    ensures !IsUpper(d)
    ensures !IsUpper(c) ==> d == c
  {
    if IsUpper(c) then (c as int + 32) as char else c
  }

  predicate NoUpper(s: string) {
    forall i :: 0 <= i < |s| ==> !IsUpper(s[i])
  }

  /** `String#downcase` on ASCII letters; every other character is kept. */
  function Downcase(s: string): (r: string)
    ensures |r| == |s| && NoUpper(r)
    ensures forall i :: 0 <= i < |s| ==> r[i] == LowerChar(s[i])
  {
    seq(|s|, i requires 0 <= i < |s| => LowerChar(s[i]))
  }

  /** Characters other than letters are neither added nor removed by `Downcase`. */
  lemma DowncaseKeepsOthers(s: string, c: char)
    requires !IsUpper(c) && !('a' <= c <= 'z')
    ensures c in Downcase(s) <==> c in s
  {
    var r := Downcase(s);
    if c in r {
      var i :| 0 <= i < |r| && r[i] == c;
      assert s[i] == c;
    }
    if c in s {
      var i :| 0 <= i < |s| && s[i] == c;
      assert r[i] == c;
    }
  }
}
