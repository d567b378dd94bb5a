/** The display-name normalisation of `Scraper#get_company_name`:
    `name.gsub!(/\./, '') && name.gsub!(/ +/, '_') && name.downcase!`.
    Each bang method edits the name in place and answers `nil` when it
    changed nothing, which stops the `&&` chain early. */
module Naming {
  import opened Options
  import opened Strings

  /** The text with every `.` removed (`gsub(/\./, '')`). */
  function DeleteDots(s: string): (r: string)
    ensures |r| <= |s|
    ensures |r| == |s| <==> '.' !in s
    decreases |s|
  {
    if s == [] then []
    else if s[0] == '.' then DeleteDots(s[1..])
    else [s[0]] + DeleteDots(s[1..])
  }

  /** No dot survives. */
  lemma {:induction false} DeleteDotsRemovesAll(s: string)
    ensures '.' !in DeleteDots(s)
    decreases |s|
  {
    if s != [] {
      DeleteDotsRemovesAll(s[1..]);
    }
  }

  /** Removing dots keeps every other character that occurs. */
  lemma {:induction false} DeleteDotsKeeps(s: string, c: char)
    requires c != '.'
    ensures c in DeleteDots(s) <==> c in s
    decreases |s|
  {
    if s != [] {
      DeleteDotsKeeps(s[1..], c);
      assert s == [s[0]] + s[1..];
    }
  }

  /** A text without dots is left as it is. */
  lemma {:induction false} DeleteDotsNoDot(s: string)
    requires '.' !in s
    ensures DeleteDots(s) == s
    decreases |s|
  {
    if s != [] {
      DeleteDotsNoDot(s[1..]);
      assert s == [s[0]] + s[1..];
    }
  }

  /** `gsub!(/\./, '')`: `None` (Ruby's nil) when there was no dot. */
  function DeleteDotsBang(s: string): (r: Option<string>)
    ensures r.None? <==> '.' !in s
    ensures r.Some? ==> '.' !in r.value
  {
    DeleteDotsRemovesAll(s);
    if '.' in s then Some(DeleteDots(s)) else None
  }

  function Spaces(k: nat): (r: string)
    ensures |r| == k && forall i :: 0 <= i < k ==> r[i] == ' '
  {
    seq(k, _ => ' ')
  }

  /** What the scan emits for character `c`: a space opens a run (one `_`)
      or continues one (nothing); any other character is copied. */
  function Emit(c: char, afterSpace: bool): string {
    if c != ' ' then [c] else if afterSpace then [] else "_"
  }

  /** `gsub(/ +/, '_')` scanning left to right: a space right after a space
      (`afterSpace`) belongs to the run already replaced by `_`. */
  function SquashFrom(s: string, afterSpace: bool): (r: string)
    ensures |r| <= |s|
    decreases |s|
  {
    if s == [] then [] else Emit(s[0], afterSpace) + SquashFrom(s[1..], s[0] == ' ')
  }

  /** No space survives. */
  lemma {:induction false} SquashFromRemovesSpaces(s: string, afterSpace: bool)
    ensures ' ' !in SquashFrom(s, afterSpace)
    decreases |s|
  {
    if s != [] {
      SquashFromRemovesSpaces(s[1..], s[0] == ' ');
    }
  }

  /** Squashing adds no character other than `_`. */
  lemma {:induction false} SquashFromKeeps(s: string, afterSpace: bool, c: char)
    requires c != '_' && c !in s
    ensures c !in SquashFrom(s, afterSpace)
    decreases |s|
  {
    if s != [] {
      SquashFromKeeps(s[1..], s[0] == ' ', c);
    }
  }

  /** The text with every maximal run of spaces replaced by one `_`. */
  function SquashSpaces(s: string): (r: string)
    ensures ' ' !in r
  {
    SquashFromRemovesSpaces(s, false);
    SquashFrom(s, false)
  }

  /** `gsub!(/ +/, '_')`: `None` (Ruby's nil) when there was no space. */
  function SquashSpacesBang(s: string): (r: Option<string>)
    ensures r.None? <==> ' ' !in s
  {
    if ' ' in s then Some(SquashSpaces(s)) else None
  }

  /** The value of `@company_name` after line 161: the `&&` chain only runs a
      step when the step before it changed something. */
  function Normalize(name: string): (r: string)
    ensures '.' !in r
  {
    match DeleteDotsBang(name)
    case None => name
    case Some(undotted) =>
      match SquashSpacesBang(undotted)
      case None => undotted
      case Some(squashed) =>
        SquashFromKeeps(undotted, false, '.');
        DowncaseKeepsOthers(squashed, '.');
        Downcase(squashed)
  }

  // ---------------------------------------------------------------------
  // Properties

  /** Whether the scan is inside a run of spaces after reading `p`. */
  function EndsInRun(p: string, afterSpace: bool): bool {
    if p == [] then afterSpace else p[|p| - 1] == ' '
  }

  /** Scanning `p + x` starts with the first character of a non-empty `p`. */
  lemma SquashConsAppend(p: string, x: string, afterSpace: bool)
    requires p != []
    ensures SquashFrom(p + x, afterSpace)
         == Emit(p[0], afterSpace) + SquashFrom(p[1..] + x, p[0] == ' ')
  {
    assert (p + x)[0] == p[0] && (p + x)[1..] == p[1..] + x;
  }

  /** The inductive step of `SquashAppend`, for a non-empty `p`. */
  lemma SquashAppendStep(p: string, x: string, afterSpace: bool)
    requires p != []
    requires SquashFrom(p[1..] + x, p[0] == ' ')
          == SquashFrom(p[1..], p[0] == ' ') + SquashFrom(x, EndsInRun(p[1..], p[0] == ' '))
    ensures SquashFrom(p + x, afterSpace)
         == SquashFrom(p, afterSpace) + SquashFrom(x, EndsInRun(p, afterSpace))
  {
    var t, inRun := p[1..], p[0] == ' ';
    var e, rest := Emit(p[0], afterSpace), SquashFrom(x, EndsInRun(p, afterSpace));
    SquashConsAppend(p, x, afterSpace);
    assert EndsInRun(t, inRun) == EndsInRun(p, afterSpace);
    assert e + (SquashFrom(t, inRun) + rest) == (e + SquashFrom(t, inRun)) + rest;
  }

  /** Squashing is compositional: the second part is scanned in the state the
      first part left. */
  lemma {:induction false} SquashAppend(p: string, x: string, afterSpace: bool)
    ensures SquashFrom(p + x, afterSpace)
         == SquashFrom(p, afterSpace) + SquashFrom(x, EndsInRun(p, afterSpace))
    decreases |p|
  {
    if p == [] {
      assert p + x == x;
    } else {
      SquashAppend(p[1..], x, p[0] == ' ');
      SquashAppendStep(p, x, afterSpace);
    }
  }

  /** A run of k >= 1 spaces yields one `_`, or nothing if a run is already open. */
  lemma {:induction false} SquashSpacesRun(k: nat, q: string, afterSpace: bool)
    requires 1 <= k
    ensures SquashFrom(Spaces(k) + q, afterSpace)
         == (if afterSpace then [] else "_") + SquashFrom(q, true)
    decreases k
  {
    assert (Spaces(k) + q)[1..] == Spaces(k - 1) + q;
    if k > 1 {
      SquashSpacesRun(k - 1, q, true);
    } else {
      assert Spaces(0) + q == q;
    }
  }

  /** After a run of spaces, text that does not start with a space is
      squashed as if no run were open. */
  lemma SquashRunClosed(q: string)
    requires q == [] || q[0] != ' '
    ensures SquashFrom(q, true) == SquashFrom(q, false)
  {
  }

  /** A maximal run of k >= 1 spaces becomes exactly one `_`, and the text on
      either side of it is squashed on its own. */
  lemma SquashRun(p: string, k: nat, q: string)
    requires 1 <= k
    requires p == [] || p[|p| - 1] != ' '
    requires q == [] || q[0] != ' '
    ensures SquashSpaces(p + Spaces(k) + q) == SquashSpaces(p) + "_" + SquashSpaces(q)
  {
    var tail := Spaces(k) + q;
    assert p + Spaces(k) + q == p + tail;
    SquashAppend(p, tail, false);
    assert !EndsInRun(p, false);
    SquashSpacesRun(k, q, false);
    SquashRunClosed(q);
    var a, b := SquashFrom(p, false), SquashFrom(q, false);
    assert a + ("_" + b) == a + "_" + b;
  }

  /** A text without spaces is left as it is. */
  lemma {:induction false} SquashNoSpace(s: string, afterSpace: bool)
    requires ' ' !in s
    ensures SquashFrom(s, afterSpace) == s
    decreases |s|
  {
    if s != [] {
      SquashNoSpace(s[1..], false);
      assert s == [s[0]] + s[1..];
    }
  }

  /** The three outcomes of the short-circuit on line 161: no dot, nothing
      changes; a dot but no space, only the dots go; both, all three steps run. */
  lemma NormalizeCases(name: string)
    ensures '.' !in name ==> Normalize(name) == name
    ensures '.' in name && ' ' !in name ==> Normalize(name) == DeleteDots(name)
    ensures '.' in name && ' ' in name ==>
      Normalize(name) == Downcase(SquashSpaces(DeleteDots(name)))
  {
    DeleteDotsKeeps(name, ' ');
  }

  /** Only a name with both a dot and a space is fully normalised: no spaces
      are left and every ASCII letter is lower case. */
  lemma NormalizeFull(name: string)
    requires '.' in name && ' ' in name
    ensures ' ' !in Normalize(name) && '.' !in Normalize(name)
    ensures NoUpper(Normalize(name))
  {
    DeleteDotsKeeps(name, ' ');
  }

  /** A name with a dot but no space loses its dots and nothing else: every
      other character, capitals included, is still there. */
  lemma NormalizeDotOnly(name: string)
    requires '.' in name && ' ' !in name
    ensures Normalize(name) == DeleteDots(name)
    ensures forall c :: c != '.' ==> (c in Normalize(name) <==> c in name)
  {
    DeleteDotsKeeps(name, ' ');
    forall c | c != '.'
      ensures c in Normalize(name) <==> c in name
    {
      DeleteDotsKeeps(name, c);
    }
  }

  /** Normalising twice is normalising once: the second pass finds no dot and
      stops at the first `gsub!`. */
  lemma {:induction false} NormalizeIdempotent(name: string)
    ensures Normalize(Normalize(name)) == Normalize(name)
  {
    var r := Normalize(name);
    assert '.' !in r;
    assert DeleteDotsBang(r) == None;
  }

  /** Removing dots works piece by piece. */
  lemma {:induction false} DeleteDotsAppend(a: string, b: string)
    ensures DeleteDots(a + b) == DeleteDots(a) + DeleteDots(b)
    decreases |a|
  {
    if a == [] {
      assert a + b == b;
    } else {
      assert (a + b)[1..] == a[1..] + b;
      DeleteDotsAppend(a[1..], b);
    }
  }

  /** Two words without spaces joined by one space are joined by `_`. */
  lemma SquashTwoWords(p: string, q: string)
    requires p != [] && q != []
    requires ' ' !in p && ' ' !in q
    ensures SquashSpaces(p + " " + q) == p + "_" + q
  {
    assert Spaces(1) == " ";
    SquashRun(p, 1, q);
    SquashNoSpace(p, false);
    SquashNoSpace(q, false);
  }

  lemma FooBarUndotted()
    ensures DeleteDots("Foo. Bar") == "Foo Bar"
  {
    assert "Foo. Bar" == "Foo" + ("." + " Bar");
    DeleteDotsAppend("Foo", "." + " Bar");
    DeleteDotsNoDot("Foo");
    DeleteDotsNoDot(" Bar");
    assert "Foo Bar" == "Foo" + " Bar";
  }

  lemma FooBarSquashed()
    ensures SquashSpaces("Foo Bar") == "Foo_Bar"
  {
    assert "Foo Bar" == "Foo" + " " + "Bar";
    assert "Foo_Bar" == "Foo" + "_" + "Bar";
    SquashTwoWords("Foo", "Bar");
  }

  lemma FooBarLowered()
    ensures Downcase("Foo_Bar") == "foo_bar"
  {
  }

  /** "Foo. Bar" has a dot and a space, so it is fully normalised. */
  lemma ExampleFooBar()
    ensures Normalize("Foo. Bar") == "foo_bar"
  {
    FooBarUndotted();
    FooBarSquashed();
    FooBarLowered();
  }

  lemma AcmeCorpUndotted()
    ensures DeleteDots("Acme Corp.") == "Acme Corp"
  {
    assert "Acme Corp." == "Acme Corp" + ".";
    DeleteDotsAppend("Acme Corp", ".");
    DeleteDotsNoDot("Acme Corp");
    assert "Acme Corp" + [] == "Acme Corp";
  }

  lemma AcmeCorpSquashed()
    ensures SquashSpaces("Acme Corp") == "Acme_Corp"
  {
    assert "Acme Corp" == "Acme" + " " + "Corp";
    assert "Acme_Corp" == "Acme" + "_" + "Corp";
    SquashTwoWords("Acme", "Corp");
  }

  lemma AcmeCorpLowered()
    ensures Downcase("Acme_Corp") == "acme_corp"
  {
  }

  /** "Acme Corp." loses its trailing dot and is fully normalised. */
  lemma ExampleAcmeCorp()
    ensures Normalize("Acme Corp.") == "acme_corp"
  {
    AcmeCorpUndotted();
    AcmeCorpSquashed();
    AcmeCorpLowered();
  }

  /** A name without a dot is kept as it is, spaces and capitals included. */
  lemma ExampleNoDot()
    ensures Normalize("acme_corp") == "acme_corp"
    ensures Normalize("Acme Corp") == "Acme Corp"
  {
    assert '.' !in "acme_corp" && '.' !in "Acme Corp";
    NormalizeCases("acme_corp");
    NormalizeCases("Acme Corp");
  }

  /** A name with a dot but no space keeps its capitals. */
  lemma ExampleDotNoSpace()
    ensures Normalize("A.B") == "AB"
  {
    assert DeleteDots("A.B") == "AB" by {
      assert "A.B" == "A" + "." + "B";
      DeleteDotsAppend("A" + ".", "B");
      DeleteDotsAppend("A", ".");
      assert DeleteDots(".") == [];
    }
  }
}
