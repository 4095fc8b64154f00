/** The two ISBN format checks of the repository: the command-line tool's
    (hyphens allowed anywhere) and the browser form's (exactly 10 or 13
    digits, nothing else). Check digits are not verified by either. */
module IsbnFormat {
  import opened Wrappers
  import opened Text

  const Hyphen: char := '-'

  /** The digits that remain once every hyphen is removed. */
  function Normalize(s: string): (r: string)
    ensures Hyphen !in r
  {
    RemoveChar(s, Hyphen)
  }

  predicate DigitOrHyphen(c: char) {
    IsDigit(c) || c == Hyphen
  }

  /** A non-empty run of digits of length 10 or 13. */
  predicate IsbnDigits(n: string) {
    n != [] && AllDigits(n) && (|n| == 10 || |n| == 13)
  }

  /** The command-line tool's check: with the hyphens removed, the string is
      a non-empty run of digits of length 10 or 13. */
  predicate IsValidIsbnFormat(s: string): (r: bool)
    ensures r ==> forall i :: 0 <= i < |s| ==> DigitOrHyphen(s[i])
    ensures r ==> 10 <= |s|
  {
    NormalizedDigits(s);
    IsbnDigits(Normalize(s))
  }

  /** The same check stated directly on the input: only digits and hyphens,
      and 10 or 13 digits in all. */
  lemma ValidFormatIff(s: string)
    ensures IsValidIsbnFormat(s) <==>
      (forall i :: 0 <= i < |s| ==> DigitOrHyphen(s[i]))
      && (|s| - Count(s, Hyphen) == 10 || |s| - Count(s, Hyphen) == 13)
  {
    NormalizedDigits(s);
  }

  /** The normalised string is all digits exactly when the input holds
      nothing but digits and hyphens. */
  lemma NormalizedDigits(s: string)
    ensures AllDigits(Normalize(s)) <==> forall i :: 0 <= i < |s| ==> DigitOrHyphen(s[i])
  {
    var n := Normalize(s);
    if AllDigits(n) {
      forall i | 0 <= i < |s| ensures DigitOrHyphen(s[i]) {
        var c := s[i];
        if c != Hyphen {
          assert c in s;
          var j :| 0 <= j < |n| && n[j] == c;
        }
      }
    } else {
      var j :| 0 <= j < |n| && !IsDigit(n[j]);
      var c := n[j];
      assert c != Hyphen && c in n;
      var i :| 0 <= i < |s| && s[i] == c;
      assert !DigitOrHyphen(s[i]);
    }
  }

  /** Inserting a hyphen anywhere does not change the verdict. */
  lemma HyphenInsensitive(a: string, b: string)
    ensures Normalize(a + [Hyphen] + b) == Normalize(a + b)
    ensures IsValidIsbnFormat(a + [Hyphen] + b) == IsValidIsbnFormat(a + b)
  {
    var h: string := [Hyphen];
    assert RemoveChar(h, Hyphen) == [] by {
      assert h[1..] == [];
    }
    RemoveCharAppend(a, h, Hyphen);
    RemoveCharAppend(a + h, b, Hyphen);
    RemoveCharAppend(a, b, Hyphen);
    assert RemoveChar(a + h, Hyphen) == RemoveChar(a, Hyphen);
  }

  /** A character that is neither a digit nor a hyphen makes the input
      invalid, wherever it stands. */
  lemma RejectsOtherCharacter(s: string, i: int)
    requires 0 <= i < |s| && !DigitOrHyphen(s[i])
    ensures !IsValidIsbnFormat(s)
  {
    ValidFormatIff(s);
  }

  /** A run of digits is accepted exactly when it has 10 or 13 of them. */
  lemma DigitRunLength(s: string)
    requires AllDigits(s)
    ensures IsValidIsbnFormat(s) <==> |s| == 10 || |s| == 13
  {
    assert forall i :: 0 <= i < |s| ==> s[i] != Hyphen;
    RemoveCharAbsent(s, Hyphen);
  }

  /** The command-line entry point: an invalid argument ends the program
      with the error message; a valid one is passed on with its hyphens
      removed. */
  function NormalizeArgument(arg: string): (r: Result<string, string>)
    ensures r.Success? <==> IsValidIsbnFormat(arg)
    ensures r.Success? ==> r.value == Normalize(arg)
    ensures r.Success? ==>
      && Hyphen !in r.value
      && AllDigits(r.value)
      && (|r.value| == 10 || |r.value| == 13)
      && (forall c :: c != Hyphen ==> (c in r.value <==> c in arg))
    ensures r.Failure? ==> r.error == InvalidFormatMessage(arg)
  {
    if !IsValidIsbnFormat(arg) then Failure(InvalidFormatMessage(arg))
    else
      NormalizedDigits(arg);
      Success(Normalize(arg))
  }

  function InvalidFormatMessage(arg: string): string {
    "Error: Invalid ISBN format: '" + arg + "'. Please provide a 10 or 13 digit ISBN, hyphens are allowed."
  }

  /** The pattern `^\d{10}$|^\d{13}$` that the browser form (and the server
      route) test the trimmed input against. */
  predicate DigitRun(t: string, n: nat) {
    |t| == n && AllDigits(t)
  }

  predicate MatchesClientPattern(t: string) {
    DigitRun(t, 10) || DigitRun(t, 13)
  }

  /** The browser's pattern accepts exactly the hyphen-free strings the
      command-line check accepts. In particular everything the browser lets
      through, the command-line tool accepts too. */
  lemma ClientPatternIsHyphenFreeFormat(t: string)
    ensures MatchesClientPattern(t) <==> IsValidIsbnFormat(t) && Hyphen !in t
  {
    if Hyphen !in t {
      RemoveCharAbsent(t, Hyphen);
      NormalizedDigits(t);
    }
    if MatchesClientPattern(t) {
      DigitRunLength(t);
    }
  }

  /** Inserting one hyphen at position `k` does not change the verdict. */
  lemma InsertHyphen(s: string, k: nat)
    requires k <= |s|
    ensures IsValidIsbnFormat(s[..k] + [Hyphen] + s[k..]) == IsValidIsbnFormat(s)
  {
    HyphenInsensitive(s[..k], s[k..]);
    assert s[..k] + s[k..] == s;
  }

  /** Hyphens between four groups do not change the verdict. */
  lemma HyphenatedGroups4(g1: string, g2: string, g3: string, g4: string)
    ensures IsValidIsbnFormat(g1 + [Hyphen] + g2 + [Hyphen] + g3 + [Hyphen] + g4)
         == IsValidIsbnFormat(g1 + g2 + g3 + g4)
  {
    var h: string := [Hyphen];
    assert RemoveChar(h, Hyphen) == [] by {
      assert h[1..] == [];
    }
    var n1, n2, n3, n4 := RemoveChar(g1, Hyphen), RemoveChar(g2, Hyphen), RemoveChar(g3, Hyphen),
                          RemoveChar(g4, Hyphen);
    var x1 := g1 + h;
    assert RemoveChar(x1, Hyphen) == n1 by {
      RemoveCharAppend(g1, h, Hyphen);
    }
    var x2 := x1 + g2 + h;
    assert RemoveChar(x2, Hyphen) == n1 + n2 by {
      RemoveCharAppend(x1, g2, Hyphen);
      RemoveCharAppend(x1 + g2, h, Hyphen);
    }
    var x3 := x2 + g3 + h;
    assert RemoveChar(x3, Hyphen) == n1 + n2 + n3 by {
      RemoveCharAppend(x2, g3, Hyphen);
      RemoveCharAppend(x2 + g3, h, Hyphen);
    }
    assert RemoveChar(x3 + g4, Hyphen) == n1 + n2 + n3 + n4 by {
      RemoveCharAppend(x3, g4, Hyphen);
    }
    assert RemoveChar(g1 + g2 + g3 + g4, Hyphen) == n1 + n2 + n3 + n4 by {
      RemoveCharAppend(g1, g2, Hyphen);
      RemoveCharAppend(g1 + g2, g3, Hyphen);
      RemoveCharAppend(g1 + g2 + g3, g4, Hyphen);
    }
    assert x3 + g4 == g1 + [Hyphen] + g2 + [Hyphen] + g3 + [Hyphen] + g4;
  }

  /** Hyphens between five groups do not change the verdict. */
  lemma HyphenatedGroups(g1: string, g2: string, g3: string, g4: string, g5: string)
    ensures IsValidIsbnFormat(g1 + [Hyphen] + g2 + [Hyphen] + g3 + [Hyphen] + g4 + [Hyphen] + g5)
         == IsValidIsbnFormat(g1 + g2 + g3 + g4 + g5)
  {
    var h: string := [Hyphen];
    assert RemoveChar(h, Hyphen) == [] by {
      assert h[1..] == [];
    }
    var n1, n2, n3, n4, n5 := RemoveChar(g1, Hyphen), RemoveChar(g2, Hyphen), RemoveChar(g3, Hyphen),
                              RemoveChar(g4, Hyphen), RemoveChar(g5, Hyphen);
    var x1 := g1 + h;
    assert RemoveChar(x1, Hyphen) == n1 by {
      RemoveCharAppend(g1, h, Hyphen);
    }
    var x2 := x1 + g2 + h;
    assert RemoveChar(x2, Hyphen) == n1 + n2 by {
      RemoveCharAppend(x1, g2, Hyphen);
      RemoveCharAppend(x1 + g2, h, Hyphen);
    }
    var x3 := x2 + g3 + h;
    assert RemoveChar(x3, Hyphen) == n1 + n2 + n3 by {
      RemoveCharAppend(x2, g3, Hyphen);
      RemoveCharAppend(x2 + g3, h, Hyphen);
    }
    var x4 := x3 + g4 + h;
    assert RemoveChar(x4, Hyphen) == n1 + n2 + n3 + n4 by {
      RemoveCharAppend(x3, g4, Hyphen);
      RemoveCharAppend(x3 + g4, h, Hyphen);
    }
    assert RemoveChar(x4 + g5, Hyphen) == n1 + n2 + n3 + n4 + n5 by {
      RemoveCharAppend(x4, g5, Hyphen);
    }
    assert RemoveChar(g1 + g2 + g3 + g4 + g5, Hyphen) == n1 + n2 + n3 + n4 + n5 by {
      RemoveCharAppend(g1, g2, Hyphen);
      RemoveCharAppend(g1 + g2, g3, Hyphen);
      RemoveCharAppend(g1 + g2 + g3, g4, Hyphen);
      RemoveCharAppend(g1 + g2 + g3 + g4, g5, Hyphen);
    }
    assert x4 + g5 == g1 + [Hyphen] + g2 + [Hyphen] + g3 + [Hyphen] + g4 + [Hyphen] + g5;
  }


  /** An ISBN-10 written in the hyphenated groups 1-3-5-1 is accepted by the
      command-line check and rejected by the browser's pattern. */
  lemma GroupedIsbn10(d: string)
    requires DigitRun(d, 10)
    ensures IsValidIsbnFormat(d[..1] + [Hyphen] + d[1..4] + [Hyphen] + d[4..9] + [Hyphen] + d[9..])
    ensures !MatchesClientPattern(d[..1] + [Hyphen] + d[1..4] + [Hyphen] + d[4..9] + [Hyphen] + d[9..])
  {
    var s := d[..1] + [Hyphen] + d[1..4] + [Hyphen] + d[4..9] + [Hyphen] + d[9..];
    HyphenatedGroups4(d[..1], d[1..4], d[4..9], d[9..]);
    assert d[..1] + d[1..4] + d[4..9] + d[9..] == d;
    ClientPatternIsHyphenFreeFormat(d);
    assert s[1] == Hyphen;
    ClientPatternIsHyphenFreeFormat(s);
  }

  /** An ISBN-13 written in the hyphenated groups 3-1-3-5-1 is accepted by
      the command-line check. */
  lemma GroupedIsbn13(d: string)
    requires DigitRun(d, 13)
    ensures IsValidIsbnFormat(d[..3] + [Hyphen] + d[3..4] + [Hyphen] + d[4..7] + [Hyphen] + d[7..12] + [Hyphen] + d[12..])
  {
    HyphenatedGroups(d[..3], d[3..4], d[4..7], d[7..12], d[12..]);
    assert d[..3] + d[3..4] + d[4..7] + d[7..12] + d[12..] == d;
    ClientPatternIsHyphenFreeFormat(d);
  }

  /** The browser accepts strictly fewer strings than the command-line tool:
      the test's hyphenated ISBN-10 "0-123-45678-9", given by its groups,
      passes only the latter. */
  lemma HyphenatedAcceptedOnlyByCommandLine(g1: string, g2: string, g3: string, g4: string)
    requires g1 == "0" && g2 == "123" && g3 == "45678" && g4 == "9"
    ensures IsValidIsbnFormat(g1 + [Hyphen] + g2 + [Hyphen] + g3 + [Hyphen] + g4)
    ensures !MatchesClientPattern(g1 + [Hyphen] + g2 + [Hyphen] + g3 + [Hyphen] + g4)
  {
    var s := g1 + [Hyphen] + g2 + [Hyphen] + g3 + [Hyphen] + g4;
    assert IsValidIsbnFormat(s) by {
      HyphenatedGroups4(g1, g2, g3, g4);
      var b := g1 + g2 + g3 + g4;
      assert b == "0123456789";
      AcceptedDigitRuns(b, "9780123456789");
    }
    assert |s| == 13 && !IsDigit(s[1]);
  }

  /** The accepted examples of the command-line tool's tests. */
  lemma AcceptedDigitRuns(a: string, b: string)
    requires a == "0123456789" && b == "9780123456789"
    ensures IsValidIsbnFormat(a) && IsValidIsbnFormat(b)
  {
    DigitRunLength(a);
    DigitRunLength(b);
  }

  /** The test's hyphenated ISBN-13, "978-0-123-45678-9", given by its
      groups. */
  lemma AcceptedHyphenatedIsbn13(g1: string, g2: string, g3: string, g4: string, g5: string)
    requires g1 == "978" && g2 == "0" && g3 == "123" && g4 == "45678" && g5 == "9"
    ensures IsValidIsbnFormat(g1 + [Hyphen] + g2 + [Hyphen] + g3 + [Hyphen] + g4 + [Hyphen] + g5)
  {
    HyphenatedGroups(g1, g2, g3, g4, g5);
    var b := g1 + g2 + g3 + g4 + g5;
    assert b == "9780123456789";
    AcceptedDigitRuns("0123456789", b);
  }

  /** The rejected examples of the command-line tool's tests: lengths 5 and
      16, a trailing check character `X`, and letters. */
  lemma RejectedLengths(a: string, b: string)
    requires a == "12345" && b == "0123456789012345"
    ensures !IsValidIsbnFormat(a) && !IsValidIsbnFormat(b)
  {
    DigitRunLength(a);
    DigitRunLength(b);
  }

  lemma RejectedCheckCharacter(c: string)
    requires c == "978-012345678X"
    ensures !IsValidIsbnFormat(c)
  {
    assert c[13] == 'X';
    RejectsOtherCharacter(c, 13);
  }

  lemma RejectedLetters(d: string, e: string)
    requires d == "abcdefghij" && e == "978-A-123-45678-9"
    ensures !IsValidIsbnFormat(d) && !IsValidIsbnFormat(e)
  {
    assert d[0] == 'a';
    RejectsOtherCharacter(d, 0);
    assert e[4] == 'A';
    RejectsOtherCharacter(e, 4);
  }
}
