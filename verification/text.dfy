/** String operations the program uses from Python's `str` and JavaScript's
    `String`, stated over `seq<char>`. */
module Text {
  import opened Wrappers

  predicate IsDigit(c: char) {
    '0' <= c <= '9'
  }

  /** ASCII-only reading of Python's `str.isdigit` and of the regular
      expression class `\d` (which is ASCII in JavaScript). */
  predicate AllDigits(s: string) {
    forall i :: 0 <= i < |s| ==> IsDigit(s[i])
  }

  /** Number of occurrences of `c` in `s`. */
  function Count(s: string, c: char): (n: nat)
    ensures n <= |s|
    ensures n == 0 <==> c !in s
  {
    if s == [] then 0
    else (if s[0] == c then 1 else 0) + Count(s[1..], c)
  }

  /** Every occurrence of `c` deleted: Python's `s.replace(c, "")` for a
      one-character pattern. */
  function RemoveChar(s: string, c: char): (r: string)
    ensures c !in r
    ensures |r| == |s| - Count(s, c)
    ensures forall x :: x != c ==> (x in r <==> x in s)
  {
    if s == [] then []
    else
      assert s == [s[0]] + s[1..];
      (if s[0] == c then [] else [s[0]]) + RemoveChar(s[1..], c)
  }

  /** Deleting a character distributes over concatenation. */
  lemma {:induction false} RemoveCharAppend(a: string, b: string, c: char)
    ensures RemoveChar(a + b, c) == RemoveChar(a, c) + RemoveChar(b, c)
  {
    if a == [] {
      assert a + b == b;
    } else {
      assert (a + b)[1..] == a[1..] + b;
      assert (a + b)[0] == a[0];
      RemoveCharAppend(a[1..], b, c);
    }
  }

  /** A string without `c` is left as it is. */
  lemma {:induction false} RemoveCharAbsent(s: string, c: char)
    requires c !in s
    ensures RemoveChar(s, c) == s
  {
    if s != [] {
      assert c !in s[1..] by {
        forall i | 0 <= i < |s[1..]| ensures s[1..][i] != c {
          assert s[1..][i] == s[i + 1];
        }
      }
      RemoveCharAbsent(s[1..], c);
    }
  }

  /** Python's `sep.join(parts)` and JavaScript's `parts.join(sep)` on a list
      of strings. */
  function Join(sep: string, parts: seq<string>): (r: string)
    ensures |parts| == 1 ==> r == parts[0]
    ensures |parts| > 1 ==> r == parts[0] + sep + Join(sep, parts[1..])
  {
    if |parts| == 0 then ""
    else if |parts| == 1 then parts[0]
    else parts[0] + sep + Join(sep, parts[1..])
  }

  /** Decimal notation of an integer, as Python's `str(n)` and JavaScript's
      `String(n)` write it for whole numbers. */
  function Decimal(n: int): (r: string)
    ensures |r| > 0
    ensures n >= 0 ==> AllDigits(r)
    ensures n < 0 ==> r[0] == '-' && AllDigits(r[1..])
  {
    if n < 0 then "-" + Natural(-n) else Natural(n)
  }

  function Natural(n: nat): (r: string)
    ensures |r| > 0 && AllDigits(r)
    decreases n
  {
    var d := [(('0' as int) + n % 10) as char];
    if n < 10 then d else Natural(n / 10) + d
  }

  /** Reading back a string of digits. */
  function DigitsValue(s: string): nat
    requires AllDigits(s)
  {
    if s == [] then 0
    else DigitsValue(s[..|s| - 1]) * 10 + ((s[|s| - 1] as int) - ('0' as int))
  }

  /** Decimal notation of a natural number is read back as that number. */
  lemma {:induction false} NaturalRoundTrip(n: nat)
    ensures DigitsValue(Natural(n)) == n
    decreases n
  {
    var d := [(('0' as int) + n % 10) as char];
    if n >= 10 {
      NaturalRoundTrip(n / 10);
      var s := Natural(n / 10) + d;
      assert s[..|s| - 1] == Natural(n / 10);
    }
  }

  /** Decimal notation is read back as the number: the digits give its
      magnitude, after a minus sign exactly when it is negative. */
  lemma DecimalRoundTrip(n: int)
    ensures n >= 0 ==> DigitsValue(Decimal(n)) == n
    ensures n < 0 ==> Decimal(n)[0] == '-' && DigitsValue(Decimal(n)[1..]) == -n
  {
    if n >= 0 {
      NaturalRoundTrip(n);
    } else {
      NaturalRoundTrip(-n);
      assert Decimal(n)[1..] == Natural(-n);
    }
  }

  /** `p` occurs in `s` starting at position `i`. */
  predicate OccursAt(s: string, p: string, i: int) {
    0 <= i && i + |p| <= |s| && s[i..i + |p|] == p
  }

  /** First position at or after `k` where `p` occurs in `s`. */
  function IndexFrom(s: string, p: string, k: nat): (r: Option<nat>)
    ensures r.Some? ==> k <= r.value && OccursAt(s, p, r.value)
    ensures forall i {:trigger OccursAt(s, p, i)} ::
      k <= i && (r.None? || i < r.value) ==> !OccursAt(s, p, i)
    decreases |s| - k
  {
    if k + |p| > |s| then None
    else if s[k..k + |p|] == p then Some(k)
    else IndexFrom(s, p, k + 1)
  }

  /** JavaScript's `s.indexOf(p)`, with `None` for -1. */
  function IndexOf(s: string, p: string): (r: Option<nat>)
    ensures r.Some? ==> OccursAt(s, p, r.value)
    ensures forall i {:trigger OccursAt(s, p, i)} ::
      (r.None? || i < r.value) ==> !OccursAt(s, p, i)
  {
    IndexFrom(s, p, 0)
  }

  /** JavaScript's `s.replace(p, '')` with a string pattern: only the first
      occurrence of `p` is deleted. */
  function RemoveFirst(s: string, p: string): (r: string)
    ensures IndexOf(s, p).None? ==> r == s
    ensures IndexOf(s, p).Some? ==> |r| == |s| - |p|
    ensures IndexOf(s, p).Some? ==>
      var i := IndexOf(s, p).value;
      r == s[..i] + s[i + |p|..]
  {
    match IndexOf(s, p)
    case None => s
    case Some(i) => s[..i] + s[i + |p|..]
  }

  /** Removing the first occurrence of `p` from `p + rest` leaves `rest`. */
  lemma RemoveFirstOfPrefix(p: string, rest: string)
    ensures RemoveFirst(p + rest, p) == rest
  {
    assert OccursAt(p + rest, p, 0);
    assert (p + rest)[|p|..] == rest;
  }

  /** Number of leading characters of `s` that are spaces. */
  function LeadingSpaces(s: string, isSpace: char -> bool): (n: nat)
    ensures n <= |s|
    ensures forall i :: 0 <= i < n ==> isSpace(s[i])
    ensures n < |s| ==> !isSpace(s[n])
  {
    if s == [] || !isSpace(s[0]) then 0
    else 1 + LeadingSpaces(s[1..], isSpace)
  }

  /** Number of trailing characters of `s` that are spaces. */
  function TrailingSpaces(s: string, isSpace: char -> bool): (n: nat)
    ensures n <= |s|
    ensures forall i :: |s| - n <= i < |s| ==> isSpace(s[i])
    ensures n < |s| ==> !isSpace(s[|s| - n - 1])
  {
    if s == [] || !isSpace(s[|s| - 1]) then 0
    else 1 + TrailingSpaces(s[..|s| - 1], isSpace)
  }

  /** JavaScript's `s.trim()`, for the set of white-space characters given
      by `isSpace`. */
  function Trim(s: string, isSpace: char -> bool): (r: string)
    ensures r == [] || (!isSpace(r[0]) && !isSpace(r[|r| - 1]))
    ensures exists a :: TrimmedAt(s, isSpace, r, a)
  {
    var a := LeadingSpaces(s, isSpace);
    var b := TrailingSpaces(s[a..], isSpace);
    var r := s[a..|s| - b];
    assert TrimmedAt(s, isSpace, r, a);
    r
  }

  /** `r` is `s` with only spaces removed before position `a` and after
      `r` itself. */
  predicate TrimmedAt(s: string, isSpace: char -> bool, r: string, a: int) {
    && 0 <= a && a + |r| <= |s|
    && s[a..a + |r|] == r
    && (forall i :: 0 <= i < a ==> isSpace(s[i]))
    && (forall i :: a + |r| <= i < |s| ==> isSpace(s[i]))
  }

  /** A string trims to nothing exactly when it consists of spaces only. */
  lemma TrimBlank(s: string, isSpace: char -> bool)
    ensures Trim(s, isSpace) == [] <==> forall i :: 0 <= i < |s| ==> isSpace(s[i])
  {
    var r := Trim(s, isSpace);
    var a :| TrimmedAt(s, isSpace, r, a);
    if r != [] {
      assert s[a] == r[0];
    }
  }

  /** A string without leading or trailing spaces trims to itself. */
  lemma TrimUnpadded(s: string, isSpace: char -> bool)
    requires s == [] || (!isSpace(s[0]) && !isSpace(s[|s| - 1]))
    ensures Trim(s, isSpace) == s
  {
  }
}
