/**
  The string operations the pages use, restricted to ASCII: `toLowerCase`,
  `toUpperCase`, `includes`, `indexOf`, `replace` with a string pattern, and
  the decimal rendering of an integer inside a template literal.
 */
module Text {
  import opened Wrappers

  predicate IsUpper(c: char) { 'A' <= c <= 'Z' }

  predicate IsLower(c: char) { 'a' <= c <= 'z' }

  predicate IsDigit(c: char) { '0' <= c <= '9' }

  function ToLowerChar(c: char): char
  {
    if IsUpper(c) then (c as int + 32) as char else c
  }

  function ToUpperChar(c: char): char
  {
    if IsLower(c) then (c as int - 32) as char else c
  }

  /** `s.toLowerCase()` on ASCII letters; every other character is kept. */
  function ToLower(s: string): (r: string)
    ensures |r| == |s|
    ensures forall i :: 0 <= i < |s| ==> r[i] == ToLowerChar(s[i])
  {
    seq(|s|, i requires 0 <= i < |s| => ToLowerChar(s[i]))
  }

  lemma ToLowerAppend(a: string, b: string)
    ensures ToLower(a + b) == ToLower(a) + ToLower(b)
  {
    assert forall i :: 0 <= i < |a + b| ==> ToLower(a + b)[i] == (ToLower(a) + ToLower(b))[i];
  }

  /** `n` occurs in `h` starting at index `i`. */
  ghost predicate OccursAt(h: string, n: string, i: int)
  {
    0 <= i && i + |n| <= |h| && h[i..i + |n|] == n
  }

  /** `i` is the leftmost index at which `n` occurs in `h`. */
  ghost predicate FirstOccurrence(h: string, n: string, i: int)
  {
    OccursAt(h, n, i) && forall j :: 0 <= j < i ==> !OccursAt(h, n, j)
  }

  lemma OccursShift(h: string, n: string)
    requires |h| > 0
    ensures forall j {:trigger OccursAt(h[1..], n, j)} :: 0 <= j ==> (OccursAt(h[1..], n, j) <==> OccursAt(h, n, j + 1))
  {
    forall j | 0 <= j ensures OccursAt(h[1..], n, j) <==> OccursAt(h, n, j + 1) {
      if 0 <= j && j + |n| <= |h[1..]| {
        assert h[1..][j..j + |n|] == h[j + 1..j + 1 + |n|];
      }
    }
  }

  /** `h.indexOf(n)`, with `None` for -1. */
  function IndexOf(h: string, n: string): (r: Option<nat>)
    ensures r.Some? ==> FirstOccurrence(h, n, r.value)
    ensures r.None? <==> forall j :: !OccursAt(h, n, j)
    decreases |h|
  {
    if |h| < |n| then None
    else if h[..|n|] == n then
      assert OccursAt(h, n, 0);
      Some(0)
    else
      OccursShift(h, n);
      assert !OccursAt(h, n, 0);
      match IndexOf(h[1..], n)
      case None =>
        assert forall j :: !OccursAt(h, n, j) by {
          forall j | 0 < j ensures !OccursAt(h, n, j) {
            assert !OccursAt(h[1..], n, j - 1);
          }
        }
        None
      case Some(i) =>
        assert FirstOccurrence(h, n, i + 1) by {
          forall j | 0 < j < i + 1 ensures !OccursAt(h, n, j) {
            assert !OccursAt(h[1..], n, j - 1);
          }
        }
        Some(i + 1)
  }

  /** `h.includes(n)`. */
  function Contains(h: string, n: string): (b: bool)
    ensures b <==> exists i :: OccursAt(h, n, i)
  {
    IndexOf(h, n).Some?
  }

  lemma ContainsEmpty(h: string)
    ensures Contains(h, "")
  {
    assert OccursAt(h, "", 0);
  }

  /** A text that contains `n + e` contains `n`: lengthening a search never matches more. */
  lemma ContainsPrefix(h: string, n: string, e: string)
    requires Contains(h, n + e)
    ensures Contains(h, n)
  {
    var i :| OccursAt(h, n + e, i);
    assert h[i..i + |n|] == (n + e)[..|n|] == n;
    assert OccursAt(h, n, i);
  }

  /** A text lacking some character of `n` does not contain `n`. */
  lemma MissingChar(h: string, n: string, k: nat)
    requires k < |n| && n[k] !in h
    ensures !Contains(h, n)
  {
    forall i | 0 <= i && i + |n| <= |h| ensures !OccursAt(h, n, i) {
      assert h[i..i + |n|][k] == h[i + k];
    }
  }

  /** An occurrence with no earlier copy of `n`'s first character is the first occurrence. */
  lemma FirstOccurrenceBefore(h: string, n: string, i: int)
    requires |n| > 0 && OccursAt(h, n, i) && n[0] !in h[..i]
    ensures FirstOccurrence(h, n, i)
  {
    forall j | 0 <= j < i ensures !OccursAt(h, n, j) {
      assert h[..i][j] == h[j];
      if j + |n| <= |h| {
        assert h[j..j + |n|][0] == h[j];
      }
    }
  }

  /** `s.replace(pat, rep)` with a string pattern: only the leftmost occurrence is replaced. */
  function ReplaceFirst(s: string, pat: string, rep: string): (r: string)
    ensures !Contains(s, pat) ==> r == s
    ensures forall i :: FirstOccurrence(s, pat, i) ==> r == s[..i] + rep + s[i + |pat|..]
  {
    match IndexOf(s, pat)
    case None => s
    case Some(i) => s[..i] + rep + s[i + |pat|..]
  }

  function DigitChar(d: nat): char
    requires d < 10
  {
    ('0' as int + d) as char
  }

  function DigitValue(c: char): nat
  {
    if IsDigit(c) then c as int - '0' as int else 0
  }

  /** Reads a run of decimal digits. */
  function ParseNat(s: string): nat
    decreases |s|
  {
    if s == [] then 0 else ParseNat(s[..|s| - 1]) * 10 + DigitValue(s[|s| - 1])
  }

  /** The decimal rendering of a natural number, which `ParseNat` reads back. */
  function NatToString(n: nat): (s: string)
    ensures |s| > 0
    ensures forall i :: 0 <= i < |s| ==> IsDigit(s[i])
    ensures ParseNat(s) == n
    ensures |s| == 1 <==> n < 10
    ensures |s| > 1 ==> s[0] != '0'
    decreases n
  {
    if n < 10 then [DigitChar(n)]
    else
      var d := NatToString(n / 10);
      var s := d + [DigitChar(n % 10)];
      assert s[..|s| - 1] == d;
      assert s[0] == d[0];
      s
  }

  /**
    `${n}` for an integer `n`: a minus sign for a negative number, then the
    digits of its magnitude, with no leading zero.
   */
  function IntToString(n: int): (s: string)
    ensures |s| > 0
    ensures forall i :: 0 <= i < |s| ==> IsDigit(s[i]) || (i == 0 && s[i] == '-')
    ensures s[0] == '-' <==> n < 0
    ensures n >= 0 ==> ParseNat(s) == n && (|s| == 1 || s[0] != '0')
    ensures n < 0 ==> |s| > 1 && s[0] == '-' && ParseNat(s[1..]) == -n && (|s| == 2 || s[1] != '0')
  {
    if n < 0 then
      var d := NatToString(-n);
      assert ("-" + d)[1..] == d;
      "-" + d
    else NatToString(n)
  }
}
