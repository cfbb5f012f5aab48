/** The pieces of Rust's `format!` that the deploy flow relies on: decimal rendering of an integer,
    concatenation, and the infix / prefix / suffix views used to read a formatted string back. */
module Text {

  predicate IsDigit(c: char) {
    '0' <= c <= '9'
  }

  predicate AllDigits(s: string) {
    forall i :: 0 <= i < |s| ==> IsDigit(s[i])
  }

  function DigitChar(d: nat): (c: char)
    requires d < 10
    ensures IsDigit(c)
  {
    ('0' as int + d) as char
  }

  function DigitValue(c: char): (d: nat)
    requires IsDigit(c)
    ensures d < 10 && DigitChar(d) == c
  {
    c as int - '0' as int
  }

  /** The decimal text of `n`, as `{}` formats an unsigned integer. */
  function Decimal(n: nat): (s: string)
    ensures 1 <= |s|
    ensures AllDigits(s)
    ensures s[0] == '0' ==> n == 0
    decreases n
  {
    if n < 10 then [DigitChar(n)] else Decimal(n / 10) + [DigitChar(n % 10)]
  }

  /** Reads a string of decimal digits back as a number. */
  function ParseDecimal(s: string): nat
    requires AllDigits(s)
  {
    if s == [] then 0 else ParseDecimal(s[..|s| - 1]) * 10 + DigitValue(s[|s| - 1])
  }

  /** Rendering a number and reading it back gives the number again: `Decimal` is injective. */
  lemma {:induction false} ParseDecimalOfDecimal(n: nat)
    ensures ParseDecimal(Decimal(n)) == n
    decreases n
  {
    var s := Decimal(n);
    if n >= 10 {
      ParseDecimalOfDecimal(n / 10);
      assert s[..|s| - 1] == Decimal(n / 10);
      assert DigitValue(s[|s| - 1]) == n % 10;
    } else {
      assert s[..|s| - 1] == [];
    }
  }

  /** A number from 100 to 999 is rendered as exactly three digits: hundreds, tens and units. */
  lemma {:induction false} DecimalOfThreeDigits(n: nat)
    requires 100 <= n <= 999
    ensures |Decimal(n)| == 3
    ensures Decimal(n) == [DigitChar(n / 100), DigitChar(n / 10 % 10), DigitChar(n % 10)]
  {
    assert Decimal(n / 10) == Decimal(n / 100) + [DigitChar(n / 10 % 10)];
    assert Decimal(n / 100) == [DigitChar(n / 100)];
  }

  /** `part` occurs in `s` starting at position `i`. */
  predicate OccursAt(s: string, part: string, i: int) {
    0 <= i <= |s| - |part| && s[i..i + |part|] == part
  }

  /** `part` occurs somewhere inside `s`. */
  predicate Contains(s: string, part: string) {
    exists i :: 0 <= i <= |s| && OccursAt(s, part, i)
  }

  lemma ContainsMiddle(front: string, part: string, back: string)
    ensures Contains(front + part + back, part)
  {
    var s := front + part + back;
    assert s[|front|..|front| + |part|] == part;
    assert OccursAt(s, part, |front|);
  }

  predicate HasPrefix(s: string, p: string) {
    |p| <= |s| && s[..|p|] == p
  }

  predicate HasSuffix(s: string, p: string) {
    |p| <= |s| && s[|s| - |p|..] == p
  }

  lemma ConcatAssociative(a: string, b: string, c: string)
    ensures a + b + c == a + (b + c)
  {
  }

  lemma DropPrefix(p: string, s: string)
    ensures HasPrefix(p + s, p)
    ensures (p + s)[|p|..] == s
  {
    assert (p + s)[..|p|] == p;
  }

  lemma DropSuffix(s: string, q: string)
    ensures HasSuffix(s + q, q)
    ensures (s + q)[..|s|] == s
  {
    assert (s + q)[|s|..] == q;
  }

  /** The position of the first `c` in `s`, or `|s|` when there is none. */
  function IndexOf(s: string, c: char): (k: nat)
    ensures k <= |s|
    ensures k < |s| ==> s[k] == c
    ensures forall j :: 0 <= j < k ==> s[j] != c
  {
    if s == [] then 0
    else if s[0] == c then 0
    else 1 + IndexOf(s[1..], c)
  }

  /** Splitting at the first separator finds the exact boundary when the front part holds none. */
  lemma IndexOfJoin(front: string, c: char, back: string)
    requires c !in front
    ensures IndexOf(front + [c] + back, c) == |front|
  {
    var s := front + [c] + back;
    assert s[|front|] == c;
    forall j | 0 <= j < |front|
      ensures s[j] != c
    {
      assert s[j] == front[j];
    }
  }
}
