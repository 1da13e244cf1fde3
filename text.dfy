/**
 * The two library routines the core leans on for text: strings.LastIndex
 * with a one-character separator, and decimal rendering of an int as
 * strconv.Itoa and the %d verb produce it. ParseInt is the reference
 * inverse of Itoa, used to state what the decimal text carries.
 */
module Text {
  import opened Wrappers

  /** Index of the last occurrence of c in s, or -1 when there is none. */
  function LastIndex(s: string, c: char): (k: int)
    ensures -1 <= k < |s|
    ensures k >= 0 ==> s[k] == c
    ensures forall j :: k < j < |s| ==> s[j] != c
    decreases |s|
  {
    if s == [] then -1
    else if s[|s| - 1] == c then |s| - 1
    else LastIndex(s[..|s| - 1], c)
  }

  /** The last occurrence of c in a + [c] + b is the one between a and b when b has none. */
  lemma LastIndexAfter(a: string, c: char, b: string)
    requires c !in b
    ensures LastIndex(a + [c] + b, c) == |a|
  {
    assert (a + [c] + b)[|a|] == c;
  }

  /** Regrouping a concatenation of three strings. */
  lemma AppendAssoc(a: string, b: string, c: string)
    ensures a + (b + c) == a + b + c
  {
  }

  predicate IsDigit(c: char) {
    '0' <= c <= '9'
  }

  predicate AllDigits(s: string) {
    forall i :: 0 <= i < |s| ==> IsDigit(s[i])
  }

  function DigitChar(d: nat): char
    requires d < 10
  {
    ('0' as int + d) as char
  }

  /** strconv.Itoa: a minus sign for negatives, then the decimal digits, most significant first. */
  function Itoa(i: int): (r: string)
    ensures |r| > 0 && (r[0] == '-' <==> i < 0)
    decreases if i < 0 then 1 - i else i
  {
    if i < 0 then "-" + Itoa(-i)
    else if i < 10 then [DigitChar(i)]
    else Itoa(i / 10) + [DigitChar(i % 10)]
  }

  /** The text of a non-negative number is a non-empty run of digits without a leading zero. */
  lemma {:induction false} NaturalShape(n: nat)
    ensures |Itoa(n)| > 0 && AllDigits(Itoa(n))
    ensures |Itoa(n)| > 1 ==> Itoa(n)[0] != '0'
    decreases n
  {
    if n >= 10 {
      NaturalShape(n / 10);
      assert Itoa(n)[0] == Itoa(n / 10)[0];
    }
  }

  /** Itoa's text is never empty, starts with '-' exactly for negatives, and is digits after that. */
  lemma ItoaShape(i: int)
    ensures |Itoa(i)| > 0
    ensures Itoa(i)[0] == '-' <==> i < 0
    ensures AllDigits(Itoa(i)[1..]) && (i >= 0 ==> AllDigits(Itoa(i)))
  {
    if i < 0 {
      NaturalShape(-i);
      assert Itoa(i)[1..] == Itoa(-i);
    } else {
      NaturalShape(i);
    }
  }

  /** Value of a string of decimal digits (the empty string reads as 0). */
  function DigitsValue(s: string): nat
    requires AllDigits(s)
  {
    if s == [] then 0
    else DigitsValue(s[..|s| - 1]) * 10 + (s[|s| - 1] as int - '0' as int)
  }

  /** Reads back an optionally negative decimal integer; None for anything else. */
  function ParseInt(s: string): Option<int> {
    if |s| > 1 && s[0] == '-' && AllDigits(s[1..]) then Some(-(DigitsValue(s[1..]) as int))
    else if |s| > 0 && AllDigits(s) then Some(DigitsValue(s))
    else None
  }

  lemma {:induction false} NaturalRoundTrip(n: nat)
    ensures AllDigits(Itoa(n)) && DigitsValue(Itoa(n)) == n
    decreases n
  {
    NaturalShape(n);
    if n >= 10 {
      var s := Itoa(n);
      assert s[..|s| - 1] == Itoa(n / 10);
      NaturalRoundTrip(n / 10);
    }
  }

  /** Itoa loses nothing: the decimal text reads back as the same integer. */
  lemma ItoaRoundTrip(i: int)
    ensures ParseInt(Itoa(i)) == Some(i)
  {
    if i < 0 {
      var t := Itoa(-i);
      NaturalRoundTrip(-i);
      NaturalShape(-i);
      assert Itoa(i) == "-" + t;
      assert ("-" + t)[1..] == t;
    } else {
      NaturalRoundTrip(i);
      NaturalShape(i);
    }
  }
}
