/**
 * The pieces of the C library the settings code leans on, over Dafny
 * strings: isspace/isdigit in the "C" locale, the game's prefix() test,
 * strstr(s, "=") (a search for the first '='), atoi and the decimal
 * formatting of printf's %d.
 */
module CStr {

  import opened CInt

  /** isspace in the "C" locale: space, \t, \n, \v, \f, \r. */
  predicate IsSpace(c: char)
  {
    c == ' ' || 9 <= c as int <= 13
  }

  predicate IsDigit(c: char)
  {
    '0' <= c <= '9'
  }

  predicate AllDigits(s: string)
  {
    forall k :: 0 <= k < |s| ==> IsDigit(s[k])
  }

  /** The game's prefix(s, t): t is a prefix of s. */
  predicate HasPrefix(s: string, t: string)
  {
    |t| <= |s| && s[..|t|] == t
  }

  /** strchr-style search: the index of the first occurrence of c in s. */
  function FindChar(s: string, c: char): (r: Option<nat>)
    ensures r.Some? ==> r.value < |s| && s[r.value] == c && forall j :: 0 <= j < r.value ==> s[j] != c
    ensures r.None? ==> forall j :: 0 <= j < |s| ==> s[j] != c
  {
    if |s| == 0 then None
    else if s[0] == c then Some(0)
    else match FindChar(s[1..], c)
      case None => None
      case Some(k) => Some(k + 1)
  }

  /** Leading white space skipped, as strtol does. */
  function SkipSpaces(s: string): (r: string)
    ensures |r| <= |s| && r == s[|s| - |r|..]
    ensures forall j :: 0 <= j < |s| - |r| ==> IsSpace(s[j])
    ensures |r| > 0 ==> !IsSpace(r[0])
  {
    if |s| > 0 && IsSpace(s[0]) then SkipSpaces(s[1..]) else s
  }

  /** The maximal leading run of decimal digits. */
  function DigitRun(s: string): (r: string)
    ensures AllDigits(r) && r <= s
    ensures |r| < |s| ==> !IsDigit(s[|r|])
  {
    if |s| > 0 && IsDigit(s[0]) then [s[0]] + DigitRun(s[1..]) else []
  }

  /** The value of a string of decimal digits, most significant first. */
  function DigitsValue(ds: string): nat
    requires AllDigits(ds)
  {
    if |ds| == 0 then 0
    else DigitsValue(ds[..|ds| - 1]) * 10 + (ds[|ds| - 1] as int - '0' as int)
  }

  /**
   * C's atoi: white space, an optional sign, then the longest run of digits;
   * no digits at all gives 0. (Overflow, undefined in C, is not modelled:
   * the value is unbounded.)
   */
  function Atoi(s: string): (n: int)
    ensures var t := SkipSpaces(s);
      |t| == 0 || !(t[0] == '-' || t[0] == '+' || IsDigit(t[0])) ==> n == 0
    ensures n < 0 ==> |SkipSpaces(s)| > 0 && SkipSpaces(s)[0] == '-'
  {
    var t := SkipSpaces(s);
    if |t| > 0 && t[0] == '-' then -(DigitsValue(DigitRun(t[1..])) as int)
    else if |t| > 0 && t[0] == '+' then DigitsValue(DigitRun(t[1..]))
    else DigitsValue(DigitRun(t))
  }

  function DigitChar(d: nat): (c: char)
    requires d < 10
    ensures IsDigit(c) && c as int - '0' as int == d
  {
    ('0' as int + d) as char
  }

  /** The digits printf("%u") writes for n. */
  function NatToString(n: nat): (s: string)
    ensures |s| >= 1 && AllDigits(s)
    ensures n < 10 ==> s == [DigitChar(n)]
  {
    if n < 10 then [DigitChar(n)] else NatToString(n / 10) + [DigitChar(n % 10)]
  }

  /** The text printf("%d") writes for n. */
  function Itoa(n: int): (s: string)
    ensures |s| >= 1
    ensures 0 <= n < 10 ==> s == [DigitChar(n)]
    ensures n >= 0 ==> AllDigits(s)
    ensures n < 0 ==> s[0] == '-' && |s| >= 2 && AllDigits(s[1..])
  {
    if n < 0 then "-" + NatToString(-n) else NatToString(n)
  }

  lemma {:induction false} DigitRunOfDigits(ds: string)
    requires AllDigits(ds)
    ensures DigitRun(ds) == ds
  {
    if |ds| > 0 {
      DigitRunOfDigits(ds[1..]);
      assert [ds[0]] + ds[1..] == ds;
    }
  }

  lemma {:induction false} ValueOfNatToString(n: nat)
    ensures DigitsValue(NatToString(n)) == n
  {
    if n >= 10 {
      ValueOfNatToString(n / 10);
      var s := NatToString(n);
      assert s[..|s| - 1] == NatToString(n / 10);
    }
  }

  /** atoi on a run of digits: no spaces to skip, no sign, the whole run counts. */
  lemma AtoiOfDigits(ds: string)
    requires |ds| >= 1 && AllDigits(ds)
    ensures Atoi(ds) == DigitsValue(ds)
  {
    DigitRunOfDigits(ds);
    assert IsDigit(ds[0]) && !IsSpace(ds[0]);
    assert SkipSpaces(ds) == ds;
  }

  /** atoi on '-' and a run of digits: the negated value of the run. */
  lemma AtoiOfNegDigits(ds: string)
    requires |ds| >= 1 && AllDigits(ds)
    ensures Atoi("-" + ds) == -(DigitsValue(ds) as int)
  {
    DigitRunOfDigits(ds);
    var neg := "-" + ds;
    assert neg[0] == '-' && !IsSpace(neg[0]);
    assert SkipSpaces(neg) == neg;
    assert neg[1..] == ds;
  }

  /** Reading back what %d wrote gives the number: atoi(itoa(n)) == n. */
  lemma AtoiItoa(n: int)
    ensures Atoi(Itoa(n)) == n
  {
    var m := if n < 0 then -n else n;
    var ds := NatToString(m);
    ValueOfNatToString(m);
    if n < 0 {
      AtoiOfNegDigits(ds);
    } else {
      AtoiOfDigits(ds);
    }
  }
}
