/** Decimal digits: the canonical decimal rendering of a number and Python's
    `int()` applied to a string, as used on a section header's count. */
module Decimal {
  import opened Values

  predicate IsDigit(c: char) { '0' <= c <= '9' }

  predicate AllDigits(s: string) { forall i :: 0 <= i < |s| ==> IsDigit(s[i]) }

  function DigitValue(c: char): (d: nat)
    requires IsDigit(c)
    ensures d < 10
  {
    c as int - '0' as int
  }

  function DigitChar(d: nat): (c: char)
    requires d < 10
    ensures IsDigit(c) && DigitValue(c) == d
  {
    ('0' as int + d) as char
  }

  /** The number a string of decimal digits denotes, most significant first. */
  function ValueOf(s: string): nat
    requires AllDigits(s)
  {
    if s == [] then 0 else 10 * ValueOf(s[..|s| - 1]) + DigitValue(s[|s| - 1])
  }

  /** `str(n)` for n >= 0: decimal digits without leading zeros. */
  function Show(n: nat): (s: string)
    ensures |s| > 0 && AllDigits(s)
    ensures s[0] == '0' <==> n == 0
    ensures n == 0 ==> s == "0"
  {
    if n < 10 then [DigitChar(n)] else Show(n / 10) + [DigitChar(n % 10)]
  }

  /** Reading back what Show wrote gives the number. */
  lemma {:induction false} ValueOfShow(n: nat)
    ensures ValueOf(Show(n)) == n
  {
    if n >= 10 {
      var s := Show(n);
      assert s[..|s| - 1] == Show(n / 10);
      ValueOfShow(n / 10);
    }
  }

  /** The whitespace characters `int()` strips (the ASCII ones). */
  predicate IsSpace(c: char)
  {
    c == ' ' || c == '\t' || c == '\n' || c == '\r' || c as int == 11 || c as int == 12
  }

  function StripStart(s: string): (r: string)
    ensures r == [] || !IsSpace(r[0])
    ensures |r| <= |s|
  {
    if |s| > 0 && IsSpace(s[0]) then StripStart(s[1..]) else s
  }

  function StripEnd(s: string): (r: string)
    ensures r == [] || !IsSpace(r[|r| - 1])
    ensures |r| <= |s|
  {
    if |s| > 0 && IsSpace(s[|s| - 1]) then StripEnd(s[..|s| - 1]) else s
  }

  /** `s.strip()` */
  function Strip(s: string): string
  {
    StripEnd(StripStart(s))
  }

  /** Digits in which single underscores may separate two digits, as `int()`
      accepts them: "1_000" but not "_1", "1_" or "1__0". */
  predicate Grouped(s: string)
  {
    && |s| > 0
    && IsDigit(s[0])
    && IsDigit(s[|s| - 1])
    && (forall i :: 0 <= i < |s| ==> IsDigit(s[i]) || s[i] == '_')
    && (forall i :: 0 <= i < |s| - 1 ==> s[i] == '_' ==> s[i + 1] != '_')
  }

  /** The digits of a grouped numeral with its underscores dropped. */
  function Ungrouped(s: string): (r: string)
    requires forall i :: 0 <= i < |s| ==> IsDigit(s[i]) || s[i] == '_'
    ensures AllDigits(r)
    ensures AllDigits(s) ==> r == s
  {
    if s == [] then []
    else if s[0] == '_' then Ungrouped(s[1..])
    else [s[0]] + Ungrouped(s[1..])
  }

  /** Python's `int(s)` in base 10: None where `int` raises ValueError. */
  function ParseInt(s: string): (r: Option<int>)
  {
    var t := Strip(s);
    if |t| > 0 && (t[0] == '-' || t[0] == '+') then
      var body := t[1..];
      if Grouped(body) then
        var n: int := ValueOf(Ungrouped(body));
        Some(if t[0] == '-' then -n else n)
      else None
    else if Grouped(t) then Some(ValueOf(Ungrouped(t)))
    else None
  }

  /** `int(str(n)) == n` and `int('-' + str(n)) == -n`. */
  lemma ParseIntShow(n: nat)
    ensures ParseInt(Show(n)) == Some(n)
    ensures ParseInt("-" + Show(n)) == Some(-(n as int))
  {
    var s := Show(n);
    assert StripStart(s) == s;
    assert StripEnd(s) == s;
    assert Strip(s) == s;
    ValueOfShow(n);
    var m := "-" + s;
    assert StripStart(m) == m;
    assert StripEnd(m) == m;
    assert m[1..] == s;
  }

  /** `int()` rejects a text that holds no digit at all. */
  lemma {:induction false} ParseIntNeedsDigit(s: string)
    requires forall i :: 0 <= i < |s| ==> !IsDigit(s[i])
    ensures ParseInt(s) == None
  {
    StripInside(s);
  }

  lemma {:induction false} StripInside(s: string)
    ensures forall i :: 0 <= i < |Strip(s)| ==> Strip(s)[i] in s
  {
    StripStartInside(s);
    StripEndInside(StripStart(s));
  }

  lemma {:induction false} StripStartInside(s: string)
    ensures forall i :: 0 <= i < |StripStart(s)| ==> StripStart(s)[i] in s
  {
    if |s| > 0 && IsSpace(s[0]) {
      StripStartInside(s[1..]);
      forall i | 0 <= i < |StripStart(s)| ensures StripStart(s)[i] in s {
        assert StripStart(s)[i] in s[1..];
      }
    }
  }

  lemma {:induction false} StripEndInside(s: string)
    ensures forall i :: 0 <= i < |StripEnd(s)| ==> StripEnd(s)[i] in s
  {
    if |s| > 0 && IsSpace(s[|s| - 1]) {
      StripEndInside(s[..|s| - 1]);
      forall i | 0 <= i < |StripEnd(s)| ensures StripEnd(s)[i] in s {
        assert StripEnd(s)[i] in s[..|s| - 1];
      }
    }
  }
}
