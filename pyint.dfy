/** Python's `int(text)` on a string, in base 10, and `str(n)` for its
    inverse: surrounding ASCII whitespace is ignored, one optional sign may
    lead, and single underscores may separate digits. */
module PyInt {
  import opened Wrappers

  /** The characters CPython skips around an integer literal. */
  predicate IsSpace(c: char) {
    c == ' ' || c == '\t' || c == '\n' || c == '\r' || c == '\U{000B}' || c == '\U{000C}'
  }

  predicate IsDigit(c: char) {
    '0' <= c <= '9'
  }

  function TrimStart(s: string): (r: string)
    ensures |r| <= |s| && r == s[|s| - |r|..]
    ensures |r| > 0 ==> !IsSpace(r[0])
  {
    if |s| > 0 && IsSpace(s[0]) then TrimStart(s[1..]) else s
  }

  function TrimEnd(s: string): (r: string)
    ensures |r| <= |s| && r == s[..|r|]
    ensures |r| > 0 ==> !IsSpace(r[|r| - 1])
  {
    if |s| > 0 && IsSpace(s[|s| - 1]) then TrimEnd(s[..|s| - 1]) else s
  }

  function Strip(s: string): string {
    TrimEnd(TrimStart(s))
  }

  /** Stripping only removes characters: what is left occurs in the text. */
  lemma StripInside(s: string)
    ensures forall c :: c in Strip(s) ==> c in s
  {
    var a := TrimStart(s);
    SliceMembers(s, a, TrimEnd(a));
  }

  /** A prefix of a suffix of `s` holds only characters of `s`. */
  lemma SliceMembers(s: string, a: string, t: string)
    requires |a| <= |s| && a == s[|s| - |a|..]
    requires |t| <= |a| && t == a[..|t|]
    ensures forall c :: c in t ==> c in s
  {
    forall c | c in t
      ensures c in s
    {
      var i :| 0 <= i < |t| && t[i] == c;
      assert s[|s| - |a| + i] == c;
    }
  }

  /** Digits and underscores only. */
  predicate DigitChars(s: string) {
    forall i :: 0 <= i < |s| ==> IsDigit(s[i]) || s[i] == '_'
  }

  /** `digit (["_"] digit)*`: a non-empty run of digits in which every
      underscore stands between two digits. */
  predicate IsDigitGroup(s: string) {
    && |s| > 0
    && DigitChars(s)
    && IsDigit(s[0])
    && IsDigit(s[|s| - 1])
    && forall i :: 0 <= i < |s| - 1 ==> !(s[i] == '_' && s[i + 1] == '_')
  }

  /** The number the digits spell, underscores ignored. */
  function DigitsValue(s: string): nat
    requires DigitChars(s)
  {
    if |s| == 0 then 0
    else if s[|s| - 1] == '_' then DigitsValue(s[..|s| - 1])
    else 10 * DigitsValue(s[..|s| - 1]) + (s[|s| - 1] as int - '0' as int)
  }

  /** An integer literal with no surrounding whitespace: one optional
      sign, then a digit group. */
  function ParseLiteral(t: string): (r: Option<int>)
    ensures r.Some? ==> exists i :: 0 <= i < |t| && IsDigit(t[i])
    ensures r.Some? && r.value < 0 ==> |t| > 0 && t[0] == '-'
  {
    if |t| > 0 && (t[0] == '-' || t[0] == '+') then
      if IsDigitGroup(t[1..]) then
        assert IsDigit(t[1]);
        var v: int := DigitsValue(t[1..]);
        Some(if t[0] == '-' then -v else v)
      else None
    else if IsDigitGroup(t) then
      assert IsDigit(t[0]);
      Some(DigitsValue(t))
    else None
  }

  /** `int(text)`: None where Python raises ValueError for the text's
      form. The interpreter's limit on the number of digits it converts
      is not part of this function. */
  function ParseInt(text: string): (r: Option<int>)
    ensures r.Some? ==> exists i :: 0 <= i < |text| && IsDigit(text[i])
    ensures r.Some? && r.value < 0 ==> '-' in text
  {
    StripInside(text);
    LiteralInside(Strip(text), text);
    ParseLiteral(Strip(text))
  }

  /** What a literal promises of its characters holds of any text that
      contains them all. */
  lemma LiteralInside(t: string, text: string)
    requires forall c :: c in t ==> c in text
    ensures ParseLiteral(t).Some? ==> exists i :: 0 <= i < |text| && IsDigit(text[i])
    ensures ParseLiteral(t).Some? && ParseLiteral(t).value < 0 ==> '-' in text
  {
    if ParseLiteral(t).Some? {
      var i :| 0 <= i < |t| && IsDigit(t[i]);
      assert t[i] in text;
      if ParseLiteral(t).value < 0 {
        assert t[0] in text;
      }
    }
  }

  function DigitChar(d: nat): (c: char)
    requires d < 10
    ensures IsDigit(c) && c as int - '0' as int == d
  {
    ('0' as int + d) as char
  }

  /** `str(n)` for a non-negative `n`: its decimal digits. */
  function ShowNat(n: nat): (s: string)
    ensures forall i :: 0 <= i < |s| ==> IsDigit(s[i])
    ensures IsDigitGroup(s)
  {
    if n < 10 then [DigitChar(n)] else ShowNat(n / 10) + [DigitChar(n % 10)]
  }

  /** `str(n)`: a minus sign exactly for a negative number, then digits. */
  function Show(n: int): (s: string)
    ensures |s| > 0 && (s[0] == '-' <==> n < 0)
    ensures forall i :: 0 < i < |s| ==> IsDigit(s[i])
    ensures n >= 0 ==> IsDigit(s[0])
  {
    if n < 0 then "-" + ShowNat(-n) else ShowNat(n)
  }

  lemma {:induction false} ShowNatValue(n: nat)
    ensures DigitChars(ShowNat(n)) && DigitsValue(ShowNat(n)) == n
  {
    var s := ShowNat(n);
    if n >= 10 {
      ShowNatValue(n / 10);
      assert s[..|s| - 1] == ShowNat(n / 10);
    }
  }

  /** A string with no whitespace at either end is its own strip. */
  lemma StripUnpadded(s: string)
    requires |s| > 0 && !IsSpace(s[0]) && !IsSpace(s[|s| - 1])
    ensures Strip(s) == s
  {
    assert TrimStart(s) == s;
  }

  /** Reading back what `str` wrote gives the number again. */
  lemma ParseShow(n: int)
    ensures ParseInt(Show(n)) == Some(n)
  {
    var m: nat := if n < 0 then -n else n;
    var d := ShowNat(m);
    ShowNatValue(m);
    var s := Show(n);
    assert !IsSpace(s[0]) && !IsSpace(s[|s| - 1]);
    StripUnpadded(s);
    if n < 0 {
      assert s[1..] == d;
      LiteralSigned(s, m);
    } else {
      LiteralUnsigned(s);
    }
  }

  /** A minus sign before a digit group reads as the negated digits. */
  lemma LiteralSigned(t: string, m: nat)
    requires |t| > 0 && t[0] == '-' && IsDigitGroup(t[1..]) && DigitsValue(t[1..]) == m
    ensures ParseLiteral(t) == Some(-(m as int))
  {
  }

  /** A digit group reads as the value of its digits. */
  lemma LiteralUnsigned(t: string)
    requires IsDigitGroup(t)
    ensures ParseLiteral(t) == Some(DigitsValue(t))
  {
    assert !(t[0] == '-' || t[0] == '+');
  }
}
