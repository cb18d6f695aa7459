/** Python's `int(s)` on a string in base 10, and `str(n)` on an integer.
    int() accepts surrounding whitespace, one optional sign, and decimal
    digits in which single underscores may separate two digits (PEP 515);
    any other string raises ValueError, modelled as None. */
module PyInt {
  import opened Wrappers

  /** The characters int() skips around a literal: the ASCII space, tab,
      line feed, vertical tab, form feed and carriage return, and the
      non-ASCII Unicode whitespace (which int() first turns into a space).
      The ASCII separators U+001C to U+001F are not among them. */
  predicate IsSpace(ch: char) {
    var n := ch as int;
    (9 <= n <= 13) || n == 32 || n == 0x85 || n == 0xA0 || n == 0x1680 ||
    (0x2000 <= n <= 0x200A) || n == 0x2028 || n == 0x2029 || n == 0x202F || n == 0x205F || n == 0x3000
  }

  predicate IsDigit(ch: char) {
    '0' <= ch <= '9'
  }

  function DigitValue(ch: char): nat {
    if IsDigit(ch) then ch as int - '0' as int else 0
  }

  function TrimStart(s: string): string {
    if |s| > 0 && IsSpace(s[0]) then TrimStart(s[1..]) else s
  }

  function TrimEnd(s: string): string {
    if |s| > 0 && IsSpace(s[|s| - 1]) then TrimEnd(s[..|s| - 1]) else s
  }

  function Strip(s: string): string {
    TrimEnd(TrimStart(s))
  }

  /** digit ("_"? digit)*  */
  predicate IsDigitRun(d: string) {
    && |d| > 0
    && IsDigit(d[0])
    && IsDigit(d[|d| - 1])
    && (forall i :: 0 <= i < |d| ==> IsDigit(d[i]) || d[i] == '_')
    && (forall i :: 0 <= i < |d| - 1 && d[i] == '_' ==> IsDigit(d[i + 1]))
  }

  /** The number the digits of `d` spell, skipping underscores. */
  function RunValue(d: string): nat {
    if d == [] then 0
    else if d[|d| - 1] == '_' then RunValue(d[..|d| - 1])
    else RunValue(d[..|d| - 1]) * 10 + DigitValue(d[|d| - 1])
  }

  function Parse(s: string): Option<int> {
    var t := Strip(s);
    if |t| > 0 && (t[0] == '+' || t[0] == '-') then
      if IsDigitRun(t[1..]) then
        var v: int := RunValue(t[1..]);
        Some(if t[0] == '-' then -v else v)
      else None
    else if IsDigitRun(t) then Some(RunValue(t))
    else None
  }

  function DigitChar(d: nat): char
    requires d < 10
  {
    ('0' as int + d) as char
  }

  function NatStr(n: nat): (s: string)
    ensures |s| > 0 && forall i :: 0 <= i < |s| ==> IsDigit(s[i])
  {
    if n < 10 then [DigitChar(n)] else NatStr(n / 10) + [DigitChar(n % 10)]
  }

  /** `str(n)`: decimal digits, a leading '-' for negatives. */
  function Str(n: int): (s: string)
    ensures |s| > 0
  {
    if n < 0 then "-" + NatStr(-n) else NatStr(n)
  }

  lemma {:induction false} NatStrValue(n: nat)
    ensures RunValue(NatStr(n)) == n
    decreases n
  {
    if n >= 10 {
      NatStrValue(n / 10);
      var s := NatStr(n);
      assert s[..|s| - 1] == NatStr(n / 10);
    }
  }

  lemma StripNoSpace(s: string)
    requires |s| > 0 && !IsSpace(s[0]) && !IsSpace(s[|s| - 1])
    ensures Strip(s) == s
  {
  }

  /** int(str(n)) == n for every integer n. */
  lemma {:induction false} ParseStr(n: int)
    ensures Parse(Str(n)) == Some(n)
  {
    var m: nat := if n < 0 then -n else n;
    var d := NatStr(m);
    NatStrValue(m);
    assert IsDigitRun(d);
    if n < 0 {
      var s := "-" + d;
      StripNoSpace(s);
      assert s[1..] == d;
    } else {
      StripNoSpace(d);
    }
  }

  /** int('\x1c5') raises: an ASCII information separator is not whitespace to int(). */
  lemma SeparatorIsNotSpace()
    ensures Parse("\U{1C}5") == None
  {
    assert Strip("\U{1C}5") == "\U{1C}5";
  }

  /** A string without a single decimal digit is never a Python integer literal. */
  lemma NeedsADigit(s: string)
    requires forall i :: 0 <= i < |s| ==> !IsDigit(s[i])
    ensures Parse(s) == None
  {
    var t := Strip(s);
    var k := StripIsInfix(s);
    if |t| > 0 {
      assert forall i :: 0 <= i < |t| ==> t[i] == s[k + i];
    }
  }

  lemma {:induction false} StripIsInfix(s: string) returns (k: nat)
    ensures k + |Strip(s)| <= |s| && s[k..k + |Strip(s)|] == Strip(s)
  {
    k := TrimStartIsSuffix(s);
    TrimEndIsPrefix(TrimStart(s));
  }

  lemma {:induction false} TrimStartIsSuffix(s: string) returns (k: nat)
    ensures k <= |s| && TrimStart(s) == s[k..]
    decreases |s|
  {
    if |s| > 0 && IsSpace(s[0]) {
      var j := TrimStartIsSuffix(s[1..]);
      k := j + 1;
    } else {
      k := 0;
    }
  }

  lemma {:induction false} TrimEndIsPrefix(s: string)
    ensures |TrimEnd(s)| <= |s| && TrimEnd(s) == s[..|TrimEnd(s)|]
    decreases |s|
  {
    if |s| > 0 && IsSpace(s[|s| - 1]) {
      TrimEndIsPrefix(s[..|s| - 1]);
    }
  }
}
