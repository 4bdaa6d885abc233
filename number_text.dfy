/** The decimal text of integers, as `'%s' % n` writes it and as `int(text.strip())`
    reads it back (a3sdt.py, save_pid and read_pid). */
module NumberText {
  import opened Wrappers

  /** The characters Python's `str.isspace` accepts, which `str.strip()` removes. */
  predicate IsSpace(c: char) {
    c == ' ' || ('\t' <= c <= '\r') || ('\U{1C}' <= c <= '\U{1F}') || c == '\U{85}' || c == '\U{A0}'
    || c == '\U{1680}' || ('\U{2000}' <= c <= '\U{200A}') || c == '\U{2028}' || c == '\U{2029}'
    || c == '\U{202F}' || c == '\U{205F}' || c == '\U{3000}'
  }

  predicate AllSpace(s: string) {
    forall i :: 0 <= i < |s| ==> IsSpace(s[i])
  }

  predicate IsDigit(c: char) {
    '0' <= c <= '9'
  }

  predicate AllDigits(s: string) {
    forall i :: 0 <= i < |s| ==> IsDigit(s[i])
  }

  function DigitChar(d: nat): (c: char)
    requires d < 10
    ensures IsDigit(c) && c as int - '0' as int == d
  {
    ('0' as int + d) as char
  }

  /** The number a string of ASCII digits denotes, most significant digit first. */
  function DigitsValue(s: string): nat
    requires AllDigits(s)
  {
    if s == [] then 0 else DigitsValue(s[..|s| - 1]) * 10 + (s[|s| - 1] as int - '0' as int)
  }

  /** `str(n)` for a natural number: its digits, without leading zeros. */
  function NatText(n: nat): (s: string)
    ensures |s| > 0 && AllDigits(s)
    ensures |s| > 1 ==> s[0] != '0'
  {
    if n < 10 then [DigitChar(n)] else NatText(n / 10) + [DigitChar(n % 10)]
  }

  /** `'%s' % i` for a Python int: a minus sign exactly for negative numbers, then the
      digits of the magnitude. */
  function IntText(i: int): (s: string)
    ensures |s| > 0 && (s[0] == '-' <==> i < 0)
    ensures AllDigits(if i < 0 then s[1..] else s) && |if i < 0 then s[1..] else s| > 0
  {
    if i < 0 then "-" + NatText(-i) else NatText(i)
  }

  /** `s.lstrip()`. */
  function StripLeft(s: string): (r: string)
    ensures |r| <= |s| && r == s[|s| - |r|..]
    ensures forall i :: 0 <= i < |s| - |r| ==> IsSpace(s[i])
    ensures r == [] || !IsSpace(r[0])
  {
    if |s| > 0 && IsSpace(s[0]) then StripLeft(s[1..]) else s
  }

  /** `s.rstrip()`. */
  function StripRight(s: string): (r: string)
    ensures |r| <= |s| && r == s[..|r|]
    ensures forall i :: |r| <= i < |s| ==> IsSpace(s[i])
    ensures r == [] || !IsSpace(r[|r| - 1])
  {
    if |s| > 0 && IsSpace(s[|s| - 1]) then StripRight(s[..|s| - 1]) else s
  }

  /** `s.strip()`. */
  function Strip(s: string): string {
    StripRight(StripLeft(s))
  }

  /** A non-empty run of ASCII digits, or nothing. */
  function ParseDigits(s: string): Option<nat> {
    if |s| > 0 && AllDigits(s) then Some(DigitsValue(s)) else None
  }

  /** `int(s)` on already stripped text: an optional sign, then decimal digits;
      `None` stands for the `ValueError` Python raises. */
  function ParseInt(s: string): (r: Option<int>)
    ensures r.Some? <==>
      (|s| > 0 && AllDigits(s)) || (|s| > 1 && (s[0] == '+' || s[0] == '-') && AllDigits(s[1..]))
    ensures r.Some? && |s| > 0 && s[0] == '-' ==> r.value <= 0
    ensures r.Some? && |s| > 0 && s[0] != '-' ==> r.value >= 0
  {
    if |s| > 0 && (s[0] == '+' || s[0] == '-') then
      var magnitude :- ParseDigits(s[1..]);
      var m: int := magnitude;
      Some(if s[0] == '-' then -m else m)
    else
      var magnitude :- ParseDigits(s);
      Some(magnitude)
  }

  /** `int(pid_file.read().strip())`: an empty or blank file is a ValueError, and any
      text that parses contains a digit. */
  function ParsePid(text: string): (r: Option<int>)
    ensures AllSpace(text) ==> r.None?
    ensures r.Some? ==> exists i :: 0 <= i < |text| && IsDigit(text[i])
  {
    var stripped := Strip(text);
    var left := StripLeft(text);
    assert left == text[|text| - |left|..];
    assert stripped == left[..|stripped|];
    var r := ParseInt(stripped);
    assert r.Some? ==> exists i :: 0 <= i < |text| && IsDigit(text[i]) by {
      if r.Some? {
        var j := if IsDigit(stripped[0]) then 0 else 1;
        assert IsDigit(stripped[j]);
        assert text[|text| - |left| + j] == stripped[j];
      }
    }
    r
  }

  lemma {:induction false} NatTextValue(n: nat)
    ensures DigitsValue(NatText(n)) == n
  {
    if n >= 10 {
      var s := NatText(n);
      assert s[..|s| - 1] == NatText(n / 10);
      NatTextValue(n / 10);
    }
  }

  lemma {:induction false} ParseIntText(i: int)
    ensures ParseInt(IntText(i)) == Some(i)
  {
    var t := IntText(i);
    if i < 0 {
      var digits := NatText(-i);
      assert t == "-" + digits && t[0] == '-';
      assert t[1..] == digits;
      NatTextValue(-i);
      assert ParseDigits(t[1..]) == Some(-i);
    } else {
      assert t == NatText(i) && IsDigit(t[0]);
      NatTextValue(i);
      assert ParseDigits(t) == Some(i);
    }
  }

  /** The text save_pid writes begins and ends with a character strip() keeps. */
  lemma IntTextUnpadded(i: int)
    ensures |IntText(i)| > 0 && !IsSpace(IntText(i)[0]) && !IsSpace(IntText(i)[|IntText(i)| - 1])
  {
    var t := IntText(i);
    if i < 0 {
      assert t == "-" + NatText(-i);
      assert t[|t| - 1] == NatText(-i)[|NatText(-i)| - 1];
    }
  }

  lemma {:induction false} StripLeftSpaces(a: string, t: string)
    requires AllSpace(a)
    requires t == [] || !IsSpace(t[0])
    ensures StripLeft(a + t) == t
  {
    if a != [] {
      assert (a + t)[1..] == a[1..] + t;
      StripLeftSpaces(a[1..], t);
    }
  }

  lemma {:induction false} StripRightSpaces(t: string, b: string)
    requires AllSpace(b)
    requires t == [] || !IsSpace(t[|t| - 1])
    ensures StripRight(t + b) == t
  {
    if b != [] {
      assert (t + b)[..|t + b| - 1] == t + b[..|b| - 1];
      StripRightSpaces(t, b[..|b| - 1]);
    }
  }

  /** `strip()` removes exactly the surrounding whitespace and nothing of the text inside it. */
  lemma StripSurrounding(a: string, t: string, b: string)
    requires AllSpace(a) && AllSpace(b)
    requires t == [] || (!IsSpace(t[0]) && !IsSpace(t[|t| - 1]))
    ensures Strip(a + t + b) == t
  {
    assert a + t + b == a + (t + b);
    if t == [] {
      assert AllSpace(a + b);
      StripLeftSpaces(a + b, []);
      assert a + t + b == (a + b) + [];
    } else {
      StripLeftSpaces(a, t + b);
    }
    StripRightSpaces(t, b);
  }

  /** What save_pid writes, read_pid reads back, even with whitespace around it. */
  lemma PidRoundTrip(pid: int, a: string, b: string)
    requires AllSpace(a) && AllSpace(b)
    ensures ParsePid(a + IntText(pid) + b) == Some(pid)
  {
    IntTextUnpadded(pid);
    StripSurrounding(a, IntText(pid), b);
    ParseIntText(pid);
  }

  /** The plain file contents save_pid leaves behind. */
  lemma SavedPidReads(pid: int)
    ensures ParsePid(IntText(pid)) == Some(pid)
  {
    var t := IntText(pid);
    assert [] + t + [] == t;
    IntTextUnpadded(pid);
    StripSurrounding([], t, []);
    ParseIntText(pid);
  }
}
