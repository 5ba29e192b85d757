/**
  The PID as text in the lock file: `str(n)` writes it, `int(s)` in base 10 reads it back.
 */
module PidText {
  import opened Wrappers
  import opened PyStr

  function DigitChar(d: nat): (c: char)
    requires d < 10
    ensures IsDigit(c) && c as int - '0' as int == d
  {
    ('0' as int + d) as char
  }

  /** The decimal digits of `n`, most significant first, without leading zeros. */
  function NatToDecimal(n: nat): (r: string)
    ensures r != [] && AllDigits(r)
    ensures |r| > 1 ==> r[0] != '0'
  {
    if n < 10 then [DigitChar(n)] else NatToDecimal(n / 10) + [DigitChar(n % 10)]
  }

  /** `str(n)`: an optional minus sign followed by the decimal digits of `|n|`. */
  function IntToDecimal(n: int): (r: string)
    ensures |r| > 0 && IsDigit(r[|r| - 1])
    ensures n < 0 <==> r[0] == '-'
    ensures n >= 0 ==> AllDigits(r)
    ensures forall i | 0 < i < |r| :: IsDigit(r[i])
  {
    if n < 0 then "-" + NatToDecimal(-n) else NatToDecimal(n)
  }

  /** The number a string of decimal digits denotes. */
  function DigitsValue(d: string): nat
    requires AllDigits(d)
  {
    if d == [] then 0 else DigitsValue(d[..|d| - 1]) * 10 + (d[|d| - 1] as int - '0' as int)
  }

  /** The text with every '_' taken out and the other characters kept, in order. */
  function RemoveUnderscores(s: string): (r: string)
    ensures |r| <= |s| && forall i | 0 <= i < |r| :: r[i] != '_'
    ensures (forall i | 0 <= i < |s| :: IsDigit(s[i]) || s[i] == '_') ==> AllDigits(r)
    ensures AllDigits(s) ==> r == s
  {
    if s == [] then []
    else if s[0] == '_' then RemoveUnderscores(s[1..])
    else [s[0]] + RemoveUnderscores(s[1..])
  }

  /** Removing underscores works piece by piece. */
  lemma {:induction false} RemoveUnderscoresAppend(a: string, b: string)
    ensures RemoveUnderscores(a + b) == RemoveUnderscores(a) + RemoveUnderscores(b)
  {
    if a == [] {
      assert a + b == b;
    } else {
      assert (a + b)[0] == a[0];
      assert (a + b)[1..] == a[1..] + b;
      RemoveUnderscoresAppend(a[1..], b);
    }
  }

  /** On one character: an underscore goes, anything else stays. */
  lemma RemoveUnderscoresChar(c: char)
    ensures RemoveUnderscores([c]) == if c == '_' then [] else [c]
  {
    assert [c][1..] == [];
  }

  /**
    What `int()` accepts after an optional sign: digits, where single underscores
    may separate two digits ("1_000"), but none may lead, trail or double up.
   */
  predicate IsDigitGroup(t: string) {
    && |t| > 0
    && IsDigit(t[0])
    && IsDigit(t[|t| - 1])
    && (forall i | 0 <= i < |t| :: IsDigit(t[i]) || t[i] == '_')
    && (forall i | 0 <= i < |t| - 1 :: !DoubleUnderscoreAt(t, i))
  }

  predicate DoubleUnderscoreAt(t: string, i: nat)
    requires i + 1 < |t|
  {
    t[i] == '_' && t[i + 1] == '_'
  }

  /** The value of a digit group (never negative), or `None` when `t` is not one. */
  function ParseDigits(t: string): Option<int> {
    if IsDigitGroup(t) then Some(DigitsValue(RemoveUnderscores(t))) else None
  }

  function Negate(v: Option<int>): Option<int> {
    if v.Some? then Some(-v.value) else None
  }

  /**
    The whitespace `int()` skips around its argument: that of `str.isspace()` except the
    four ASCII separators U+001C to U+001F, which CPython leaves in place so that the
    text is rejected.
   */
  predicate IsIntSpace(c: char) {
    IsSpace(c) && !('\U{1C}' <= c <= '\U{1F}')
  }

  /**
    `int(s)` in base 10: surrounding whitespace is ignored, a sign is optional,
    leading zeros are allowed; anything else raises `ValueError`, shown here as `None`.
   */
  function ParseInt(s: string): Option<int> {
    ParseSigned(StripBy(s, IsIntSpace))
  }

  /** `int()` on text already stripped: an optional sign, then a digit group. */
  function ParseSigned(t: string): Option<int> {
    if t != [] && t[0] == '-' then Negate(ParseDigits(t[1..]))
    else if t != [] && t[0] == '+' then ParseDigits(t[1..])
    else ParseDigits(t)
  }

  /** `s` is an integer literal `int()` accepts: whitespace, an optional sign, a digit
      group, whitespace. */
  ghost predicate IntLiteral(s: string, pre: string, sign: string, t: string, post: string) {
    && s == pre + sign + t + post
    && Only(pre, IsIntSpace) && Only(post, IsIntSpace)
    && (sign == "" || sign == "+" || sign == "-")
    && IsDigitGroup(t)
  }

  /** The value of an integer literal with sign `sign` and digit group `t`. */
  function SignedValue(sign: string, t: string): int
    requires IsDigitGroup(t)
  {
    var v: int := DigitsValue(RemoveUnderscores(t));
    if sign == "-" then -v else v
  }

  /** `int()` accepts every integer literal and returns its value. */
  lemma ParseIntAccepts(s: string, pre: string, sign: string, t: string, post: string)
    requires IntLiteral(s, pre, sign, t, post)
    ensures ParseInt(s) == Some(SignedValue(sign, t))
  {
    var m := sign + t;
    assert s == pre + m + post;
    assert m[0] == if sign == "" then t[0] else sign[0];
    assert m[|m| - 1] == t[|t| - 1];
    StripPadded(pre, m, post, IsIntSpace);
    SignedText(sign, t);
  }

  lemma SignedText(sign: string, t: string)
    requires (sign == "" || sign == "+" || sign == "-") && IsDigitGroup(t)
    ensures ParseSigned(sign + t) == Some(SignedValue(sign, t))
  {
    var m := sign + t;
    if sign == "" {
      assert m == t && t[0] != '-' && t[0] != '+';
    } else if sign == "-" {
      assert m[0] == '-' && m[1..] == t;
    } else {
      assert m[0] == '+' && m[1..] == t;
    }
  }

  /** `int()` accepts nothing but integer literals: whatever it parses is one, with the
      value it returns. */
  lemma ParseIntOnlyLiterals(s: string)
    requires ParseInt(s).Some?
    ensures exists pre, sign, t, post ::
      IntLiteral(s, pre, sign, t, post) && ParseInt(s) == Some(SignedValue(sign, t))
  {
    var r := StripBy(s, IsIntSpace);
    var pre, post := PaddingOf(s);
    var sign, t := SplitSign(r);
    Regroup(s, pre, sign, t, post);
    ParseIntAccepts(s, pre, sign, t, post);
  }

  lemma Regroup(s: string, pre: string, sign: string, t: string, post: string)
    requires Only(pre, IsIntSpace) && Only(post, IsIntSpace) && s == pre + (sign + t) + post
    requires (sign == "" || sign == "+" || sign == "-") && IsDigitGroup(t)
    ensures IntLiteral(s, pre, sign, t, post)
  {
    assert pre + (sign + t) == pre + sign + t;
  }

  /** The whitespace `int()` skips at either end of `s`. */
  lemma PaddingOf(s: string) returns (pre: string, post: string)
    ensures Only(pre, IsIntSpace) && Only(post, IsIntSpace)
    ensures s == pre + StripBy(s, IsIntSpace) + post
  {
    var r := StripBy(s, IsIntSpace);
    StripMeaning(s, IsIntSpace);
    var k :| StrippedAt(s, r, k, IsIntSpace);
    pre, post := s[..k], s[k + |r|..];
    assert s == pre + r + post;
  }

  /** The sign and the digit group of stripped text that `int()` accepts. */
  lemma SplitSign(r: string) returns (sign: string, t: string)
    requires ParseSigned(r).Some?
    ensures (sign == "" || sign == "+" || sign == "-") && IsDigitGroup(t) && r == sign + t
  {
    if r != [] && r[0] == '-' {
      sign, t := "-", r[1..];
      assert ParseDigits(t).Some?;
    } else if r != [] && r[0] == '+' {
      sign, t := "+", r[1..];
      assert ParseDigits(t).Some?;
    } else {
      sign, t := "", r;
      assert ParseDigits(t).Some?;
    }
  }

  /** A lock text `int()` takes: whitespace around it and leading zeros. */
  lemma ParseIntPadded()
    ensures ParseInt(" 0042\n") == Some(42)
  {
    var t := "0042";
    assert AllDigits(t);
    assert DigitsValue(t) == 42 by {
      assert t[..3] == "004" && "004"[..2] == "00" && "00"[..1] == "0" && "0"[..0] == "";
    }
    ParseIntAccepts(" 0042\n", " ", "", t, "\n");
  }

  /** A lock text `int()` takes: a sign, and an underscore between digits. */
  lemma ParseIntUnderscore()
    ensures ParseInt("-1_000") == Some(-1000)
  {
    var t := "1_000";
    OneThousand();
    var d := "1000";
    assert DigitsValue(d) == 1000 by {
      assert d[..3] == "100" && "100"[..2] == "10" && "10"[..1] == "1" && "1"[..0] == "";
    }
    ParseIntAccepts("-1_000", "", "-", t, "");
  }

  lemma OneThousand()
    ensures IsDigitGroup("1_000") && RemoveUnderscores("1_000") == "1000"
  {
    var t := "1_000";
    assert forall i | 0 <= i < 4 :: !DoubleUnderscoreAt(t, i);
    assert t == "1_" + "000";
    RemoveUnderscoresAppend("1_", "000");
    OneUnderscore();
  }

  lemma OneUnderscore()
    ensures RemoveUnderscores("1_") == "1"
  {
    assert "1_" == "1" + "_";
    RemoveUnderscoresAppend("1", "_");
    RemoveUnderscoresChar('1');
    RemoveUnderscoresChar('_');
  }

  /** Lock texts that make `int()` raise `ValueError`: nothing there, an underscore that
      leads, trails or doubles, a sign alone or twice, inner space, another base. */
  lemma ParseIntRejects()
    ensures ParseInt("") == None && ParseInt(" ") == None
    ensures ParseInt("_1") == None && ParseInt("1_") == None
    ensures ParseInt("1__0") == None
    ensures ParseInt("-") == None && ParseInt("+-1") == None
    ensures ParseInt("4 2") == None && ParseInt("0x2A") == None
  {
    StripUnchanged("_1", IsIntSpace);
    StripUnchanged("1_", IsIntSpace);
    StripUnchanged("1__0", IsIntSpace);
    assert DoubleUnderscoreAt("1__0", 1);
    StripUnchanged("-", IsIntSpace);
    StripUnchanged("+-1", IsIntSpace);
    StripUnchanged("4 2", IsIntSpace);
    assert !IsDigit("4 2"[1]);
    StripUnchanged("0x2A", IsIntSpace);
    assert !IsDigit("0x2A"[1]);
  }

  /** `int()` rejects text padded with an ASCII separator, U+001C to U+001F, although
      `strip()` would remove it. */
  lemma ParseIntKeepsSeparators()
    ensures ParseInt("\U{1C}5") == None && ParseInt("5\U{1F}") == None
    ensures Strip("\U{1C}5") == "5"
  {
    StripUnchanged("\U{1C}5", IsIntSpace);
    StripUnchanged("5\U{1F}", IsIntSpace);
    assert "\U{1C}5" == "\U{1C}" + "5" + "";
    StripPadded("\U{1C}", "5", "", IsSpace);
  }

  lemma {:induction false} DigitsValueOfDecimal(n: nat)
    ensures DigitsValue(NatToDecimal(n)) == n
  {
    var d := NatToDecimal(n);
    if n < 10 {
      assert d[..0] == [];
    } else {
      DigitsValueOfDecimal(n / 10);
      assert d[..|d| - 1] == NatToDecimal(n / 10);
    }
  }

  lemma ParseDecimal(n: nat)
    ensures ParseDigits(NatToDecimal(n)) == Some(n)
  {
    var d := NatToDecimal(n);
    assert IsDigitGroup(d);
    assert RemoveUnderscores(d) == d;
    DigitsValueOfDecimal(n);
  }

  lemma ParseIntOfDecimal(n: int)
    ensures ParseInt(IntToDecimal(n)) == Some(n)
  {
    if n < 0 {
      NegativeDecimal(-n);
    } else {
      NonNegativeDecimal(n);
    }
  }

  lemma NonNegativeDecimal(n: nat)
    ensures ParseInt(NatToDecimal(n)) == Some(n)
  {
    var s := NatToDecimal(n);
    assert ParseDigits(s) == Some(n) by { ParseDecimal(n); }
    assert s[0] != '-' && s[0] != '+';
    assert StripBy(s, IsIntSpace) == s by { StripUnchanged(s, IsIntSpace); }
  }

  lemma NegativeDecimal(m: nat)
    requires m > 0
    ensures ParseInt("-" + NatToDecimal(m)) == Some(-(m as int))
  {
    var d := NatToDecimal(m);
    var s := "-" + d;
    assert ParseDigits(s[1..]) == Some(m) by {
      assert s[1..] == d;
      ParseDecimal(m);
    }
    NegativeText(d);
    MinusSign(s);
  }

  lemma NegativeText(d: string)
    requires d != [] && IsDigit(d[|d| - 1])
    ensures StripBy("-" + d, IsIntSpace) == "-" + d
  {
    var s := "-" + d;
    assert s[0] == '-' && s[|s| - 1] == d[|d| - 1];
    StripUnchanged(s, IsIntSpace);
  }

  lemma MinusSign(s: string)
    requires StripBy(s, IsIntSpace) == s && s != [] && s[0] == '-'
    ensures ParseInt(s) == Negate(ParseDigits(s[1..]))
  {
  }

  /**
    The lock file round trip: the text `str(pid)` written to the file, read back with
    `readline()` and converted with `int()`, is the PID again, for every integer.
   */
  lemma PidRoundTrip(n: int)
    ensures ParseInt(ReadLine(IntToDecimal(n))) == Some(n)
  {
    assert ReadLine(IntToDecimal(n)) == IntToDecimal(n);
    ParseIntOfDecimal(n);
  }
}
