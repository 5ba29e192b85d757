/**
  The Python string built-ins the supervisor leans on when it reads the lock file
  and the server's output: `str.strip()` and `readline()` on a file opened in text mode.
 */
module PyStr {

  /** `c.isspace()`: the characters `str.strip()` removes when given no argument. */
  predicate IsSpace(c: char) {
    || c == ' '
    || '\t' <= c <= '\r'
    || '\U{1C}' <= c <= '\U{1F}'
    || c == '\U{85}' || c == '\U{A0}' || c == '\U{1680}'
    || '\U{2000}' <= c <= '\U{200A}'
    || c == '\U{2028}' || c == '\U{2029}' || c == '\U{202F}' || c == '\U{205F}' || c == '\U{3000}'
  }

  predicate IsDigit(c: char) {
    '0' <= c <= '9'
  }

  predicate AllDigits(s: string) {
    forall i | 0 <= i < |s| :: IsDigit(s[i])
  }

  /** Every character of `s` is one of `ws`. */
  predicate Only(s: string, ws: char -> bool) {
    forall i | 0 <= i < |s| :: ws(s[i])
  }

  function TrimStart(s: string, ws: char -> bool): string {
    if s != [] && ws(s[0]) then TrimStart(s[1..], ws) else s
  }

  function TrimEnd(s: string, ws: char -> bool): string {
    if s != [] && ws(s[|s| - 1]) then TrimEnd(s[..|s| - 1], ws) else s
  }

  /** `s` with the characters of `ws` cut from both ends. */
  function StripBy(s: string, ws: char -> bool): string {
    TrimEnd(TrimStart(s, ws), ws)
  }

  /** `s.strip()` with no argument. */
  function Strip(s: string): string {
    StripBy(s, IsSpace)
  }

  /** `r` is `s` from index `k` on, with only characters of `ws` removed before and after it. */
  ghost predicate StrippedAt(s: string, r: string, k: int, ws: char -> bool) {
    && 0 <= k <= |s| - |r|
    && r == s[k..k + |r|]
    && (forall i | 0 <= i < k :: ws(s[i]))
    && (forall i | k + |r| <= i < |s| :: ws(s[i]))
  }

  lemma {:induction false} TrimStartSuffix(s: string, ws: char -> bool)
    ensures var r := TrimStart(s, ws);
      && (r == [] || !ws(r[0]))
      && |r| <= |s| && r == s[|s| - |r|..]
      && forall i | 0 <= i < |s| - |r| :: ws(s[i])
  {
    if s != [] && ws(s[0]) {
      TrimStartSuffix(s[1..], ws);
    }
  }

  lemma {:induction false} TrimEndPrefix(s: string, ws: char -> bool)
    ensures var r := TrimEnd(s, ws);
      && (r == [] || !ws(r[|r| - 1]))
      && |r| <= |s| && r == s[..|r|]
      && forall i | |r| <= i < |s| :: ws(s[i])
  {
    if s != [] && ws(s[|s| - 1]) {
      TrimEndPrefix(s[..|s| - 1], ws);
    }
  }

  /**
    What stripping returns: a contiguous piece of `s` that neither starts nor ends with
    a character of `ws`, and everything cut away on either side of it is in `ws`.
   */
  lemma StripMeaning(s: string, ws: char -> bool)
    ensures var r := StripBy(s, ws);
      && (r == [] || (!ws(r[0]) && !ws(r[|r| - 1])))
      && exists k :: StrippedAt(s, r, k, ws)
  {
    var t := TrimStart(s, ws);
    var r := TrimEnd(t, ws);
    TrimStartSuffix(s, ws);
    TrimEndPrefix(t, ws);
    TrimmedBothEnds(s, t, r, |s| - |t|, ws);
  }

  lemma TrimmedBothEnds(s: string, t: string, r: string, k: nat, ws: char -> bool)
    requires k + |t| == |s| && t == s[k..] && (forall i | 0 <= i < k :: ws(s[i]))
    requires |r| <= |t| && r == t[..|r|] && (forall i | |r| <= i < |t| :: ws(t[i]))
    ensures StrippedAt(s, r, k, ws)
  {
    assert forall i | k + |r| <= i < |s| :: s[i] == t[i - k];
  }

  /** Stripping removes exactly the padding around text that neither starts nor ends with
      a character of `ws`. */
  lemma StripPadded(pre: string, m: string, post: string, ws: char -> bool)
    requires Only(pre, ws) && Only(post, ws)
    requires m != [] && !ws(m[0]) && !ws(m[|m| - 1])
    ensures StripBy(pre + m + post, ws) == m
  {
    assert pre + m + post == pre + (m + post);
    TrimStartPadded(pre, m + post, ws);
    TrimEndPadded(m, post, ws);
  }

  lemma {:induction false} TrimStartPadded(pre: string, x: string, ws: char -> bool)
    requires Only(pre, ws) && x != [] && !ws(x[0])
    ensures TrimStart(pre + x, ws) == x
  {
    if pre == [] {
      assert pre + x == x;
    } else {
      assert (pre + x)[0] == pre[0];
      assert (pre + x)[1..] == pre[1..] + x;
      TrimStartPadded(pre[1..], x, ws);
    }
  }

  lemma {:induction false} TrimEndPadded(x: string, post: string, ws: char -> bool)
    requires Only(post, ws) && x != [] && !ws(x[|x| - 1])
    ensures TrimEnd(x + post, ws) == x
  {
    if post == [] {
      assert x + post == x;
    } else {
      var s := x + post;
      assert s[|s| - 1] == post[|post| - 1];
      assert s[..|s| - 1] == x + post[..|post| - 1];
      TrimEndPadded(x, post[..|post| - 1], ws);
    }
  }

  lemma StripUnchanged(s: string, ws: char -> bool)
    requires s == [] || (!ws(s[0]) && !ws(s[|s| - 1]))
    ensures StripBy(s, ws) == s
  {
  }

  /**
    `f.readline()` on the whole content `s` of a file opened in text mode: the text up to
    the first line break, which comes back as a single "\n" because universal-newline
    translation turns "\r\n" and a lone "\r" into "\n".
   */
  function ReadLine(s: string): (r: string)
    ensures (forall i | 0 <= i < |s| :: s[i] != '\n' && s[i] != '\r') ==> r == s
  {
    if s == [] then []
    else if s[0] == '\n' || s[0] == '\r' then "\n"
    else [s[0]] + ReadLine(s[1..])
  }

  /** `readline()` on text with a line break at `k`, the first one: the text before it,
      then "\n". */
  lemma {:induction false} ReadLineAt(s: string, k: nat)
    requires k < |s| && (s[k] == '\n' || s[k] == '\r')
    requires forall i | 0 <= i < k :: s[i] != '\n' && s[i] != '\r'
    ensures ReadLine(s) == s[..k] + "\n"
  {
    if k > 0 {
      ReadLineAt(s[1..], k - 1);
      assert s[..k] == [s[0]] + s[1..][..k - 1];
    }
  }
}
