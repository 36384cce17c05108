/** The handful of Python `str` operations the extraction core relies on:
    `isspace`, `strip`, `startswith`, `in` (substring), `join`, `lower` and the
    quote escaping `replace("'", "\\'")`. */
module Text {

  /** Python's `str.isspace()` on one character (the Unicode whitespace set). */
  predicate IsSpace(c: char)
  {
    c == ' ' || c == '\t' || c == '\n' || c == '\r' || c == '\U{000B}' || c == '\U{000C}'
    || c == '\U{001C}' || c == '\U{001D}' || c == '\U{001E}' || c == '\U{001F}'
    || c == '\U{0085}' || c == '\U{00A0}' || c == '\U{1680}'
    || ('\U{2000}' <= c <= '\U{200A}')
    || c == '\U{2028}' || c == '\U{2029}' || c == '\U{202F}' || c == '\U{205F}' || c == '\U{3000}'
  }

  /** A text with no whitespace at either end: what `strip()` returns. */
  predicate Trimmed(s: string)
  {
    |s| == 0 || (!IsSpace(s[0]) && !IsSpace(s[|s| - 1]))
  }

  predicate AllSpaces(s: string)
  {
    forall k :: 0 <= k < |s| ==> IsSpace(s[k])
  }

  /** `s.lstrip()`: drops the leading whitespace and nothing else. */
  function StripLeft(s: string): (r: string)
    ensures |r| <= |s| && r == s[|s| - |r|..]
    ensures AllSpaces(s[..|s| - |r|])
    ensures |r| > 0 ==> !IsSpace(r[0])
  {
    if |s| > 0 && IsSpace(s[0]) then StripLeft(s[1..]) else s
  }

  /** `s.rstrip()`: drops the trailing whitespace and nothing else. */
  function StripRight(s: string): (r: string)
    ensures |r| <= |s| && r == s[..|r|]
    ensures AllSpaces(s[|r|..])
    ensures |r| > 0 ==> !IsSpace(r[|r| - 1])
  {
    if |s| > 0 && IsSpace(s[|s| - 1]) then StripRight(s[..|s| - 1]) else s
  }

  /** `s.strip()`. */
  function Strip(s: string): (r: string)
    ensures Trimmed(r)
  {
    StripRight(StripLeft(s))
  }

  /** Stripping a text that is already trimmed changes nothing. */
  lemma StripOfTrimmed(s: string)
    requires Trimmed(s)
    ensures Strip(s) == s
  {
    assert StripLeft(s) == s;
    assert StripRight(s) == s;
  }

  /** `strip()` is idempotent. */
  lemma StripIdempotent(s: string)
    ensures Strip(Strip(s)) == Strip(s)
  {
    StripOfTrimmed(Strip(s));
  }

  /** Trailing whitespace after a trimmed text is all that `rstrip()` removes. */
  lemma {:induction false} StripRightDropsSpaces(c: string, w: string)
    requires |c| == 0 || !IsSpace(c[|c| - 1])
    requires AllSpaces(w)
    ensures StripRight(c + w) == c
    decreases |w|
  {
    if |w| == 0 {
      assert c + w == c;
    } else {
      assert (c + w)[..|c + w| - 1] == c + w[..|w| - 1];
      StripRightDropsSpaces(c, w[..|w| - 1]);
    }
  }

  /** A trimmed text followed by whitespace strips back to itself. */
  lemma StripTrailingSpaces(c: string, w: string)
    requires Trimmed(c)
    requires AllSpaces(w)
    ensures Strip(c + w) == c
  {
    if |c| == 0 {
      assert c + w == w;
    } else {
      assert StripLeft(c + w) == c + w;
      StripRightDropsSpaces(c, w);
    }
  }

  /** Regrouping a concatenation; stated once so that long literals need no unfolding. */
  lemma AppendAssoc<T>(a: seq<T>, b: seq<T>, c: seq<T>)
    ensures (a + b) + c == a + (b + c)
  {
  }

  /** `s.startswith(p)`. */
  predicate StartsWith(s: string, p: string)
  {
    |p| <= |s| && s[..|p|] == p
  }

  /** `s.endswith(p)`. */
  predicate EndsWith(s: string, p: string)
  {
    |p| <= |s| && s[|s| - |p|..] == p
  }

  /** Python's `t in s` on strings: `t` occurs somewhere in `s`. */
  predicate Contains(s: string, t: string)
    decreases |s|
  {
    StartsWith(s, t) || (|s| > 0 && Contains(s[1..], t))
  }

  /** A text occurs in any text built around it. */
  lemma {:induction false} ContainsInfix(a: string, t: string, b: string)
    ensures Contains(a + t + b, t)
    decreases |a|
  {
    if |a| == 0 {
      assert a + t + b == t + b;
      assert (t + b)[..|t|] == t;
    } else {
      assert (a + t + b)[1..] == a[1..] + t + b;
      ContainsInfix(a[1..], t, b);
    }
  }

  /** A prefix stays a prefix when text is appended. */
  lemma StartsWithExtend(s: string, p: string, u: string)
    requires StartsWith(s, p)
    ensures StartsWith(s + u, p)
  {
    assert (s + u)[..|p|] == s[..|p|];
  }

  /** A text that starts with `p + t` contains `t`. */
  lemma ContainsAfterPrefix(s: string, p: string, t: string)
    requires StartsWith(s, p + t)
    ensures Contains(s, t)
  {
    var rest := s[|p + t|..];
    assert s == p + t + rest;
    ContainsInfix(p, t, rest);
  }

  /** A text occurs at the end of any text it ends. */
  lemma ContainsSuffix(a: string, t: string)
    ensures Contains(a + t, t)
  {
    ContainsInfix(a, t, "");
    assert a + t + "" == a + t;
  }

  /** An occurrence survives appending text on the right. */
  lemma {:induction false} ContainsExtendRight(s: string, t: string, u: string)
    requires Contains(s, t)
    ensures Contains(s + u, t)
    decreases |s|
  {
    if StartsWith(s, t) {
      assert (s + u)[..|t|] == s[..|t|];
    } else {
      assert (s + u)[1..] == s[1..] + u;
      ContainsExtendRight(s[1..], t, u);
    }
  }

  /** An occurrence survives prepending text on the left. */
  lemma {:induction false} ContainsExtendLeft(u: string, s: string, t: string)
    requires Contains(s, t)
    ensures Contains(u + s, t)
    decreases |u|
  {
    if |u| == 0 {
      assert u + s == s;
    } else {
      assert (u + s)[1..] == u[1..] + s;
      ContainsExtendLeft(u[1..], s, t);
    }
  }

  /** Python's `sep.join(xs)`. */
  function Join(xs: seq<string>, sep: string): string
    decreases |xs|
  {
    if |xs| == 0 then ""
    else if |xs| == 1 then xs[0]
    else Join(xs[..|xs| - 1], sep) + sep + xs[|xs| - 1]
  }

  /** Every joined item occurs in the joined text. */
  lemma {:induction false} JoinContains(xs: seq<string>, sep: string, i: nat)
    requires i < |xs|
    ensures Contains(Join(xs, sep), xs[i])
    decreases |xs|
  {
    if |xs| == 1 {
      ContainsInfix("", xs[0], "");
      assert "" + xs[0] + "" == xs[0];
    } else if i == |xs| - 1 {
      ContainsInfix(Join(xs[..|xs| - 1], sep) + sep, xs[i], "");
      assert Join(xs[..|xs| - 1], sep) + sep + xs[i] + "" == Join(xs, sep);
    } else {
      JoinContains(xs[..|xs| - 1], sep, i);
      ContainsExtendRight(Join(xs[..|xs| - 1], sep), xs[i], sep + xs[|xs| - 1]);
      assert Join(xs[..|xs| - 1], sep) + (sep + xs[|xs| - 1]) == Join(xs, sep);
    }
  }

  /** One character of `str.lower()`: ASCII upper-case letters become lower-case. */
  function LowerChar(c: char): char
  {
    if 'A' <= c <= 'Z' then (c as int + 32) as char else c
  }

  /** `s.lower()` restricted to ASCII letters; every other character is kept. */
  function Lower(s: string): (r: string)
    ensures |r| == |s|
    ensures forall k :: 0 <= k < |s| ==> r[k] == LowerChar(s[k])
  {
    seq(|s|, k requires 0 <= k < |s| => LowerChar(s[k]))
  }

  /** `s.replace("'", "\\'")`: each single quote gets a backslash in front of it. */
  function EscapeQuotes(s: string): (r: string)
    ensures |r| >= |s|
    ensures |r| == 0 <==> |s| == 0
    ensures |s| > 0 ==> r[0] != '\''
    decreases |s|
  {
    if |s| == 0 then ""
    else (if s[0] == '\'' then "\\'" else [s[0]]) + EscapeQuotes(s[1..])
  }

  /** Reads back a text written by `EscapeQuotes`: a backslash-quote pair is one quote. */
  function UnescapeQuotes(s: string): string
    decreases |s|
  {
    if |s| == 0 then ""
    else if |s| >= 2 && s[0] == '\\' && s[1] == '\'' then "'" + UnescapeQuotes(s[2..])
    else [s[0]] + UnescapeQuotes(s[1..])
  }

  /** Escaping loses nothing: the description can be read back from the escaped text. */
  lemma {:induction false} EscapeRoundTrip(s: string)
    ensures UnescapeQuotes(EscapeQuotes(s)) == s
    decreases |s|
  {
    if |s| > 0 {
      var rest := EscapeQuotes(s[1..]);
      EscapeRoundTrip(s[1..]);
      if s[0] == '\'' {
        assert EscapeQuotes(s) == "\\'" + rest;
        assert (("\\'" + rest)[2..]) == rest;
      } else {
        assert EscapeQuotes(s) == [s[0]] + rest;
        assert ([s[0]] + rest)[1..] == rest;
        if |rest| > 0 {
          assert rest[0] != '\'';
        }
      }
    }
  }

  /** Every quote in an escaped text is preceded by a backslash. */
  lemma {:induction false} EscapedQuotesArePreceded(s: string, k: nat)
    requires k < |EscapeQuotes(s)| && EscapeQuotes(s)[k] == '\''
    ensures k > 0 && EscapeQuotes(s)[k - 1] == '\\'
    decreases |s|
  {
    var head := if s[0] == '\'' then "\\'" else [s[0]];
    var rest := EscapeQuotes(s[1..]);
    assert EscapeQuotes(s) == head + rest;
    if k >= |head| {
      EscapedQuotesArePreceded(s[1..], k - |head|);
      if k - |head| == 0 {
        assert false;
      }
    }
  }

  /** The index of the last `c` in `text`, or -1: what `str.rfind` gives, and where a
      greedy `.*` followed by `c` stops. */
  function LastIndexOf(text: string, c: char): (j: int)
    ensures -1 <= j < |text|
    ensures j >= 0 ==> text[j] == c
    ensures forall k :: j < k < |text| ==> text[k] != c
    decreases |text|
  {
    if |text| == 0 then -1
    else if text[|text| - 1] == c then |text| - 1
    else LastIndexOf(text[..|text| - 1], c)
  }
}
