/** Python string behaviour the kappa tools rely on: the whitespace set that
    `str.strip()` removes, stripping itself, splitting and joining on a
    separator character, text-mode newline translation, and `str(n)` for
    integers together with its parser. */
module Text {
  import opened Results

  /** The characters for which Python's `str.isspace()` holds; `str.strip()`
      with no argument removes exactly these from both ends. */
  predicate IsSpace(c: char) {
    || ('\t' <= c <= '\r')
    || ('\U{1C}' <= c <= '\U{1F}')
    || c == ' '
    || c == '\U{85}'
    || c == '\U{A0}'
    || c == '\U{1680}'
    || ('\U{2000}' <= c <= '\U{200A}')
    || c == '\U{2028}'
    || c == '\U{2029}'
    || c == '\U{202F}'
    || c == '\U{205F}'
    || c == '\U{3000}'
  }

  /** Every character is whitespace: `s.strip()` is falsy exactly for these. */
  predicate AllSpace(s: string) {
    forall i :: 0 <= i < |s| ==> IsSpace(s[i])
  }

  /** Neither end carries whitespace. */
  predicate IsStripped(s: string) {
    s == [] || (!IsSpace(s[0]) && !IsSpace(s[|s| - 1]))
  }

  /** `s.lstrip()`. */
  function TrimLeft(s: string): (r: string)
    ensures |r| <= |s|
  {
    if s == [] then s
    else if IsSpace(s[0]) then TrimLeft(s[1..])
    else s
  }

  /** What `lstrip` keeps is a suffix of the input, what it drops is
      whitespace, and what it keeps starts with a non-space. */
  lemma {:induction false} TrimLeftDrops(s: string)
    ensures TrimLeft(s) == s[|s| - |TrimLeft(s)|..]
    ensures AllSpace(s[..|s| - |TrimLeft(s)|])
    ensures TrimLeft(s) == [] || !IsSpace(TrimLeft(s)[0])
  {
    if s != [] && IsSpace(s[0]) {
      TrimLeftDrops(s[1..]);
      var k := |s| - |TrimLeft(s)|;
      assert s[..k] == [s[0]] + s[1..][..k - 1];
    }
  }

  /** `s.rstrip()`. */
  function TrimRight(s: string): (r: string)
    ensures |r| <= |s|
  {
    if s == [] then s
    else if IsSpace(s[|s| - 1]) then TrimRight(s[..|s| - 1])
    else s
  }

  /** What `rstrip` keeps is a prefix of the input, what it drops is
      whitespace, and what it keeps ends with a non-space. */
  lemma {:induction false} TrimRightDrops(s: string)
    ensures TrimRight(s) == s[..|TrimRight(s)|]
    ensures AllSpace(s[|TrimRight(s)|..])
    ensures TrimRight(s) == [] || !IsSpace(TrimRight(s)[|TrimRight(s)| - 1])
  {
    if s != [] && IsSpace(s[|s| - 1]) {
      var init := s[..|s| - 1];
      TrimRightDrops(init);
      var k := |TrimRight(s)|;
      assert s[k..] == init[k..] + [s[|s| - 1]];
    }
  }

  /** `s.strip()`: what is left once whitespace is removed from both ends.
      It is empty exactly when `s` is blank. */
  function Strip(s: string): (r: string)
    ensures IsStripped(r)
    ensures r == [] <==> AllSpace(s)
  {
    var t := TrimLeft(s);
    TrimLeftDrops(s);
    TrimRightDrops(t);
    var r := TrimRight(t);
    assert AllSpace(s) ==> t == [] by {
      if t != [] {
        assert t[0] == s[|s| - |t|];
      }
    }
    assert r == [] ==> AllSpace(s) by {
      if r == [] {
        assert t == [];
        assert s == s[..|s| - |t|];
      }
    }
    r
  }

  /** What `Strip` removes is whitespace, and what it keeps is one slice of
      the input. */
  lemma StripIsSlice(s: string)
    ensures exists i ::
              && 0 <= i <= |s| - |Strip(s)|
              && Strip(s) == s[i..i + |Strip(s)|]
              && AllSpace(s[..i])
              && AllSpace(s[i + |Strip(s)|..])
  {
    var t := TrimLeft(s);
    TrimLeftDrops(s);
    TrimRightDrops(t);
    var r := TrimRight(t);
    var i := |s| - |t|;
    assert r == s[i..i + |r|];
    assert s[i + |r|..] == t[|r|..];
  }

  /** Stripping adds no character: whatever `s` lacks, `Strip(s)` lacks. */
  lemma StripKeepsAbsent(s: string, c: char)
    requires c !in s
    ensures c !in Strip(s)
  {
    var t := TrimLeft(s);
    TrimLeftDrops(s);
    TrimRightDrops(t);
    assert forall k :: 0 <= k < |t| ==> t[k] == s[|s| - |t| + k];
    var r := TrimRight(t);
    assert forall k :: 0 <= k < |r| ==> r[k] == t[k];
  }

  lemma {:induction false} TrimLeftPastSpace(pre: string, u: string)
    requires AllSpace(pre)
    requires u == [] || !IsSpace(u[0])
    ensures TrimLeft(pre + u) == u
    decreases |pre|
  {
    if pre != [] {
      assert (pre + u)[1..] == pre[1..] + u;
      TrimLeftPastSpace(pre[1..], u);
    }
  }

  lemma {:induction false} TrimRightPastSpace(u: string, post: string)
    requires AllSpace(post)
    requires u == [] || !IsSpace(u[|u| - 1])
    ensures TrimRight(u + post) == u
    decreases |post|
  {
    if post != [] {
      var last := |post| - 1;
      assert (u + post)[..|u + post| - 1] == u + post[..last];
      TrimRightPastSpace(u, post[..last]);
    }
  }

  /** `Strip` is characterised independently of how it is computed: whatever
      whitespace surrounds a stripped text, stripping gives that text back. */
  lemma StripSurrounded(pre: string, t: string, post: string)
    requires AllSpace(pre) && AllSpace(post) && IsStripped(t)
    ensures Strip(pre + t + post) == t
  {
    if t == [] {
      assert pre + t + post == pre + post;
      assert AllSpace(pre + post) by {
        forall k | 0 <= k < |pre + post|
          ensures IsSpace((pre + post)[k])
        {
          if k >= |pre| {
            assert (pre + post)[k] == post[k - |pre|];
          }
        }
      }
    } else {
      assert pre + t + post == pre + (t + post);
      TrimLeftPastSpace(pre, t + post);
      TrimRightPastSpace(t, post);
    }
  }

  /** Stripping twice is stripping once. */
  lemma StripIdempotent(s: string)
    ensures Strip(Strip(s)) == Strip(s)
  {
    var r := Strip(s);
    assert [] + r + [] == r;
    StripSurrounded([], r, []);
  }

  /** `s.split(sep)`: the pieces between separators, in order; there is always
      at least one piece, and no piece holds the separator. */
  function Split(s: string, sep: char): (r: seq<string>)
    ensures |r| >= 1
    ensures forall k :: 0 <= k < |r| ==> sep !in r[k]
  {
    if s == [] then [[]]
    else
      var rest := Split(s[1..], sep);
      if s[0] == sep then [[]] + rest
      else [[s[0]] + rest[0]] + rest[1..]
  }

  /** `sep.join(xs)`. */
  function Join(xs: seq<string>, sep: char): string
  {
    if |xs| == 0 then []
    else if |xs| == 1 then xs[0]
    else xs[0] + [sep] + Join(xs[1..], sep)
  }

  lemma {:induction false} SplitWithoutSeparator(s: string, sep: char)
    requires sep !in s
    ensures Split(s, sep) == [s]
  {
    if s != [] {
      assert s[0] != sep;
      SplitWithoutSeparator(s[1..], sep);
      assert [s[0]] + s[1..] == s;
    }
  }

  lemma {:induction false} SplitAtFirst(a: string, sep: char, b: string)
    requires sep !in a
    ensures Split(a + [sep] + b, sep) == [a] + Split(b, sep)
  {
    if a == [] {
      assert a + [sep] + b == [sep] + b;
      assert ([sep] + b)[1..] == b;
    } else {
      assert (a + [sep] + b)[1..] == a[1..] + [sep] + b;
      SplitAtFirst(a[1..], sep, b);
      assert [a[0]] + a[1..] == a;
    }
  }

  /** Splitting a join gives the pieces back, provided no piece holds the
      separator. */
  lemma {:induction false} SplitJoin(xs: seq<string>, sep: char)
    requires |xs| >= 1
    requires forall k :: 0 <= k < |xs| ==> sep !in xs[k]
    ensures Split(Join(xs, sep), sep) == xs
    decreases |xs|
  {
    if |xs| == 1 {
      SplitWithoutSeparator(xs[0], sep);
    } else {
      SplitAtFirst(xs[0], sep, Join(xs[1..], sep));
      SplitJoin(xs[1..], sep);
      assert [xs[0]] + xs[1..] == xs;
    }
  }

  /** Joining the pieces of a split gives the text back. */
  lemma {:induction false} JoinSplit(s: string, sep: char)
    ensures Join(Split(s, sep), sep) == s
    decreases |s|
  {
    if s != [] {
      var rest := Split(s[1..], sep);
      JoinSplit(s[1..], sep);
      if s[0] == sep {
        assert ([[]] + rest)[1..] == rest;
        assert [s[0]] + s[1..] == s;
      } else {
        var r := [[s[0]] + rest[0]] + rest[1..];
        assert r[1..] == rest[1..];
        if |rest| == 1 {
          assert [s[0]] + s[1..] == s;
        } else {
          assert Join(rest, sep) == rest[0] + [sep] + Join(rest[1..], sep);
          assert [s[0]] + s[1..] == s;
        }
      }
    }
  }

  /** Text-mode reading with universal newlines: `"\r\n"` and a lone `'\r'`
      each become `'\n'`. */
  function TranslateNewlines(s: string): (r: string)
    ensures '\r' !in r
    ensures '\r' !in s ==> r == s
  {
    if s == [] then []
    else if s[0] == '\r' then
      if |s| > 1 && s[1] == '\n' then ['\n'] + TranslateNewlines(s[2..])
      else ['\n'] + TranslateNewlines(s[1..])
    else [s[0]] + TranslateNewlines(s[1..])
  }

  /** The first carriage return, and the line feed right after it if there
      is one, become one line feed; the text before it is kept. */
  lemma {:induction false} TranslateAtReturn(a: string, b: string)
    requires '\r' !in a
    ensures TranslateNewlines(a + ['\r'] + b)
         == a + "\n" + TranslateNewlines(if b != [] && b[0] == '\n' then b[1..] else b)
  {
    if a == [] {
      assert a + ['\r'] + b == ['\r'] + b;
      TranslateReturnFirst(b);
    } else {
      var s := a + ['\r'] + b;
      assert s[0] == a[0] && a[0] != '\r';
      assert s[1..] == a[1..] + ['\r'] + b;
      assert TranslateNewlines(s) == [a[0]] + TranslateNewlines(s[1..]);
      assert '\r' !in a[1..] by {
        assert a == [a[0]] + a[1..];
      }
      TranslateAtReturn(a[1..], b);
      assert a == [a[0]] + a[1..];
    }
  }

  /** A leading carriage return, with the line feed after it if any, becomes
      one line feed. */
  lemma TranslateReturnFirst(b: string)
    ensures TranslateNewlines(['\r'] + b)
         == "\n" + TranslateNewlines(if b != [] && b[0] == '\n' then b[1..] else b)
  {
    var s := ['\r'] + b;
    assert s[0] == '\r' && s[1..] == b;
    if b != [] && b[0] == '\n' {
      assert s[2..] == b[1..];
    }
  }

  predicate IsDigit(c: char) {
    '0' <= c <= '9'
  }

  predicate AllDigits(s: string) {
    forall k :: 0 <= k < |s| ==> IsDigit(s[k])
  }

  function DigitChar(d: nat): (c: char)
    requires d < 10
    ensures IsDigit(c)
  {
    "0123456789"[d]
  }

  function DigitValue(c: char): (d: nat)
    requires IsDigit(c)
    ensures d < 10
    ensures DigitChar(d) == c
  {
    (c as int - '0' as int) as nat
  }

  /** `str(n)` for a natural number: decimal digits, most significant first,
      without leading zeros. */
  function NatToString(n: nat): (r: string)
    ensures |r| >= 1
    ensures AllDigits(r)
    ensures r[0] == '0' ==> n == 0
  {
    if n < 10 then [DigitChar(n)]
    else NatToString(n / 10) + [DigitChar(n % 10)]
  }

  /** The value of a run of decimal digits. */
  function DigitsValue(s: string): nat
    requires AllDigits(s)
  {
    if s == [] then 0
    else 10 * DigitsValue(s[..|s| - 1]) + DigitValue(s[|s| - 1])
  }

  lemma {:induction false} NatToStringValue(n: nat)
    ensures DigitsValue(NatToString(n)) == n
  {
    var r := NatToString(n);
    if n >= 10 {
      var init := NatToString(n / 10);
      assert r == init + [DigitChar(n % 10)];
      assert r[..|r| - 1] == init && r[|r| - 1] == DigitChar(n % 10);
      NatToStringValue(n / 10);
      DecimalSplit(n);
      assert DigitsValue(r) == 10 * DigitsValue(init) + DigitValue(DigitChar(n % 10));
    }
  }

  /** A number is ten times its value without the last digit, plus that
      digit. */
  lemma DecimalSplit(n: nat)
    ensures n == 10 * (n / 10) + n % 10 && n % 10 < 10
  {
  }

  /** `str(i)` for any integer: a minus sign in front of the digits of a
      negative number. */
  function IntToString(i: int): string
  {
    if i < 0 then "-" + NatToString(-i) else NatToString(i)
  }

  /** `int(s)` restricted to what `str` produces: an optional minus sign
      followed by at least one digit. */
  function ParseInt(s: string): Option<int>
  {
    if |s| >= 2 && s[0] == '-' && AllDigits(s[1..]) then Some(-(DigitsValue(s[1..]) as int))
    else if |s| >= 1 && AllDigits(s) then Some(DigitsValue(s))
    else None
  }

  /** `ParseInt` reads back what `IntToString` writes. */
  lemma IntToStringRoundTrip(i: int)
    ensures ParseInt(IntToString(i)) == Some(i)
  {
    if i < 0 {
      var d := NatToString(-i);
      var s := "-" + d;
      assert s[0] == '-' && s[1..] == d;
      NatToStringValue(-i);
      assert ParseInt(s) == Some(-(DigitsValue(d) as int));
    } else {
      var s := NatToString(i);
      assert IsDigit(s[0]);
      NatToStringValue(i);
      assert ParseInt(s) == Some(DigitsValue(s) as int);
    }
  }
}
