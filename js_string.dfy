/**
 * The two JavaScript string operations the sign-up rules depend on:
 * `String.prototype.trim` and the `length` property, which counts UTF-16
 * code units rather than code points.
 */
module JsString {

  /** A code point that `trim` removes: an ECMAScript WhiteSpace or LineTerminator. */
  predicate IsTrimmable(c: char) {
    || c == '\t' || c == '\n' || c == '\U{000B}' || c == '\U{000C}' || c == '\r'
    || c == ' ' || c == '\U{00A0}' || c == '\U{1680}'
    || ('\U{2000}' <= c <= '\U{200A}')
    || c == '\U{2028}' || c == '\U{2029}' || c == '\U{202F}' || c == '\U{205F}'
    || c == '\U{3000}' || c == '\U{FEFF}'
  }

  predicate AllTrimmable(s: string) {
    forall j :: 0 <= j < |s| ==> IsTrimmable(s[j])
  }

  /** Neither end of `s` is a trimmable code point. */
  predicate IsTrimmed(s: string) {
    s == [] || (!IsTrimmable(s[0]) && !IsTrimmable(s[|s| - 1]))
  }

  /** Drops the leading trimmable code points. */
  function TrimStart(s: string): (r: string)
    ensures |r| <= |s|
    ensures r == [] || !IsTrimmable(r[0])
  {
    if s != [] && IsTrimmable(s[0]) then TrimStart(s[1..]) else s
  }

  /** Drops the trailing trimmable code points. */
  function TrimEnd(s: string): (r: string)
    ensures |r| <= |s|
    ensures r == [] || !IsTrimmable(r[|r| - 1])
  {
    if s != [] && IsTrimmable(s[|s| - 1]) then TrimEnd(s[..|s| - 1]) else s
  }

  /** `TrimStart` keeps a suffix and drops only trimmable code points. */
  lemma {:induction false} TrimStartIsSuffix(s: string)
    ensures var r := TrimStart(s);
      r == s[|s| - |r|..] && AllTrimmable(s[..|s| - |r|])
  {
    if s != [] && IsTrimmable(s[0]) {
      TrimStartIsSuffix(s[1..]);
      var r := TrimStart(s);
      assert s[1..][|s| - 1 - |r|..] == s[|s| - |r|..];
      assert s[..|s| - |r|] == [s[0]] + s[1..][..|s| - 1 - |r|];
    }
  }

  /** `TrimEnd` keeps a prefix and drops only trimmable code points. */
  lemma {:induction false} TrimEndIsPrefix(s: string)
    ensures var r := TrimEnd(s);
      r == s[..|r|] && AllTrimmable(s[|r|..])
  {
    if s != [] && IsTrimmable(s[|s| - 1]) {
      TrimEndIsPrefix(s[..|s| - 1]);
      var r := TrimEnd(s);
      assert s[..|s| - 1][..|r|] == s[..|r|];
      assert s[|r|..] == s[..|s| - 1][|r|..] + [s[|s| - 1]];
    }
  }

  /** `s.trim()`. */
  function Trim(s: string): (r: string)
    ensures IsTrimmed(r)
    ensures |r| <= |s|
  {
    TrimEndIsPrefix(TrimStart(s));
    TrimEnd(TrimStart(s))
  }

  /** `trim` yields the empty string exactly when every code point is trimmable. */
  lemma TrimEmptyIffBlank(s: string)
    ensures Trim(s) == [] <==> AllTrimmable(s)
  {
    var t := TrimStart(s);
    var r := TrimEnd(t);
    TrimStartIsSuffix(s);
    TrimEndIsPrefix(t);
    if r == [] {
      assert t[|r|..] == t;
      assert s == s[..|s| - |t|] + t;
      AllTrimmableConcat(s[..|s| - |t|], t);
    }
    if AllTrimmable(s) {
      assert [] + [] + s == s;
      TrimOfPadded([], [], s);
    }
  }

  lemma AllTrimmableConcat(a: string, b: string)
    requires AllTrimmable(a) && AllTrimmable(b)
    ensures AllTrimmable(a + b)
  {
  }

  /** Trimmable code points in front of a string do not change where `TrimStart` stops. */
  lemma {:induction false} TrimStartSkipsPrefix(a: string, x: string)
    requires AllTrimmable(a)
    ensures TrimStart(a + x) == TrimStart(x)
  {
    if a != [] {
      assert (a + x)[0] == a[0];
      assert (a + x)[1..] == a[1..] + x;
      TrimStartSkipsPrefix(a[1..], x);
    } else {
      assert a + x == x;
    }
  }

  /** Trimmable code points behind a string do not change where `TrimEnd` stops. */
  lemma {:induction false} TrimEndSkipsSuffix(x: string, c: string)
    requires AllTrimmable(c)
    ensures TrimEnd(x + c) == TrimEnd(x)
  {
    if c != [] {
      var n := |x + c|;
      assert (x + c)[n - 1] == c[|c| - 1];
      assert (x + c)[..n - 1] == x + c[..|c| - 1];
      TrimEndSkipsSuffix(x, c[..|c| - 1]);
    } else {
      assert x + c == x;
    }
  }

  /**
   * `trim` is determined by what it keeps: a core with non-trimmable ends,
   * surrounded by trimmable code points, trims to exactly that core.
   */
  lemma TrimOfPadded(a: string, b: string, c: string)
    requires AllTrimmable(a) && AllTrimmable(c) && IsTrimmed(b)
    ensures Trim(a + b + c) == b
  {
    assert a + b + c == a + (b + c);
    TrimStartSkipsPrefix(a, b + c);
    if b == [] {
      assert b + c == c + [];
      TrimStartSkipsPrefix(c, []);
      assert TrimStart(a + b + c) == [];
    } else {
      assert TrimStart(b + c) == b + c by {
        assert (b + c)[0] == b[0];
      }
      TrimEndSkipsSuffix(b, c);
      assert TrimEnd(b) == b;
    }
  }

  /** Once `TrimStart` has reached a code point it keeps, what follows is carried along unchanged. */
  lemma {:induction false} TrimStartAppend(x: string, c: string)
    requires TrimStart(x) != []
    ensures TrimStart(x + c) == TrimStart(x) + c
  {
    assert x != [];
    assert (x + c)[0] == x[0];
    if IsTrimmable(x[0]) {
      assert (x + c)[1..] == x[1..] + c;
      TrimStartAppend(x[1..], c);
    }
  }

  /** Surrounding whitespace never changes what `trim` returns. */
  lemma TrimIgnoresPadding(a: string, x: string, c: string)
    requires AllTrimmable(a) && AllTrimmable(c)
    ensures Trim(a + x + c) == Trim(x)
  {
    assert a + x + c == a + (x + c);
    TrimStartSkipsPrefix(a, x + c);
    var t := TrimStart(x);
    if t == [] {
      TrimStartIsSuffix(x);
      assert x[..|x|] == x;
      TrimStartSkipsPrefix(x, c);
      TrimStartSkipsPrefix(c, []);
      assert c + [] == c;
    } else {
      TrimStartAppend(x, c);
      TrimEndSkipsSuffix(t, c);
    }
  }

  /** `trim` is idempotent. */
  lemma TrimIdempotent(s: string)
    ensures Trim(Trim(s)) == Trim(s)
  {
    var r := Trim(s);
    assert [] + r + [] == r;
    TrimOfPadded([], r, []);
  }

  /** How many UTF-16 code units encode `c`: two for a code point above U+FFFF. */
  function CodeUnits(c: char): nat {
    if c as int > 0xFFFF then 2 else 1
  }

  /** The JavaScript `length` of `s`, in UTF-16 code units. */
  function Utf16Length(s: string): (n: nat)
    ensures |s| <= n <= 2 * |s|
  {
    if s == [] then 0 else CodeUnits(s[0]) + Utf16Length(s[1..])
  }

  /** The JavaScript length is the number of code points exactly when none lies above U+FFFF. */
  lemma {:induction false} Utf16LengthIsLengthIffBmp(s: string)
    ensures Utf16Length(s) == |s| <==> forall j :: 0 <= j < |s| ==> s[j] as int <= 0xFFFF
  {
    if s != [] {
      Utf16LengthIsLengthIffBmp(s[1..]);
      assert forall j :: 1 <= j < |s| ==> s[j] == s[1..][j - 1];
    }
  }
}
