/**
 * Python's built-in `int(s)` on a string, base 10: surrounding whitespace is
 * ignored, one optional sign, then digits in which single underscores may
 * separate digits, at most 4300 of them. Only ASCII digits and ASCII
 * whitespace are modelled.
 */
module PyInt {
  import opened Wrappers
  import opened Digits

  /**
   * The ASCII characters `int()` skips around a literal: space and \t \n \v \f \r.
   * The separators \x1c-\x1f count as space for `str.isspace()` but not here.
   */
  predicate IsSpace(c: char) {
    c == ' ' || 9 <= c as int <= 13
  }

  predicate AllSpace(s: string) {
    forall i :: 0 <= i < |s| ==> IsSpace(s[i])
  }

  /** Drops leading whitespace. */
  function TrimLeft(s: string): (r: string)
    ensures |r| <= |s| && r == s[|s| - |r|..]
    ensures AllSpace(s[..|s| - |r|])
    ensures |r| == 0 || !IsSpace(r[0])
  {
    if |s| > 0 && IsSpace(s[0]) then
      var r := TrimLeft(s[1..]);
      assert r == s[|s| - |r|..] by {
        assert s[1..][|s| - 1 - |r|..] == s[|s| - |r|..];
      }
      assert s[..|s| - |r|] == [s[0]] + s[1..][..|s| - 1 - |r|];
      r
    else
      s
  }

  /** Drops trailing whitespace. */
  function TrimRight(s: string): (r: string)
    ensures |r| <= |s| && r == s[..|r|]
    ensures AllSpace(s[|r|..])
    ensures |r| == 0 || !IsSpace(r[|r| - 1])
  {
    if |s| > 0 && IsSpace(s[|s| - 1]) then
      var r := TrimRight(s[..|s| - 1]);
      assert s[|r|..] == s[..|s| - 1][|r|..] + [s[|s| - 1]];
      r
    else
      s
  }

  /** Drops the whitespace `int()` skips from both ends. */
  function Strip(s: string): string {
    TrimRight(TrimLeft(s))
  }

  /** Digits with single underscores allowed only between two digits. */
  predicate WellGrouped(b: string) {
    && |b| > 0
    && IsDigit(b[0])
    && IsDigit(b[|b| - 1])
    && (forall i :: 0 <= i < |b| ==> IsDigit(b[i]) || b[i] == '_')
    && (forall i :: 0 <= i < |b| - 1 ==> b[i] == '_' ==> b[i + 1] != '_')
  }

  /** The digits of a grouped literal, separators removed. */
  function DropUnderscores(b: string): (r: string)
    requires forall i :: 0 <= i < |b| ==> IsDigit(b[i]) || b[i] == '_'
    ensures AllDigits(r) && |r| <= |b|
    ensures AllDigits(b) ==> r == b
  {
    if |b| == 0 then []
    else if b[0] == '_' then DropUnderscores(b[1..])
    else [b[0]] + DropUnderscores(b[1..])
  }

  /** The sign split off a stripped literal: (negative, unsigned part). */
  function SplitSign(t: string): (r: (bool, string))
    ensures r.1 == t || (|t| > 0 && r.1 == t[1..] && (t[0] == '+' || t[0] == '-'))
    ensures r.0 ==> |t| > 0 && t[0] == '-'
  {
    if |t| > 0 && (t[0] == '+' || t[0] == '-') then (t[0] == '-', t[1..]) else (false, t)
  }

  /**
   * The most digits `int()` converts from decimal text: the default of
   * `sys.get_int_max_str_digits()` since Python 3.11. Leading zeros count,
   * underscores do not.
   */
  const MaxStrDigits := 4300

  /** A digit string `int()` converts without hitting the limit. */
  predicate WithinLimit(digits: string) {
    |digits| <= MaxStrDigits
  }

  /**
   * `int(s)`: the integer `s` denotes, or None where Python raises ValueError,
   * a literal of more than `MaxStrDigits` digits included.
   */
  function ParseInt(s: string): (r: Option<int>)
    ensures |s| > 0 && AllDigits(s) ==> r == if |s| <= MaxStrDigits then Some(Value(s)) else None
    ensures AllSpace(s) ==> r == None
  {
    DigitsLiteral(s);
    BlankLiteral(s);
    ParseLiteral(Strip(s))
  }

  /** The integer a stripped literal denotes: sign, then grouped digits within the limit. */
  function ParseLiteral(t: string): Option<int> {
    var sign := SplitSign(t);
    if !WellGrouped(sign.1) then None
    else
      var digits := DropUnderscores(sign.1);
      if !WithinLimit(digits) then None
      else
        Some(Signed(sign.0, Value(digits)))
  }

  /** `v` with the literal's sign applied. */
  function Signed(negative: bool, v: nat): int {
    if negative then -(v as int) else v
  }

  /** Plain decimal text is its own stripped, unsigned, well-grouped literal. */
  lemma DigitsLiteral(s: string)
    ensures |s| > 0 && AllDigits(s) ==> SplitSign(Strip(s)) == (false, s) && WellGrouped(s)
  {
    if |s| > 0 && AllDigits(s) {
      assert !IsSpace(s[0]) && !IsSpace(s[|s| - 1]);
      StripUnchanged(s);
    }
  }

  /** Blank text strips to nothing. */
  lemma BlankLiteral(s: string)
    ensures AllSpace(s) ==> Strip(s) == []
  {
  }

  /** The decimal rendering of any integer, as Python's `str(n)` gives it. */
  function ShowInt(n: int): (s: string)
    ensures |s| > 0
  {
    if n < 0 then "-" + ShowNat(-n) else ShowNat(n)
  }

  lemma StripUnchanged(s: string)
    requires |s| > 0 && !IsSpace(s[0]) && !IsSpace(s[|s| - 1])
    ensures Strip(s) == s
  {
  }

  /** The digits of `str(n)`, without the sign. */
  function Magnitude(n: int): (s: string)
    ensures |s| > 0 && AllDigits(s)
  {
    ShowNat(if n < 0 then -n else n)
  }

  /** `int(str(n)) == n` for every integer whose text is within the digit limit; beyond it `int()` raises. */
  lemma {:induction false} ParseShowInt(n: int)
    ensures ParseInt(ShowInt(n)) == if |Magnitude(n)| <= MaxStrDigits then Some(n) else None
  {
    var s := ShowInt(n);
    var digits := Magnitude(n);
    StripUnchanged(s);
    if n < 0 {
      assert s[0] == '-' && s[1..] == digits;
    } else {
      assert s == digits && IsDigit(s[0]);
    }
    ParseSignedDigits(s, n < 0, digits);
    assert Signed(n < 0, Value(digits)) == n;
    assert ParseInt(s) == ParseLiteral(s);
  }

  /** A literal that splits into a sign and plain digits denotes their value, within the digit limit. */
  lemma ParseSignedDigits(t: string, negative: bool, digits: string)
    requires |digits| > 0 && AllDigits(digits)
    requires SplitSign(t) == (negative, digits)
    ensures ParseLiteral(t) ==
      if WithinLimit(digits) then Some(Signed(negative, Value(digits))) else None
  {
    DigitsAreGrouped(digits);
  }

  lemma DigitsAreGrouped(digits: string)
    requires |digits| > 0 && AllDigits(digits)
    ensures WellGrouped(digits) && DropUnderscores(digits) == digits
  {
  }

  /** Whitespace around a literal does not change what `int()` returns. */
  lemma {:induction false} ParseIntIgnoresSpace(pre: string, s: string, post: string)
    requires AllSpace(pre) && AllSpace(post)
    ensures ParseInt(pre + s + post) == ParseInt(s)
  {
    StripSpace(pre, s, post);
  }

  lemma {:induction false} StripSpace(pre: string, s: string, post: string)
    requires AllSpace(pre) && AllSpace(post)
    ensures Strip(pre + s + post) == Strip(s)
  {
    calc {
      Strip(pre + s + post);
      { assert pre + s + post == pre + (s + post); }
      TrimRight(TrimLeft(pre + (s + post)));
      { TrimLeftSpace(pre, s + post); }
      TrimRight(TrimLeft(s + post));
      { TrimLeftAppend(s, post); }
      TrimRight(TrimLeft(s) + post);
      { TrimRightSpace(TrimLeft(s), post); }
      TrimRight(TrimLeft(s));
    }
  }

  lemma {:induction false} TrimLeftSpace(pre: string, s: string)
    requires AllSpace(pre)
    ensures TrimLeft(pre + s) == TrimLeft(s)
    decreases |pre|
  {
    if |pre| > 0 {
      assert (pre + s)[1..] == pre[1..] + s;
      TrimLeftSpace(pre[1..], s);
    } else {
      assert pre + s == s;
    }
  }

  /** Trimming the left of `s + post` leaves `post` intact unless `s` is all space. */
  lemma {:induction false} TrimLeftAppend(s: string, post: string)
    requires AllSpace(post)
    ensures TrimRight(TrimLeft(s + post)) == TrimRight(TrimLeft(s) + post)
    decreases |s|
  {
    if |s| > 0 && IsSpace(s[0]) {
      assert (s + post)[1..] == s[1..] + post;
      TrimLeftAppend(s[1..], post);
    } else if |s| > 0 {
      assert TrimLeft(s + post) == s + post;
    } else {
      assert s + post == post;
      TrimLeftSpace(post, []);
      assert post + [] == post;
      TrimRightSpace([], post);
      assert [] + post == post;
    }
  }

  lemma {:induction false} TrimRightSpace(s: string, post: string)
    requires AllSpace(post)
    ensures TrimRight(s + post) == TrimRight(s)
    decreases |post|
  {
    if |post| > 0 {
      var p := post[..|post| - 1];
      assert (s + post)[..|s + post| - 1] == s + p;
      TrimRightSpace(s, p);
    } else {
      assert s + post == s;
    }
  }
}
