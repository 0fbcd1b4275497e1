/**
 * The two Python built-ins the handlers lean on: `str.strip()` with no argument
 * (which removes the characters for which `str.isspace()` holds) and `int(text)`
 * on a decimal string.
 */
module Text {
  import opened Wrappers

  /** The characters Python's `str.isspace()` accepts. */
  predicate IsSpace(c: char) {
    || c == ' '
    || ('\U{9}' <= c <= '\U{D}')
    || ('\U{1C}' <= c <= '\U{1F}')
    || c == '\U{85}' || c == '\U{A0}' || c == '\U{1680}'
    || ('\U{2000}' <= c <= '\U{200A}')
    || c == '\U{2028}' || c == '\U{2029}' || c == '\U{202F}' || c == '\U{205F}' || c == '\U{3000}'
  }

  /**
   * The whitespace `int()` skips around a number. Non-ASCII whitespace is
   * skipped as `strip()` would; among ASCII characters only space and
   * '\t' '\n' '\v' '\f' '\r' are, so the separators U+001C..U+001F that
   * `str.isspace()` accepts stop the parse.
   */
  predicate IsIntSpace(c: char) {
    IsSpace(c) && !('\U{1C}' <= c <= '\U{1F}')
  }

  /** `s` with its leading characters satisfying `sp` removed. */
  function TrimStart(s: string, sp: char -> bool): (r: string)
    ensures |r| <= |s| && r == s[|s| - |r|..]
    ensures r == [] || !sp(r[0])
    ensures forall i :: 0 <= i < |s| - |r| ==> sp(s[i])
  {
    if s != [] && sp(s[0]) then TrimStart(s[1..], sp) else s
  }

  /** `s` with its trailing characters satisfying `sp` removed. */
  function TrimEnd(s: string, sp: char -> bool): (r: string)
    ensures |r| <= |s| && r == s[..|r|]
    ensures r == [] || !sp(r[|r| - 1])
    ensures forall i :: |r| <= i < |s| ==> sp(s[i])
  {
    if s != [] && sp(s[|s| - 1]) then TrimEnd(s[..|s| - 1], sp) else s
  }

  /** Python's `s.strip()`: the slice of `s` left after dropping whitespace at both ends. */
  function Trim(s: string): (r: string)
    ensures |r| <= |s|
    ensures r == [] || (!IsSpace(r[0]) && !IsSpace(r[|r| - 1]))
  {
    TrimEnd(TrimStart(s, IsSpace), IsSpace)
  }

  /** The text `int()` goes on to parse once the whitespace it skips is gone. */
  function IntStrip(s: string): (r: string)
    ensures |r| <= |s|
    ensures r == [] || (!IsIntSpace(r[0]) && !IsIntSpace(r[|r| - 1]))
  {
    TrimEnd(TrimStart(s, IsIntSpace), IsIntSpace)
  }

  /** What `strip()` removes is whitespace, and what it keeps is one contiguous slice. */
  lemma TrimSlice(s: string)
    ensures var lo := |s| - |TrimStart(s, IsSpace)|;
      && lo + |Trim(s)| <= |s| && Trim(s) == s[lo..lo + |Trim(s)|]
      && (forall i :: 0 <= i < lo ==> IsSpace(s[i]))
      && (forall i :: lo + |Trim(s)| <= i < |s| ==> IsSpace(s[i]))
  {
  }

  /** A string with no `sp` character at either end is left as it is. */
  lemma {:induction false} TrimFixed(s: string, sp: char -> bool)
    requires s == [] || (!sp(s[0]) && !sp(s[|s| - 1]))
    ensures TrimEnd(TrimStart(s, sp), sp) == s
  {
    assert TrimStart(s, sp) == s;
    assert TrimEnd(s, sp) == s;
  }

  /** Stripping twice is stripping once. */
  lemma TrimIdempotent(s: string)
    ensures Trim(Trim(s)) == Trim(s)
  {
    TrimFixed(Trim(s), IsSpace);
  }

  /** `strip()` never removes a character that is not whitespace. */
  lemma TrimKeeps(s: string, c: char)
    requires !IsSpace(c)
    ensures c in Trim(s) <==> c in s
  {
    StripKeeps(s, IsSpace, c);
  }

  /** Stripping `sp` characters keeps every other character. */
  lemma StripKeeps(s: string, sp: char -> bool, c: char)
    requires !sp(c)
    ensures c in TrimEnd(TrimStart(s, sp), sp) <==> c in s
  {
    if c in s {
      var i :| 0 <= i < |s| && s[i] == c;
      StripKeepsAt(s, sp, i);
    }
    StripFrom(s, sp, c);
  }

  /** A character at index `i` that is not `sp` survives the strip. */
  lemma StripKeepsAt(s: string, sp: char -> bool, i: int)
    requires 0 <= i < |s| && !sp(s[i])
    ensures s[i] in TrimEnd(TrimStart(s, sp), sp)
  {
    var t1 := TrimStart(s, sp);
    var lo := |s| - |t1|;
    assert lo <= i;
    assert t1[i - lo] == s[i];
    var t := TrimEnd(t1, sp);
    assert i - lo < |t|;
    assert t[i - lo] == s[i];
  }

  /** Whatever the strip keeps was in the input. */
  lemma StripFrom(s: string, sp: char -> bool, c: char)
    ensures c in TrimEnd(TrimStart(s, sp), sp) ==> c in s
  {
    var t1 := TrimStart(s, sp);
    var t := TrimEnd(t1, sp);
    if c in t {
      var j :| 0 <= j < |t| && t[j] == c;
      assert t1[j] == c;
      assert s[|s| - |t1| + j] == c;
    }
  }

  /** Leading `sp` characters before `x` make no difference to `TrimStart`. */
  lemma {:induction false} TrimStartSkips(pre: string, x: string, sp: char -> bool)
    requires forall i :: 0 <= i < |pre| ==> sp(pre[i])
    ensures TrimStart(pre + x, sp) == TrimStart(x, sp)
  {
    if pre == [] {
      assert pre + x == x;
    } else {
      assert (pre + x)[1..] == pre[1..] + x;
      TrimStartSkips(pre[1..], x, sp);
    }
  }

  /** Trailing `sp` characters after `x` make no difference to `TrimEnd`. */
  lemma {:induction false} TrimEndSkips(x: string, post: string, sp: char -> bool)
    requires forall i :: 0 <= i < |post| ==> sp(post[i])
    ensures TrimEnd(x + post, sp) == TrimEnd(x, sp)
  {
    if post == [] {
      assert x + post == x;
    } else {
      assert (x + post)[..|x + post| - 1] == x + post[..|post| - 1];
      TrimEndSkips(x, post[..|post| - 1], sp);
    }
  }

  /** Trailing `sp` characters after `t` make no difference to stripping both ends. */
  lemma {:induction false} StripSkipsTrailing(t: string, post: string, sp: char -> bool)
    requires forall i :: 0 <= i < |post| ==> sp(post[i])
    ensures TrimEnd(TrimStart(t + post, sp), sp) == TrimEnd(TrimStart(t, sp), sp)
  {
    if t == [] {
      assert t + post == post + [];
      TrimStartSkips(post, [], sp);
    } else if sp(t[0]) {
      assert (t + post)[1..] == t[1..] + post;
      StripSkipsTrailing(t[1..], post, sp);
    } else {
      TrimEndSkips(t, post, sp);
    }
  }

  predicate IsDigit(c: char) {
    '0' <= c <= '9'
  }

  /**
   * The digit part `int()` accepts in base 10: digits, with single underscores
   * allowed between two digits ("1_000"), none at either end and never two in a row.
   */
  predicate WellFormedDigits(s: string) {
    && |s| > 0
    && IsDigit(s[0])
    && forall i :: 0 <= i < |s| ==> IsDigit(s[i]) || (s[i] == '_' && i + 1 < |s| && IsDigit(s[i + 1]))
  }

  /** The decimal value of the digits of `s`, underscores skipped. */
  function DigitsValue(s: string): nat {
    if s == [] then 0
    else if IsDigit(s[|s| - 1]) then 10 * DigitsValue(s[..|s| - 1]) + (s[|s| - 1] as int - '0' as int)
    else DigitsValue(s[..|s| - 1])
  }

  /** How many decimal digits `s` holds; underscores do not count. */
  function DigitCount(s: string): nat {
    if s == [] then 0
    else DigitCount(s[..|s| - 1]) + (if IsDigit(s[|s| - 1]) then 1 else 0)
  }

  /**
   * Python's default limit on the digits of a decimal integer string
   * (`sys.get_int_max_str_digits()`, since Python 3.11 and the 3.7.14, 3.8.14,
   * 3.9.14 and 3.10.7 security releases); `int()` raises `ValueError` beyond it.
   */
  const MaxStrDigits: nat := 4300

  /**
   * Python's `int(text)` in base 10 over ASCII digits: the whitespace `int()`
   * skips is ignored, then one optional sign and well-formed digits, at most
   * `MaxStrDigits` of them; anything else is the `ValueError` case, `None`.
   */
  function ParseInt(text: string): (r: Option<int>)
    ensures r.Some? ==> IntStrip(text) != []
  {
    ParseSigned(IntStrip(text))
  }

  /** The magnitude of `n`. */
  function Magnitude(n: int): nat {
    if n < 0 then -n else n
  }

  /** What `int()` makes of text already stripped of surrounding whitespace. */
  function ParseSigned(t: string): (r: Option<int>)
    ensures r.Some? ==> t != []
  {
    if |t| > 0 && (t[0] == '-' || t[0] == '+') then
      match ParseDigits(t[1..])
      case Some(v) => var w: int := v; Some(if t[0] == '-' then -w else w)
      case None => None
    else ParseDigits(t)
  }

  /** The unsigned digit part: well-formed and within the digit limit, or `None`. */
  function ParseDigits(d: string): (r: Option<nat>)
    ensures r.Some? ==> d != [] && IsDigit(d[0])
  {
    if WellFormedDigits(d) && DigitCount(d) <= MaxStrDigits then Some(DigitsValue(d)) else None
  }

  /** Decimal rendering of a natural number, most significant digit first. */
  function ShowNat(n: nat): (r: string)
    ensures |r| > 0 && forall i :: 0 <= i < |r| ==> IsDigit(r[i])
  {
    var d := ((n % 10) + '0' as int) as char;
    if n < 10 then [d] else ShowNat(n / 10) + [d]
  }

  /** Decimal rendering of an integer, with a leading '-' when negative. */
  function ShowInt(n: int): (r: string) {
    if n < 0 then "-" + ShowNat(-n) else ShowNat(n)
  }

  lemma {:induction false} DigitsValueShowNat(n: nat)
    ensures DigitsValue(ShowNat(n)) == n
  {
    var s := ShowNat(n);
    if n >= 10 {
      DigitsValueShowNat(n / 10);
      assert s[..|s| - 1] == ShowNat(n / 10);
    }
  }

  /** In a string of digits every character counts. */
  lemma {:induction false} DigitCountAllDigits(s: string)
    requires forall i :: 0 <= i < |s| ==> IsDigit(s[i])
    ensures DigitCount(s) == |s|
  {
    if s != [] {
      DigitCountAllDigits(s[..|s| - 1]);
    }
  }

  /** A rendering has none of the whitespace `int()` skips at either end. */
  lemma ShowIntStripped(n: int)
    ensures IntStrip(ShowInt(n)) == ShowInt(n)
  {
    var s := ShowInt(n);
    assert s[0] == '-' || IsDigit(s[0]);
    assert IsDigit(s[|s| - 1]);
    TrimFixed(s, IsIntSpace);
  }

  lemma ParseDigitsShow(m: nat)
    ensures ParseDigits(ShowNat(m)) == if |ShowNat(m)| <= MaxStrDigits then Some(m) else None
  {
    DigitsValueShowNat(m);
    DigitCountAllDigits(ShowNat(m));
  }

  lemma ParseSignedShow(n: int)
    ensures ParseSigned(ShowInt(n)) == if |ShowNat(Magnitude(n))| <= MaxStrDigits then Some(n) else None
  {
    var digits := ShowNat(Magnitude(n));
    ParseDigitsShow(Magnitude(n));
    if n < 0 {
      assert ShowInt(n)[1..] == digits;
    } else {
      assert ShowInt(n) == digits && IsDigit(digits[0]);
    }
  }

  /**
   * `int()` reads back every integer its decimal rendering spells, zero and
   * negatives included, as long as the rendering is within the digit limit;
   * beyond it `int()` refuses.
   */
  lemma ParseShowInt(n: int)
    ensures ParseInt(ShowInt(n)) == if |ShowNat(Magnitude(n))| <= MaxStrDigits then Some(n) else None
  {
    ShowIntStripped(n);
    ParseSignedShow(n);
  }

  /** The whitespace `int()` skips, before or after the number, never changes what it reads. */
  lemma ParseIntIgnoresSpace(pre: string, t: string, post: string)
    requires forall i :: 0 <= i < |pre| ==> IsIntSpace(pre[i])
    requires forall i :: 0 <= i < |post| ==> IsIntSpace(post[i])
    ensures ParseInt(pre + t + post) == ParseInt(t)
  {
    assert pre + t + post == pre + (t + post);
    TrimStartSkips(pre, t + post, IsIntSpace);
    StripSkipsTrailing(t, post, IsIntSpace);
  }

  /** The separators U+001C..U+001F are whitespace to `strip()`, which drops them. */
  lemma SeparatorStripped(c: char, t: string)
    requires '\U{1C}' <= c <= '\U{1F}'
    ensures IsSpace(c) && Trim([c] + t) == Trim(t)
  {
    TrimStartSkips([c], t, IsSpace);
  }

  /** The same separators stop `int()`: text that starts with one never parses. */
  lemma SeparatorStopsInt(c: char, t: string)
    requires '\U{1C}' <= c <= '\U{1F}'
    ensures ParseInt([c] + t) == None
  {
    var s := [c] + t;
    assert !IsIntSpace(c);
    assert TrimStart(s, IsIntSpace) == s;
    var r := IntStrip(s);
    if r != [] {
      assert r == s[..|r|];
      assert r[0] == c && !IsDigit(c) && c != '-' && c != '+';
    }
  }
}
