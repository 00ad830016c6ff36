/**
 * The two JavaScript built-ins whose exact behaviour the stores depend on:
 * `String.prototype.trim` (the catalog decides between a search and a plain
 * listing on the trimmed query) and `String(id)` on an integer id (the
 * favorites store keys its entities by it).
 */
module JsBuiltins {

  /**
   * The characters `trim` removes: the WhiteSpace and LineTerminator
   * productions of ECMA-262 (sections 12.2 and 12.3), i.e. TAB, VT, FF,
   * ZWNBSP, every Zs space separator, LF, CR, LS and PS.
   */
  predicate IsWhitespace(c: char) {
    var n := c as int;
    || n == 0x09 || n == 0x0B || n == 0x0C || n == 0xFEFF
    || n == 0x20 || n == 0xA0 || n == 0x1680 || (0x2000 <= n <= 0x200A)
    || n == 0x202F || n == 0x205F || n == 0x3000
    || n == 0x0A || n == 0x0D || n == 0x2028 || n == 0x2029
  }

  /** The first position at or after `i` that does not hold whitespace, or `|s|`. */
  function SkipForward(s: string, i: nat): (n: nat)
    requires i <= |s|
    ensures i <= n <= |s|
    ensures forall j :: i <= j < n ==> IsWhitespace(s[j])
    ensures n < |s| ==> !IsWhitespace(s[n])
    decreases |s| - i
  {
    if i < |s| && IsWhitespace(s[i]) then SkipForward(s, i + 1) else i
  }

  /**
   * The position just after the last character before `e` that is not
   * whitespace, but no lower than `lo`.
   */
  function SkipBackward(s: string, lo: nat, e: nat): (n: nat)
    requires lo <= e <= |s|
    ensures lo <= n <= e
    ensures forall j :: n <= j < e ==> IsWhitespace(s[j])
    ensures n > lo ==> !IsWhitespace(s[n - 1])
    decreases e
  {
    if e > lo && IsWhitespace(s[e - 1]) then SkipBackward(s, lo, e - 1) else e
  }

  /**
   * `s.trim()`: `s` without its leading and trailing whitespace; empty
   * exactly when `s` is all whitespace.
   */
  function Trim(s: string): (r: string)
    ensures |r| <= |s|
    ensures r == [] <==> forall i :: 0 <= i < |s| ==> IsWhitespace(s[i])
    ensures r != [] ==> !IsWhitespace(r[0]) && !IsWhitespace(r[|r| - 1])
  {
    var a := SkipForward(s, 0);
    var b := SkipBackward(s, a, |s|);
    s[a..b]
  }

  /**
   * What `trim` keeps is one contiguous slice of `s`, and everything around
   * that slice is whitespace.
   */
  lemma TrimIsSlice(s: string)
    ensures var a := SkipForward(s, 0);
      && a + |Trim(s)| <= |s|
      && Trim(s) == s[a..a + |Trim(s)|]
      && (forall i :: 0 <= i < a ==> IsWhitespace(s[i]))
      && (forall i :: a + |Trim(s)| <= i < |s| ==> IsWhitespace(s[i]))
  {
  }

  /** Trimming twice is trimming once. */
  lemma TrimIdempotent(s: string)
    ensures Trim(Trim(s)) == Trim(s)
  {
    var r := Trim(s);
    if r != [] {
      assert SkipForward(r, 0) == 0;
      assert SkipBackward(r, 0, |r|) == |r|;
      assert r[0..|r|] == r;
    }
  }

  /** The decimal digit character for `d`. */
  function DigitChar(d: nat): (c: char)
    requires d < 10
    ensures '0' <= c <= '9'
  {
    ('0' as int + d) as char
  }

  /** The decimal representation of a natural number, as `String(n)` writes it. */
  function NatToString(n: nat): string {
    if n < 10 then [DigitChar(n)] else NatToString(n / 10) + [DigitChar(n % 10)]
  }

  /**
   * The decimal form is all digits, has a single digit exactly below 10 and
   * starts with '0' only for 0 itself.
   */
  lemma {:induction false} NatToStringDigits(n: nat)
    ensures var s := NatToString(n);
      && |s| >= 1
      && (|s| == 1 <==> n < 10)
      && (forall i :: 0 <= i < |s| ==> '0' <= s[i] <= '9')
      && (s[0] == '0' <==> n == 0)
  {
    if n >= 10 {
      NatToStringDigits(n / 10);
      var t := NatToString(n / 10);
      assert NatToString(n) == t + [DigitChar(n % 10)];
      assert t[0] != '0';
    }
  }

  /** `String(id)` for an integer id: an optional minus sign, then the digits. */
  function IdString(id: int): string {
    if id < 0 then "-" + NatToString(-id) else NatToString(id)
  }

  /** `String(id)` is never empty, and starts with a minus sign exactly for a negative id. */
  lemma IdStringSign(id: int)
    ensures |IdString(id)| >= 1
    ensures IdString(id)[0] == '-' <==> id < 0
  {
    if id < 0 {
      NatToStringDigits(-id);
    } else {
      NatToStringDigits(id);
    }
  }

  /** Different naturals have different decimal representations. */
  lemma {:induction false} NatToStringInjective(a: nat, b: nat)
    requires NatToString(a) == NatToString(b)
    ensures a == b
  {
    var s := NatToString(a);
    NatToStringDigits(a);
    NatToStringDigits(b);
    if a < 10 {
      assert |s| == 1;
      assert s[0] == DigitChar(a) && s[0] == DigitChar(b);
    } else {
      assert b >= 10;
      var n := |s| - 1;
      assert s[..n] == NatToString(a / 10) && s[n] == DigitChar(a % 10);
      assert s[..n] == NatToString(b / 10) && s[n] == DigitChar(b % 10);
      NatToStringInjective(a / 10, b / 10);
    }
  }

  /**
   * Two integer ids give the same `String(id)` key only when they are equal,
   * so a favorites key names exactly one catalog id.
   */
  lemma IdStringInjective(a: int, b: int)
    requires IdString(a) == IdString(b)
    ensures a == b
  {
    IdStringSign(a);
    IdStringSign(b);
    if a < 0 {
      assert b < 0;
      assert NatToString(-a) == IdString(a)[1..] == IdString(b)[1..] == NatToString(-b);
      NatToStringInjective(-a, -b);
    } else {
      assert b >= 0;
      NatToStringInjective(a, b);
    }
  }
}
