/**
 * Strings as the Python and JavaScript sources see them: code-point
 * lexicographic order (Python's `<` on `str`), `str.join`/`Array.join`,
 * `str.split` on one character, `str.strip()` whitespace, prefixes and suffixes.
 */
module Text {

  /** Python's `a <= b` on strings: lexicographic by code point, a prefix sorts first. */
  predicate StrLe(a: string, b: string)
    decreases |a|
  {
    a == [] || (b != [] && (a[0] < b[0] || (a[0] == b[0] && StrLe(a[1..], b[1..]))))
  }

  /** Python's `a < b` on strings. */
  predicate StrLt(a: string, b: string) {
    StrLe(a, b) && a != b
  }

  lemma {:induction false} StrLeRefl(a: string)
    ensures StrLe(a, a)
  {
    if a != [] { StrLeRefl(a[1..]); }
  }

  lemma {:induction false} StrLeAntisym(a: string, b: string)
    requires StrLe(a, b) && StrLe(b, a)
    ensures a == b
  {
    if a != [] {
      StrLeAntisym(a[1..], b[1..]);
      assert a == [a[0]] + a[1..] && b == [b[0]] + b[1..];
    }
  }

  lemma {:induction false} StrLeTrans(a: string, b: string, c: string)
    requires StrLe(a, b) && StrLe(b, c)
    ensures StrLe(a, c)
    decreases |a|
  {
    if a != [] && a[0] == b[0] && b[0] == c[0] {
      StrLeTrans(a[1..], b[1..], c[1..]);
    }
  }

  lemma {:induction false} StrLeTotal(a: string, b: string)
    ensures StrLe(a, b) || StrLe(b, a)
    decreases |a|
  {
    if a != [] && b != [] && a[0] == b[0] {
      StrLeTotal(a[1..], b[1..]);
    }
  }

  /** `sep.join(parts)` / `parts.join(sep)`. */
  function Join(parts: seq<string>, sep: string): string
    decreases |parts|
  {
    if |parts| == 0 then ""
    else if |parts| == 1 then parts[0]
    else parts[0] + sep + Join(parts[1..], sep)
  }

  /** `s.split(c)` for a one-character separator: never empty, `[""]` for `""`. */
  function Split(s: string, c: char): (r: seq<string>)
    ensures |r| >= 1
    decreases |s|
  {
    if s == [] then [""]
    else if s[0] == c then [""] + Split(s[1..], c)
    else
      var t := Split(s[1..], c);
      [[s[0]] + t[0]] + t[1..]
  }

  lemma {:induction false} SplitNoSep(a: string, c: char)
    requires c !in a
    ensures Split(a, c) == [a]
  {
    if a != [] {
      SplitNoSep(a[1..], c);
      assert [a[0]] + a[1..] == a;
    }
  }

  lemma {:induction false} SplitAtSep(a: string, b: string, c: char)
    requires c !in a
    ensures Split(a + [c] + b, c) == [a] + Split(b, c)
  {
    if a == [] {
      assert a + [c] + b == [c] + b;
      assert ([c] + b)[1..] == b;
    } else {
      assert (a + [c] + b)[1..] == a[1..] + [c] + b;
      SplitAtSep(a[1..], b, c);
      assert [a[0]] + a[1..] == a;
    }
  }

  /** Splitting a join on a separator no part contains gives the parts back. */
  lemma {:induction false} SplitJoin(parts: seq<string>, c: char)
    requires |parts| >= 1
    requires forall i :: 0 <= i < |parts| ==> c !in parts[i]
    ensures Split(Join(parts, [c]), c) == parts
    decreases |parts|
  {
    if |parts| == 1 {
      SplitNoSep(parts[0], c);
    } else {
      SplitJoin(parts[1..], c);
      SplitAtSep(parts[0], Join(parts[1..], [c]), c);
      assert [parts[0]] + parts[1..] == parts;
    }
  }

  /** The first field of `s.split(c)` is the text before the first `c`. */
  lemma {:induction false} SplitFirst(s: string, c: char)
    ensures c !in Split(s, c)[0]
    ensures Split(s, c)[0] <= s
    ensures |Split(s, c)[0]| < |s| ==> s[|Split(s, c)[0]|] == c
    decreases |s|
  {
    if s != [] && s[0] != c {
      SplitFirst(s[1..], c);
    }
  }

  /** The characters Python's `str.strip()` removes (`str.isspace`). */
  predicate IsSpace(ch: char) {
    ch == ' ' || ch == '\t' || ch == '\n' || ch == '\r' || ch == '\U{000B}' || ch == '\U{000C}'
    || ('\U{001C}' <= ch <= '\U{001F}') || ch == '\U{0085}' || ch == '\U{00A0}'
    || ch == '\U{1680}' || ('\U{2000}' <= ch <= '\U{200A}') || ch == '\U{2028}'
    || ch == '\U{2029}' || ch == '\U{202F}' || ch == '\U{205F}' || ch == '\U{3000}'
  }

  /** `s.strip() == ""`. */
  predicate Blank(s: string) {
    forall i :: 0 <= i < |s| ==> IsSpace(s[i])
  }

  predicate EndsWith(s: string, suffix: string) {
    |suffix| <= |s| && s[|s| - |suffix|..] == suffix
  }

  predicate StartsWith(s: string, prefix: string) {
    |prefix| <= |s| && s[..|prefix|] == prefix
  }

  /** Decimal digits of `n`, left-padded with zeros to `width` (`%02d`, `%04d`). */
  function PadNat(n: nat, width: nat): (r: string)
    ensures |r| >= width
    ensures forall i :: 0 <= i < |r| ==> '0' <= r[i] <= '9'
    decreases width + n
  {
    if n < 10 && width <= 1 then [Digit(n)]
    else PadNat(n / 10, if width > 0 then width - 1 else 0) + [Digit(n % 10)]
  }

  function Digit(d: nat): (c: char)
    requires d < 10
    ensures '0' <= c <= '9'
  {
    "0123456789"[d]
  }

  function Pow10(w: nat): (p: nat)
    ensures p >= 1
  {
    if w == 0 then 1 else 10 * Pow10(w - 1)
  }

  /** A number below `10^width` is printed in exactly `width` characters. */
  lemma {:induction false} PadNatLength(n: nat, width: nat)
    requires width >= 1 && n < Pow10(width)
    ensures |PadNat(n, width)| == width
    decreases width
  {
    if !(n < 10 && width <= 1) {
      assert width >= 2;
      PadNatLength(n / 10, width - 1);
    }
  }

  /** `str(n)` for a non-negative int. */
  function NatStr(n: nat): string {
    PadNat(n, 1)
  }

  /** `s.replace(c, "")` for a one-character `c`. */
  function Without(s: string, c: char): (r: string)
    ensures c !in r
    ensures c !in s ==> r == s
    decreases |s|
  {
    if s == [] then []
    else (if s[0] == c then [] else [s[0]]) + Without(s[1..], c)
  }

  lemma {:induction false} WithoutAppend(a: string, b: string, c: char)
    ensures Without(a + b, c) == Without(a, c) + Without(b, c)
    decreases |a|
  {
    if a == [] {
      assert a + b == b;
    } else {
      assert (a + b)[0] == a[0] && (a + b)[1..] == a[1..] + b;
      WithoutAppend(a[1..], b, c);
    }
  }

  /** `sub in s` on two strings. */
  predicate Contains(s: string, sub: string)
    decreases |s|
  {
    StartsWith(s, sub) || (s != [] && Contains(s[1..], sub))
  }
}
