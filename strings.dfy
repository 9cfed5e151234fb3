/**
 * String helpers shared by the modules: Python's notion of whitespace,
 * the decimal rendering of a non-negative integer (`str(n)` / an f-string
 * `{n}`), its parser, the space-to-`%20` rewrite and a first-occurrence search.
 */
module Strings {
  import opened Wrappers

  /** `c.isspace()` in Python 3: the characters `str.strip()` removes. */
  predicate IsPySpace(c: char)
  {
    var n := c as int;
    n == 0x20 || 0x09 <= n <= 0x0D || 0x1C <= n <= 0x1F || n == 0x85 || n == 0xA0
    || n == 0x1680 || 0x2000 <= n <= 0x200A || n == 0x2028 || n == 0x2029
    || n == 0x202F || n == 0x205F || n == 0x3000
  }

  /** `not s.strip()`: the string is empty or whitespace only. */
  predicate Blank(s: string)
  {
    forall i :: 0 <= i < |s| ==> IsPySpace(s[i])
  }

  /** `bool(s.strip())`: the string holds at least one non-whitespace character. */
  predicate Filled(s: string)
  {
    !Blank(s)
  }

  predicate IsDigit(c: char)
  {
    '0' <= c <= '9'
  }

  predicate AllDigits(s: string)
  {
    forall i :: 0 <= i < |s| ==> IsDigit(s[i])
  }

  function DigitChar(d: nat): (c: char)
    requires d < 10
    ensures IsDigit(c)
  {
    ('0' as int + d) as char
  }

  function DigitValue(c: char): nat
    requires IsDigit(c)
  {
    (c as int - '0' as int) as nat
  }

  /**
   * The decimal text of `n` as Python's `str(n)` writes it: at least one
   * digit, only digits, and no leading zero except for "0" itself.
   */
  function NatToString(n: nat): (r: string)
    ensures |r| >= 1 && AllDigits(r)
    ensures r[0] == '0' ==> r == "0"
    decreases n
  {
    if n < 10 then [DigitChar(n)] else NatToString(n / 10) + [DigitChar(n % 10)]
  }

  /** The value of a string of decimal digits (`int(s)` on a digit string). */
  function ParseNat(s: string): nat
    requires AllDigits(s)
    decreases |s|
  {
    if s == [] then 0 else 10 * ParseNat(s[..|s| - 1]) + DigitValue(s[|s| - 1])
  }

  /** Reading back the decimal text of `n` yields `n`. */
  lemma {:induction false} ParseNatToString(n: nat)
    ensures ParseNat(NatToString(n)) == n
    decreases n
  {
    var r := NatToString(n);
    if n < 10 {
      assert r[..|r| - 1] == [];
    } else {
      var a := NatToString(n / 10);
      assert r == a + [DigitChar(n % 10)];
      assert r[..|r| - 1] == a;
      ParseNatToString(n / 10);
    }
  }

  /** Distinct numbers have distinct decimal texts. */
  lemma NatToStringInjective(m: nat, n: nat)
    requires NatToString(m) == NatToString(n)
    ensures m == n
  {
    ParseNatToString(m);
    ParseNatToString(n);
  }

  /**
   * `s.replace(' ', '%20')`: every space becomes the three characters `%20`,
   * so no space is left and each one adds two characters.
   */
  function EncodeSpaces(s: string): (r: string)
    ensures ' ' !in r
    ensures |r| == |s| + 2 * multiset(s)[' ']
    decreases |s|
  {
    if s == [] then []
    else
      assert s == [s[0]] + s[1..];
      assert multiset(s) == multiset([s[0]]) + multiset(s[1..]);
      (if s[0] == ' ' then "%20" else [s[0]]) + EncodeSpaces(s[1..])
  }

  /** One character: a space becomes `%20`, every other character stays. */
  lemma EncodeSpacesChar(c: char)
    ensures EncodeSpaces([c]) == if c == ' ' then "%20" else [c]
  {
    assert [c][1..] == [];
  }

  /** A space between two parts becomes `%20`, and the parts are rewritten on their own. */
  lemma EncodeSpacesAtSpace(a: string, b: string)
    ensures EncodeSpaces(a + " " + b) == EncodeSpaces(a) + "%20" + EncodeSpaces(b)
  {
    EncodeSpacesConcat(a + " ", b);
    EncodeSpacesConcat(a, " ");
    EncodeSpacesChar(' ');
  }

  /** A string without spaces is left exactly as it is. */
  lemma {:induction false} EncodeSpacesNoSpaceUnchanged(s: string)
    requires ' ' !in s
    ensures EncodeSpaces(s) == s
    decreases |s|
  {
    if s != [] {
      assert s[0] != ' ';
      assert ' ' !in s[1..] by {
        forall i | 0 <= i < |s[1..]| ensures s[1..][i] != ' ' {
          assert s[1..][i] == s[i + 1];
        }
      }
      EncodeSpacesNoSpaceUnchanged(s[1..]);
      assert s == [s[0]] + s[1..];
    }
  }

  /** Rewriting twice is the same as rewriting once. */
  lemma EncodeSpacesIdempotent(s: string)
    ensures EncodeSpaces(EncodeSpaces(s)) == EncodeSpaces(s)
  {
    EncodeSpacesNoSpaceUnchanged(EncodeSpaces(s));
  }

  /** The rewrite works piecewise: it distributes over concatenation. */
  lemma {:induction false} EncodeSpacesConcat(a: string, b: string)
    ensures EncodeSpaces(a + b) == EncodeSpaces(a) + EncodeSpaces(b)
    decreases |a|
  {
    if a == [] {
      assert a + b == b;
    } else {
      assert (a + b)[0] == a[0];
      assert (a + b)[1..] == a[1..] + b;
      EncodeSpacesConcat(a[1..], b);
    }
  }

  /** The index of the first occurrence of `c` in `s`, if any. */
  function IndexOf(s: string, c: char): (r: Option<nat>)
    ensures r.None? <==> c !in s
    ensures r.Some? ==> r.value < |s| && s[r.value] == c && c !in s[..r.value]
    decreases |s|
  {
    if s == [] then None
    else if s[0] == c then Some(0)
    else match IndexOf(s[1..], c)
      case None => None
      case Some(k) =>
        assert s[..k + 1] == [s[0]] + s[1..][..k];
        Some(k + 1)
  }
}
