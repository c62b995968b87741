/** Strings, printed integers and the readers that undo them.

Strings are sequences of characters and may contain NUL and spaces, like a
zend_string. */
module Text {

  datatype Option<+T> = None | Some(value: T)

  const UINT32_MODULUS: nat := 0x1_0000_0000

  type uint32 = n: nat | n < UINT32_MODULUS

  const NUL: char := '\0'

  // ---------------------------------------------------------------- decimals

  function DigitChar(d: nat): (c: char)
    requires d < 10
    ensures '0' <= c <= '9' && c as int == '0' as int + d
  {
    ('0' as int + d) as char
  }

  predicate IsDigit(c: char) {
    '0' <= c <= '9'
  }

  /** What printf prints for a non-negative "%d". */
  function Digits(n: nat): (s: string)
    ensures s != [] && forall i | 0 <= i < |s| :: IsDigit(s[i])
  {
    if n < 10 then [DigitChar(n)] else Digits(n / 10) + [DigitChar(n % 10)]
  }

  /** The number a digit string denotes. */
  function ParseDigits(s: string): nat
    requires forall i | 0 <= i < |s| :: IsDigit(s[i])
  {
    if s == [] then 0
    else
      assert IsDigit(s[|s| - 1]);
      10 * ParseDigits(s[..|s| - 1]) + (s[|s| - 1] as int - '0' as int)
  }

  lemma {:induction false} DigitsParse(n: nat)
    ensures ParseDigits(Digits(n)) == n
  {
    if n >= 10 {
      DigitsParse(n / 10);
      var s := Digits(n);
      assert s[..|s| - 1] == Digits(n / 10);
    }
  }

  /** What "%d" prints for a uint32_t argument: the bits are read as a signed
  32-bit integer. */
  function Decimal32(n: uint32): (s: string)
    ensures forall i | 0 <= i < |s| :: s[i] == '-' || IsDigit(s[i])
  {
    if n < 0x8000_0000 then Digits(n) else "-" + Digits(UINT32_MODULUS - n)
  }

  lemma Decimal32Injective(m: uint32, n: uint32)
    requires Decimal32(m) == Decimal32(n)
    ensures m == n
  {
    if m < 0x8000_0000 {
      assert IsDigit(Decimal32(m)[0]);
      assert n < 0x8000_0000;
      DigitsParse(m);
      DigitsParse(n);
    } else {
      assert Decimal32(m)[0] == '-';
      assert n >= 0x8000_0000;
      assert Decimal32(m)[1..] == Digits(UINT32_MODULUS - m);
      assert Decimal32(n)[1..] == Digits(UINT32_MODULUS - n);
      DigitsParse(UINT32_MODULUS - m);
      DigitsParse(UINT32_MODULUS - n);
    }
  }

  // -------------------------------------------------------------- separators

  predicate Lacks(s: string, c: char) {
    forall i | 0 <= i < |s| :: s[i] != c
  }

  lemma SplitSameLength(p: string, x: string, q: string, y: string, c: char)
    requires p + [c] + x == q + [c] + y && |p| == |q|
    ensures p == q && x == y
  {
    var s := p + [c] + x;
    assert s[..|p|] == p && s[|p| + 1..] == x;
    assert s[..|p|] == q && s[|p| + 1..] == y;
  }

  /** A separator that does not occur in the tails splits from the right in one
  way only, whatever the heads contain. */
  lemma SplitAtLast(p: string, x: string, q: string, y: string, c: char)
    requires p + [c] + x == q + [c] + y
    requires Lacks(x, c) && Lacks(y, c)
    ensures p == q && x == y
  {
    assert (p + [c] + x)[|p|] == c && (q + [c] + y)[|q|] == c;
    assert |p + [c] + x| == |q + [c] + y|;
    SplitSameLength(p, x, q, y, c);
  }

  /** A separator that does not occur in the heads splits from the left in one
  way only, whatever the tails contain. */
  lemma SplitAtFirst(p: string, x: string, q: string, y: string, c: char)
    requires p + [c] + x == q + [c] + y
    requires Lacks(p, c) && Lacks(q, c)
    ensures p == q && x == y
  {
    assert (p + [c] + x)[|p|] == c && (q + [c] + y)[|q|] == c;
    SplitSameLength(p, x, q, y, c);
  }
}
