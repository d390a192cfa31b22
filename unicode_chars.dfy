/**
 * The two character classes the field patterns use. Python's `re` module
 * matches `str` patterns in Unicode mode, so `\d` is every character of the
 * Unicode general category Nd (decimal digit) and `\s` every character for
 * which `str.isspace()` holds. The tables follow Unicode 15.0.
 */
module UnicodeChars {
  import opened Wrappers

  /** The number of blocks of ten consecutive decimal digits (category Nd). */
  const DigitBlockCount: nat := 68

  /** The code point of the digit zero of the `k`-th block of decimal digits, in increasing order. */
  function DigitZero(k: nat): int
    requires k < DigitBlockCount
  {
    match k
    case 0 => 0x0030
    case 1 => 0x0660
    case 2 => 0x06F0
    case 3 => 0x07C0
    case 4 => 0x0966
    case 5 => 0x09E6
    case 6 => 0x0A66
    case 7 => 0x0AE6
    case 8 => 0x0B66
    case 9 => 0x0BE6
    case 10 => 0x0C66
    case 11 => 0x0CE6
    case 12 => 0x0D66
    case 13 => 0x0DE6
    case 14 => 0x0E50
    case 15 => 0x0ED0
    case 16 => 0x0F20
    case 17 => 0x1040
    case 18 => 0x1090
    case 19 => 0x17E0
    case 20 => 0x1810
    case 21 => 0x1946
    case 22 => 0x19D0
    case 23 => 0x1A80
    case 24 => 0x1A90
    case 25 => 0x1B50
    case 26 => 0x1BB0
    case 27 => 0x1C40
    case 28 => 0x1C50
    case 29 => 0xA620
    case 30 => 0xA8D0
    case 31 => 0xA900
    case 32 => 0xA9D0
    case 33 => 0xA9F0
    case 34 => 0xAA50
    case 35 => 0xABF0
    case 36 => 0xFF10
    case 37 => 0x104A0
    case 38 => 0x10D30
    case 39 => 0x11066
    case 40 => 0x110F0
    case 41 => 0x11136
    case 42 => 0x111D0
    case 43 => 0x112F0
    case 44 => 0x11450
    case 45 => 0x114D0
    case 46 => 0x11650
    case 47 => 0x116C0
    case 48 => 0x11730
    case 49 => 0x118E0
    case 50 => 0x11950
    case 51 => 0x11C50
    case 52 => 0x11D50
    case 53 => 0x11DA0
    case 54 => 0x11F50
    case 55 => 0x16A60
    case 56 => 0x16AC0
    case 57 => 0x16B50
    case 58 => 0x1D7CE
    case 59 => 0x1D7D8
    case 60 => 0x1D7E2
    case 61 => 0x1D7EC
    case 62 => 0x1D7F6
    case 63 => 0x1E140
    case 64 => 0x1E2F0
    case 65 => 0x1E4F0
    case 66 => 0x1E950
    case _ => 0x1FBF0
  }

  /** `cp` is one of the ten digits of the `k`-th block. */
  predicate InBlock(cp: int, k: nat)
    requires k < DigitBlockCount
  {
    DigitZero(k) <= cp < DigitZero(k) + 10
  }

  /** `cp` is in one of the blocks from the `k`-th on. */
  predicate IsDigitFrom(cp: int, k: nat)
    requires k <= DigitBlockCount
    decreases DigitBlockCount - k
  {
    k < DigitBlockCount && (InBlock(cp, k) || IsDigitFrom(cp, k + 1))
  }

  /** Python's `\d` on `str`: a Unicode decimal digit. */
  predicate IsDigit(c: char) {
    IsDigitFrom(c as int, 0)
  }

  /** The value of `cp` within the first block from the `k`-th on that holds it. */
  function DigitValueFrom(cp: int, k: nat): (d: nat)
    requires k <= DigitBlockCount && IsDigitFrom(cp, k)
    ensures d < 10
    decreases DigitBlockCount - k
  {
    if InBlock(cp, k) then cp - DigitZero(k) else DigitValueFrom(cp, k + 1)
  }

  /** The numeric value `float()` gives a decimal digit (Python maps every Nd digit to its ASCII twin). */
  function DigitValue(c: char): (d: nat)
    requires IsDigit(c)
    ensures d < 10
  {
    DigitValueFrom(c as int, 0)
  }

  /** IsDigit is membership in some block of the table. */
  lemma {:induction false} IsDigitFromIsSomeBlock(cp: int, k: nat)
    requires k <= DigitBlockCount
    ensures IsDigitFrom(cp, k) <==> exists j :: k <= j < DigitBlockCount && InBlock(cp, j)
    decreases DigitBlockCount - k
  {
    if k < DigitBlockCount {
      IsDigitFromIsSomeBlock(cp, k + 1);
      if InBlock(cp, k) {
        assert IsDigitFrom(cp, k);
      } else {
        assert forall j :: k <= j < DigitBlockCount && InBlock(cp, j) ==> k + 1 <= j;
      }
    }
  }

  /** Python's `\s` on `str`: the characters `str.isspace()` accepts. */
  predicate IsSpace(c: char) {
    var cp := c as int;
    || 0x0009 <= cp <= 0x000D
    || 0x001C <= cp <= 0x0020
    || cp == 0x0085 || cp == 0x00A0 || cp == 0x1680
    || 0x2000 <= cp <= 0x200A
    || cp == 0x2028 || cp == 0x2029 || cp == 0x202F || cp == 0x205F || cp == 0x3000
  }

  /** The ASCII digit of a value below ten. */
  function AsciiDigit(d: nat): (c: char)
    requires d < 10
    ensures IsDigit(c) && DigitValue(c) == d
  {
    ('0' as int + d) as char
  }

  /** The ASCII digits are exactly the Nd characters below U+0080, each with its usual value. */
  lemma AsciiDigits(c: char)
    requires c as int < 0x80
    ensures IsDigit(c) <==> '0' <= c <= '9'
    ensures IsDigit(c) ==> DigitValue(c) == c as int - '0' as int
  {
    IsDigitFromIsSomeBlock(c as int, 0);
    if IsDigit(c) {
      var j :| 0 <= j < DigitBlockCount && InBlock(c as int, j);
      assert j == 0;
    }
  }

  /** No character is both a digit and white space, and '.' is neither. */
  lemma DigitIsNotSpace(c: char)
    ensures IsDigit(c) ==> !IsSpace(c)
    ensures !IsDigit('.') && !IsSpace('.')
  {
    AsciiDigits('.');
    IsDigitFromIsSomeBlock(c as int, 0);
  }
}
