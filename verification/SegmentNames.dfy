/** Segment file names: twenty decimal digits of the first sequence number, then ".bin". */
module SegmentNames {
  import opened Common

  const UINT64_LIMIT: nat := 0x1_0000_0000_0000_0000
  const NAME_DIGITS: nat := 20
  const SUFFIX := ".bin"

  /** `n` in decimal with leading zeros, `width` characters; exact for n below 10^width. */
  function Decimal(n: nat, width: nat): (s: string)
    ensures |s| == width
  {
    if width == 0 then "" else Decimal(n / 10, width - 1) + [('0' as int + n % 10) as char]
  }

  function SegmentName(first: nat): string
    requires first < UINT64_LIMIT
  {
    Decimal(first, NAME_DIGITS) + SUFFIX
  }

  predicate IsDigit(c: char) {
    '0' <= c <= '9'
  }

  /** The value of a decimal string, when it holds digits only. */
  function DecimalValue(s: string): Option<nat> {
    if s == "" then Some(0)
    else if !IsDigit(s[|s| - 1]) then None
    else match DecimalValue(s[..|s| - 1])
      case None => None
      case Some(v) => Some(10 * v + (s[|s| - 1] as int - '0' as int))
  }

  /** First seqno from a segment name; None for names that are not twenty digits and ".bin", or
      whose number does not fit 64 bits. */
  function ParseName(name: string): Option<nat> {
    if |name| < |SUFFIX| || name[|name| - |SUFFIX|..] != SUFFIX then None
    else
      var digits := name[..|name| - |SUFFIX|];
      if |digits| != NAME_DIGITS then None
      else match DecimalValue(digits)
        case None => None
        case Some(v) => if v < UINT64_LIMIT then Some(v) else None
  }

  function Pow10(n: nat): (p: nat)
    ensures p > 0
  {
    if n == 0 then 1 else 10 * Pow10(n - 1)
  }

  /** Reading back a decimal gives the number. */
  lemma {:induction false} DecimalReads(n: nat, width: nat)
    requires n < Pow10(width)
    ensures DecimalValue(Decimal(n, width)) == Some(n)
  {
    if width == 0 {
    } else {
      DecimalReads(n / 10, width - 1);
      DigitReads(Decimal(n / 10, width - 1), n / 10, n % 10);
    }
  }

  /** A digit after the decimal of `v`. */
  lemma DigitReads(front: string, v: nat, digit: nat)
    requires DecimalValue(front) == Some(v) && digit < 10
    ensures DecimalValue(front + [('0' as int + digit) as char]) == Some(10 * v + digit)
  {
    var last := ('0' as int + digit) as char;
    assert IsDigit(last) && last as int - '0' as int == digit;
    hide IsDigit;
    assert (front + [last])[..|front|] == front;
  }

  /** Writing a number that was read gives its digits. */
  lemma {:induction false} DecimalWrites(s: string)
    requires DecimalValue(s).Some?
    ensures DecimalValue(s).value < Pow10(|s|)
    ensures Decimal(DecimalValue(s).value, |s|) == s
  {
    if s == "" {
    } else {
      var front := s[..|s| - 1];
      DecimalWrites(front);
      assert s == front + [s[|s| - 1]];
    }
  }

  lemma TwentyDigits()
    ensures UINT64_LIMIT <= Pow10(NAME_DIGITS)
  {
    assert Pow10(5) == 100000;
    assert Pow10(10) == 100000 * 100000;
    assert Pow10(15) == 100000 * 100000 * 100000;
    assert Pow10(20) == 100000 * 100000 * 100000 * 100000;
  }

  /** Printing then parsing a name gives the number back, for every 64-bit number. */
  lemma NameRoundTrip(first: nat)
    requires first < UINT64_LIMIT
    ensures ParseName(SegmentName(first)) == Some(first)
  {
    TwentyDigits();
    DecimalReads(first, NAME_DIGITS);
    var name := SegmentName(first);
    assert name[..NAME_DIGITS] == Decimal(first, NAME_DIGITS);
    assert name[NAME_DIGITS..] == SUFFIX;
  }

  /** A name that parses is the printed name of its number: no two names share a number. */
  lemma NameIsCanonical(name: string)
    requires ParseName(name).Some?
    ensures ParseName(name).value < UINT64_LIMIT
    ensures SegmentName(ParseName(name).value) == name
  {
    var digits := name[..|name| - |SUFFIX|];
    DecimalWrites(digits);
    assert name == digits + name[|name| - |SUFFIX|..];
  }

  /** Byte-wise order of two strings. */
  predicate StringLess(a: string, b: string) {
    b != "" && (a == "" || a[0] < b[0] || (a[0] == b[0] && StringLess(a[1..], b[1..])))
  }

  /** The texts agree up to `i`, and there `a` ends or has the smaller character. */
  predicate LessAt(a: string, b: string, i: nat) {
    i <= |a| && i < |b| && a[..i] == b[..i] && (i == |a| || a[i] < b[i])
  }

  lemma LessAtStart(a: string, b: string, i: nat)
    requires LessAt(a, b, i)
    ensures i == 0 || (a != "" && b != "" && a[0] == b[0])
  {
    if i > 0 { assert a[..i][0] == b[..i][0]; }
  }

  lemma {:induction false} LessMeans(a: string, b: string)
    ensures StringLess(a, b) <==> exists i :: LessAt(a, b, i)
  {
    if a == "" || b == "" || a[0] != b[0] {
      if StringLess(a, b) { assert LessAt(a, b, 0); }
      if i: nat :| LessAt(a, b, i) {
        LessAtStart(a, b, i);
      }
    } else {
      LessMeans(a[1..], b[1..]);
      if StringLess(a, b) {
        var i: nat :| LessAt(a[1..], b[1..], i);
        assert a[..i + 1] == [a[0]] + a[1..][..i] && b[..i + 1] == [b[0]] + b[1..][..i];
        assert LessAt(a, b, i + 1);
      }
      if i: nat :| LessAt(a, b, i) {
        assert a[1..][..i - 1] == a[..i][1..] && b[1..][..i - 1] == b[..i][1..];
        assert LessAt(a[1..], b[1..], i - 1);
      }
    }
  }

  lemma {:induction false} LessByPrefix(p: string, a: string, b: string)
    ensures StringLess(p + a, p + b) <==> StringLess(a, b)
  {
    if p == "" {
      assert p + a == a && p + b == b;
    } else {
      assert (p + a)[1..] == p[1..] + a && (p + b)[1..] == p[1..] + b;
      LessByPrefix(p[1..], a, b);
    }
  }

  lemma {:induction false} LessExtends(a: string, b: string, x: string, y: string)
    requires |a| == |b| && StringLess(a, b)
    ensures StringLess(a + x, b + y)
  {
    if a[0] == b[0] {
      LessExtends(a[1..], b[1..], x, y);
    }
    assert (a + x)[1..] == a[1..] + x && (b + y)[1..] == b[1..] + y;
  }

  lemma {:induction false} DecimalOrder(n: nat, m: nat, width: nat)
    requires n < m < Pow10(width)
    ensures StringLess(Decimal(n, width), Decimal(m, width))
  {
    if width == 0 {
    } else {
      var x := [('0' as int + n % 10) as char];
      var y := [('0' as int + m % 10) as char];
      if n / 10 == m / 10 {
        LessByPrefix(Decimal(n / 10, width - 1), x, y);
      } else {
        DecimalOrder(n / 10, m / 10, width - 1);
        LessExtends(Decimal(n / 10, width - 1), Decimal(m / 10, width - 1), x, y);
      }
    }
  }

  /** Names sort like the numbers they carry, so the oldest file comes first. */
  lemma NameOrder(n: nat, m: nat)
    requires n < m < UINT64_LIMIT
    ensures StringLess(SegmentName(n), SegmentName(m))
  {
    TwentyDigits();
    DecimalOrder(n, m, NAME_DIGITS);
    LessExtends(Decimal(n, NAME_DIGITS), Decimal(m, NAME_DIGITS), SUFFIX, SUFFIX);
  }
}
