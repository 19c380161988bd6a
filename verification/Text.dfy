/** Strings as the controller builds and takes them apart: decimal numbers,
    fixed-width fields, splitting at a separator, and instance names. */
module Text {

  datatype Option<+T> = None | Some(value: T)

  // ---------- Decimal numbers ----------

  predicate IsDigit(c: char) {
    '0' <= c <= '9'
  }

  predicate AllDigits(s: string) {
    forall i | 0 <= i < |s| :: IsDigit(s[i])
  }

  function DigitChar(d: nat): (c: char)
    requires d < 10
    ensures IsDigit(c)
  {
    '0' + d as char
  }

  /** The value of a run of digits, most significant first; the empty run is 0. */
  function Value(s: string): (n: nat)
    requires AllDigits(s)
  {
    if s == [] then 0 else 10 * Value(s[..|s| - 1]) + (s[|s| - 1] - '0') as nat
  }

  /** Decimal rendering without leading zeros. */
  function Decimal(n: nat): (s: string)
    ensures s != [] && AllDigits(s) && Value(s) == n
  {
    if n < 10 then [DigitChar(n)]
    else
      var front := Decimal(n / 10);
      assert (front + [DigitChar(n % 10)])[..|front|] == front;
      front + [DigitChar(n % 10)]
  }

  lemma DecimalInjective(m: nat, n: nat)
    requires Decimal(m) == Decimal(n)
    ensures m == n
  {
    assert Value(Decimal(m)) == Value(Decimal(n));
  }

  /** The `width` low decimal digits of `n`, zero-padded. */
  function Pad(n: nat, width: nat): (s: string)
    ensures |s| == width && AllDigits(s)
  {
    if width == 0 then [] else Pad(n / 10, width - 1) + [DigitChar(n % 10)]
  }

  function Pow10(k: nat): (p: nat)
    ensures p > 0
  {
    if k == 0 then 1 else 10 * Pow10(k - 1)
  }

  lemma {:induction false} PadValue(n: nat, width: nat)
    requires n < Pow10(width)
    ensures Value(Pad(n, width)) == n
  {
    if width == 0 {
    } else {
      PadValue(n / 10, width - 1);
      assert Pad(n, width)[..width - 1] == Pad(n / 10, width - 1);
    }
  }

  /** Unsigned 8-bit parsing as Rust's `str::parse::<u8>` does it: an optional
      plus sign, at least one digit, and no overflow. */
  function ParseU8(s: string): (r: Option<nat>)
    ensures r.Some? ==> r.value <= 255
  {
    var digits := if s != [] && s[0] == '+' then s[1..] else s;
    if digits != [] && AllDigits(digits) && Value(digits) <= 255 then Some(Value(digits)) else None
  }

  lemma ParseU8Decimal(n: nat)
    requires n <= 255
    ensures ParseU8(Decimal(n)) == Some(n)
  {
    assert IsDigit(Decimal(n)[0]);
  }

  // ---------- Byte-wise string order ----------

  predicate Less(a: string, b: string) {
    b != [] && (a == [] || a[0] < b[0] || (a[0] == b[0] && Less(a[1..], b[1..])))
  }

  /** Equal-length prefixes decide the order; only equal prefixes defer to the rest. */
  lemma {:induction false} LessByPrefix(a: string, b: string, s: string, t: string)
    requires |a| == |b|
    ensures Less(a + s, b + t) <==> Less(a, b) || (a == b && Less(s, t))
  {
    if a == [] {
      assert a + s == s && b + t == t;
    } else {
      assert (a + s)[1..] == a[1..] + s && (b + t)[1..] == b[1..] + t;
      LessByPrefix(a[1..], b[1..], s, t);
    }
  }

  /** Zero-padded fields of one width compare as the numbers they show. */
  lemma {:induction false} PadOrder(m: nat, n: nat, width: nat)
    requires m < Pow10(width) && n < Pow10(width)
    ensures Less(Pad(m, width), Pad(n, width)) <==> m < n
  {
    if width == 0 {
    } else {
      PadOrder(m / 10, n / 10, width - 1);
      LessByPrefix(Pad(m / 10, width - 1), Pad(n / 10, width - 1), [DigitChar(m % 10)], [DigitChar(n % 10)]);
      if Pad(m / 10, width - 1) == Pad(n / 10, width - 1) {
        PadValue(m / 10, width - 1);
        PadValue(n / 10, width - 1);
        assert m / 10 == n / 10;
      }
      if m / 10 == n / 10 {
        assert m % 10 < n % 10 <==> m < n;
      }
    }
  }

  lemma {:induction false} LessIrreflexive(a: string)
    ensures !Less(a, a)
  {
    if a == [] {
    } else {
      LessIrreflexive(a[1..]);
    }
  }

  lemma {:induction false} LessTransitive(a: string, b: string, c: string)
    requires Less(a, b) && Less(b, c)
    ensures Less(a, c)
  {
    if a != [] && a[0] == b[0] == c[0] {
      LessTransitive(a[1..], b[1..], c[1..]);
    }
  }

  lemma {:induction false} LessTotal(a: string, b: string)
    ensures Less(a, b) || a == b || Less(b, a)
  {
    if a != [] && b != [] && a[0] == b[0] {
      LessTotal(a[1..], b[1..]);
      assert a == [a[0]] + a[1..] && b == [b[0]] + b[1..];
    }
  }

  // ---------- Splitting ----------

  /** Splits at the first `sep`: what is before it, and what is after it if it occurs. */
  function SplitAt(s: string, sep: char): (r: (string, Option<string>))
    ensures sep !in r.0
    ensures r.1.None? ==> r.0 == s && sep !in s
    ensures r.1.Some? ==> s == r.0 + [sep] + r.1.value
  {
    if s == [] then ([], None)
    else if s[0] == sep then ([], Some(s[1..]))
    else
      var (before, after) := SplitAt(s[1..], sep);
      ([s[0]] + before, after)
  }

  /** Splitting undoes joining whenever the first part is free of the separator. */
  lemma {:induction false} SplitJoined(a: string, sep: char, b: string)
    requires sep !in a
    ensures SplitAt(a + [sep] + b, sep) == (a, Some(b))
  {
    var s := a + [sep] + b;
    if a == [] {
      assert s[1..] == b;
    } else {
      assert s[1..] == a[1..] + [sep] + b;
      SplitJoined(a[1..], sep, b);
      assert a == [a[0]] + a[1..];
    }
  }

  lemma {:induction false} SplitAbsent(a: string, sep: char)
    requires sep !in a
    ensures SplitAt(a, sep) == (a, None)
  {
    if a == [] {
    } else {
      SplitAbsent(a[1..], sep);
      assert a == [a[0]] + a[1..];
    }
  }

  predicate OccursAt(s: string, part: string, i: nat) {
    i + |part| <= |s| && s[i..i + |part|] == part
  }

  predicate Contains(s: string, part: string) {
    exists i | 0 <= i <= |s| :: OccursAt(s, part, i)
  }

  // ---------- Instance names ----------

  predicate NameChar(c: char) {
    'a' <= c <= 'z' || IsDigit(c) || c == '_' || c == '-'
  }

  /** Lowercase first letter, then letters, digits, `_` or `-`; 1 to 63 characters. */
  predicate ValidName(s: string) {
    1 <= |s| <= 63 && 'a' <= s[0] <= 'z' && forall i | 0 <= i < |s| :: NameChar(s[i])
  }
}
