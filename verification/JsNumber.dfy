/** Numbers in the approval queue, written as JavaScript writes them: section 6.1.6.1.20 of ECMA-262,
    Number::toString, from the shortest digits that name the double. */
module JsNumber {
  import opened Wrappers

  // A double by its shortest decimal: digits times ten to the exponent, the digits normalised.
  datatype Double = NotANumber | Infinite(negative: bool) | Zero(negative: bool)
    | Finite(negative: bool, digits: seq<nat>, exponent: int)

  /** Digits with no zero at either end. */
  predicate Normalised(digits: seq<nat>) {
    && digits != [] && digits[0] != 0 && digits[|digits| - 1] != 0
    && AreDigits(digits)
  }

  predicate AreDigits(digits: seq<nat>) {
    forall i | 0 <= i < |digits| :: digits[i] < 10
  }

  predicate IsDouble(value: Double) {
    value.Finite? ==> Normalised(value.digits)
  }

  function Zeros(count: nat): seq<nat> {
    seq(count, i => 0)
  }

  function DigitChar(digit: nat): char {
    if digit < 10 then "0123456789"[digit] else '?'
  }

  function Text(digits: seq<nat>): string {
    seq(|digits|, i requires 0 <= i < |digits| => DigitChar(digits[i]))
  }

  function Decimal(n: nat): (digits: seq<nat>)
    ensures digits != [] && AreDigits(digits)
  {
    if n < 10 then [n] else Decimal(n / 10) + [n % 10]
  }

  function Abs(n: int): nat {
    if n < 0 then -n else n
  }

  /** How the digits are laid out around the point. */
  function Layout(digits: seq<nat>, exponent: int): string
    requires digits != []
  {
    var count, point := |digits|, exponent + |digits|;
    if count <= point <= 21 then
      Text(digits + Zeros(point - count))
    else if 0 < point <= 21 then
      Text(digits[..point]) + "." + Text(digits[point..])
    else if -6 < point <= 0 then
      "0." + Text(Zeros(-point) + digits)
    else
      (if count == 1 then Text(digits) else Text(digits[..1]) + "." + Text(digits[1..]))
      + "e" + (if point > 0 then "+" else "-") + Text(Decimal(Abs(point - 1)))
  }

  function Shown(value: Double): string
    requires IsDouble(value)
  {
    match value
    case NotANumber => "NaN"
    case Infinite(negative) => if negative then "-Infinity" else "Infinity"
    case Zero(_) => "0"
    case Finite(negative, digits, exponent) => (if negative then "-" else "") + Layout(digits, exponent)
  }

  // ---- Reading a number back -----------------------------------------------------------------------------

  function PowerOfTen(exponent: int): real
    decreases Abs(exponent)
  {
    if exponent == 0 then 1.0
    else if exponent > 0 then 10.0 * PowerOfTen(exponent - 1)
    else PowerOfTen(exponent + 1) / 10.0
  }

  function Number(digits: seq<nat>): nat {
    if digits == [] then 0 else 10 * Number(digits[..|digits| - 1]) + digits[|digits| - 1]
  }

  /** Digits times ten to the exponent. */
  function Scaled(digits: seq<nat>, exponent: int): real {
    Number(digits) as real * PowerOfTen(exponent)
  }

  function DigitOf(c: char): Option<nat> {
    if '0' <= c <= '9' then Some((c - '0') as nat) else None
  }

  function Digits(text: string): Option<seq<nat>> {
    if text == "" then Some([])
    else
      var rest, last := Digits(text[..|text| - 1]), DigitOf(text[|text| - 1]);
      if rest.Some? && last.Some? then Some(rest.value + [last.value]) else None
  }

  /** The text before the first mark, and what follows it. */
  function Cut(text: string, mark: char): (string, Option<string>) {
    if text == "" then ("", None)
    else if text[0] == mark then ("", Some(text[1..]))
    else
      var (before, after) := Cut(text[1..], mark);
      ([text[0]] + before, after)
  }

  function ReadExponent(text: Option<string>): Option<int> {
    if text.None? then Some(0)
    else if text.value == "" || text.value[0] !in "+-" then None
    else
      var digits := Digits(text.value[1..]);
      if digits.None? || digits.value == [] then None
      else
        var size: int := Number(digits.value);
        Some(if text.value[0] == '+' then size else -size)
  }

  /** A decimal literal without a sign: digits, perhaps a point and more digits, perhaps an exponent. */
  function ReadUnsigned(text: string): Option<real> {
    var (mantissa, scale) := Cut(text, 'e');
    var (whole, fraction) := Cut(mantissa, '.');
    var w, f := Digits(whole), Digits(if fraction.Some? then fraction.value else "");
    var e := ReadExponent(scale);
    if w.None? || f.None? || e.None? || w.value == [] then None
    else Some(Scaled(w.value + f.value, e.value - |f.value|))
  }

  datatype Meaning = Nothing | Unbounded(negative: bool) | Value(value: real) | Unreadable

  function Read(text: string): Meaning {
    if text == "NaN" then Nothing
    else if text == "Infinity" then Unbounded(false)
    else if text == "-Infinity" then Unbounded(true)
    else
      var negative := text != "" && text[0] == '-';
      var value := ReadUnsigned(if negative then text[1..] else text);
      if value.None? then Unreadable else Value(if negative then -value.value else value.value)
  }

  function MeaningOf(value: Double): Meaning {
    match value
    case NotANumber => Nothing
    case Infinite(negative) => Unbounded(negative)
    case Zero(_) => Value(0.0)
    case Finite(negative, digits, exponent) =>
      var size := Scaled(digits, exponent);
      Value(if negative then -size else size)
  }

  // ---- Text and digits ------------------------------------------------------------------------------------

  lemma {:induction false} DigitsOfText(digits: seq<nat>)
    requires AreDigits(digits)
    ensures Digits(Text(digits)) == Some(digits)
    ensures forall c | c in Text(digits) :: '0' <= c <= '9'
  {
    if digits == [] {
    } else {
      var rest := digits[..|digits| - 1];
      DigitsOfText(rest);
      assert Text(digits) == Text(rest) + [DigitChar(digits[|digits| - 1])];
      assert digits == rest + [digits[|digits| - 1]];
    }
  }

  lemma {:induction false} CutAt(before: string, mark: char, after: string)
    requires mark !in before
    ensures Cut(before, mark) == (before, None)
    ensures Cut(before + [mark] + after, mark) == (before, Some(after))
  {
    if before == "" {
    } else {
      CutAt(before[1..], mark, after);
      var text := before + [mark] + after;
      assert text[1..] == before[1..] + [mark] + after;
      assert before == [before[0]] + before[1..];
    }
  }

  lemma {:induction false} NumberOfDecimal(n: nat)
    ensures Number(Decimal(n)) == n
  {
    if n < 10 {
    } else {
      NumberOfDecimal(n / 10);
      assert Decimal(n)[..|Decimal(n)| - 1] == Decimal(n / 10);
    }
  }

  lemma {:induction false} LeadingZeros(zeros: nat, digits: seq<nat>)
    ensures Number(Zeros(zeros) + digits) == Number(digits)
  {
    var all := Zeros(zeros) + digits;
    if digits != [] {
      LeadingZeros(zeros, digits[..|digits| - 1]);
      assert all[..|all| - 1] == Zeros(zeros) + digits[..|digits| - 1];
    } else if zeros > 0 {
      LeadingZeros(zeros - 1, []);
      assert all[..|all| - 1] == Zeros(zeros - 1) + [];
    }
  }

  lemma {:induction false} PowersArePositive(exponent: int)
    ensures PowerOfTen(exponent) > 0.0
    ensures PowerOfTen(exponent + 1) == 10.0 * PowerOfTen(exponent)
    decreases Abs(exponent)
  {
    if exponent > 0 {
      PowersArePositive(exponent - 1);
    } else if exponent < 0 {
      PowersArePositive(exponent + 1);
    }
  }

  lemma ShiftLast(digits: seq<nat>, exponent: int)
    ensures Scaled(digits + [0], exponent) == Scaled(digits, exponent + 1)
  {
  }

  /** A zero may be moved between the end of the digits and the exponent. */
  lemma {:induction false} ShiftZeros(digits: seq<nat>, zeros: nat, exponent: int)
    ensures Scaled(digits + Zeros(zeros), exponent) == Scaled(digits, exponent + zeros)
    decreases zeros
  {
    hide Scaled;
    if zeros == 0 {
      assert digits + Zeros(0) == digits;
    } else {
      ShiftZeros(digits, zeros - 1, exponent + 1);
      ShiftLast(digits + Zeros(zeros - 1), exponent);
      assert digits + Zeros(zeros) == digits + Zeros(zeros - 1) + [0];
    }
  }

  lemma ShiftOne(number: real, power: real)
    ensures (10.0 * number) * power == number * (10.0 * power)
  {
  }

  // ---- The round trip -------------------------------------------------------------------------------------

  function Mantissa(whole: seq<nat>, fraction: seq<nat>): string {
    Text(whole) + (if fraction == [] then "" else "." + Text(fraction))
  }

  function ExponentText(scale: int): string {
    (if scale >= 0 then "+" else "-") + Text(Decimal(Abs(scale)))
  }

  lemma MantissaReads(whole: seq<nat>, fraction: seq<nat>)
    requires whole != [] && AreDigits(whole) && AreDigits(fraction)
    ensures Cut(Mantissa(whole, fraction), '.') == (Text(whole), if fraction == [] then None else Some(Text(fraction)))
    ensures Digits(Text(whole)) == Some(whole) && Digits(Text(fraction)) == Some(fraction) && Digits("") == Some([])
    ensures 'e' !in Mantissa(whole, fraction) && Mantissa(whole, fraction) != ""
    ensures '0' <= Mantissa(whole, fraction)[0] <= '9'
  {
    hide Cut, Digits, DigitChar;
    DigitsOfText([]);
    assert Text([]) == "";
    DigitsOfText(whole);
    DigitsOfText(fraction);
    CutAt(Text(whole), '.', Text(fraction));
    assert Mantissa(whole, []) == Text(whole);
    assert Mantissa(whole, fraction)[0] == Text(whole)[0] && Text(whole)[0] in Text(whole);
    if fraction != [] {
      assert Mantissa(whole, fraction) == Text(whole) + "." + Text(fraction);
    }
  }

  lemma ExponentReads(scale: int)
    ensures ReadExponent(Some(ExponentText(scale))) == Some(scale)
  {
    hide Digits, Number, Decimal, DigitChar, AreDigits;
    DigitsOfText(Decimal(Abs(scale)));
    NumberOfDecimal(Abs(scale));
    assert ExponentText(scale)[1..] == Text(Decimal(Abs(scale)));
    assert ExponentText(scale)[0] == if scale >= 0 then '+' else '-';
  }

  /** A mantissa without an exponent reads as its digits shifted past its fraction. */
  lemma Reads(whole: seq<nat>, fraction: seq<nat>)
    requires whole != [] && AreDigits(whole) && AreDigits(fraction)
    ensures ReadUnsigned(Mantissa(whole, fraction)) == Some(Scaled(whole + fraction, -|fraction|))
  {
    hide *;
    MantissaReads(whole, fraction);
    CutAt(Mantissa(whole, fraction), 'e', "");
    NoExponent();
    ReadsParts(Mantissa(whole, fraction), whole, fraction, None, 0);
  }

  /** And with one, shifted by it as well. */
  lemma ReadsScaled(whole: seq<nat>, fraction: seq<nat>, scale: int)
    requires whole != [] && AreDigits(whole) && AreDigits(fraction)
    ensures ReadUnsigned(Mantissa(whole, fraction) + "e" + ExponentText(scale)) == Some(Scaled(whole + fraction, scale - |fraction|))
  {
    hide *;
    MantissaReads(whole, fraction);
    CutAt(Mantissa(whole, fraction), 'e', ExponentText(scale));
    ExponentReads(scale);
    ReadsParts(Mantissa(whole, fraction) + "e" + ExponentText(scale), whole, fraction, Some(ExponentText(scale)), scale);
  }

  lemma NoExponent()
    ensures ReadExponent(None) == Some(0)
  {
  }

  lemma ReadsParts(text: string, whole: seq<nat>, fraction: seq<nat>, tail: Option<string>, scale: int)
    requires whole != [] && Cut(text, 'e') == (Mantissa(whole, fraction), tail)
    requires Cut(Mantissa(whole, fraction), '.') == (Text(whole), if fraction == [] then None else Some(Text(fraction)))
    requires Digits(Text(whole)) == Some(whole) && Digits(Text(fraction)) == Some(fraction) && Digits("") == Some([])
    requires ReadExponent(tail) == Some(scale)
    ensures ReadUnsigned(text) == Some(Scaled(whole + fraction, scale - |fraction|))
  {
  }

  /** Text that reads as the digits times ten to the exponent, and that does or does not write an exponent. */
  predicate Spells(text: string, digits: seq<nat>, exponent: int, scaled: bool) {
    && ReadUnsigned(text) == Some(Scaled(digits, exponent))
    && text != "" && '0' <= text[0] <= '9'
    && ('e' in text <==> scaled)
  }

  lemma MantissaSpells(whole: seq<nat>, fraction: seq<nat>)
    requires whole != [] && AreDigits(whole) && AreDigits(fraction)
    ensures Spells(Mantissa(whole, fraction), whole + fraction, -|fraction|, false)
  {
    hide Mantissa, ReadUnsigned, Scaled, Cut, Digits, Text, Number, PowerOfTen;
    Reads(whole, fraction);
    MantissaReads(whole, fraction);
  }

  lemma ScaledSpells(whole: seq<nat>, fraction: seq<nat>, scale: int)
    requires whole != [] && AreDigits(whole) && AreDigits(fraction)
    ensures Spells(Mantissa(whole, fraction) + "e" + ExponentText(scale), whole + fraction, scale - |fraction|, true)
  {
    hide Mantissa, ReadUnsigned, Scaled, Cut, Digits, Text, Number, PowerOfTen, ExponentText;
    ReadsScaled(whole, fraction, scale);
    MantissaReads(whole, fraction);
  }

  lemma LayoutOfWhole(digits: seq<nat>, exponent: int)
    requires Normalised(digits) && |digits| <= exponent + |digits| <= 21
    ensures Spells(Layout(digits, exponent), digits, exponent, false)
  {
    hide ReadUnsigned, Scaled, Number, PowerOfTen;
    MantissaSpells(digits + Zeros(exponent), []);
    ShiftZeros(digits, exponent, 0);
    assert digits + Zeros(exponent) + [] == digits + Zeros(exponent);
    assert Layout(digits, exponent) == Mantissa(digits + Zeros(exponent), []);
  }

  lemma LayoutWithPoint(digits: seq<nat>, exponent: int)
    requires Normalised(digits) && 0 < exponent + |digits| < |digits| && exponent + |digits| <= 21
    ensures Spells(Layout(digits, exponent), digits, exponent, false)
  {
    hide ReadUnsigned, Scaled, Number, PowerOfTen, Text;
    var point := exponent + |digits|;
    MantissaSpells(digits[..point], digits[point..]);
    assert digits[..point] + digits[point..] == digits;
    assert Layout(digits, exponent) == Mantissa(digits[..point], digits[point..]);
  }

  lemma SmallText(digits: seq<nat>, exponent: int)
    requires Normalised(digits) && -6 < exponent + |digits| <= 0
    ensures Layout(digits, exponent) == Mantissa([0], Zeros(-(exponent + |digits|)) + digits)
  {
  }

  lemma LayoutOfSmall(digits: seq<nat>, exponent: int)
    requires Normalised(digits) && -6 < exponent + |digits| <= 0
    ensures Spells(Layout(digits, exponent), digits, exponent, false)
  {
    hide Layout, ReadUnsigned, PowerOfTen, Number, Mantissa;
    var point := exponent + |digits|;
    var fraction := Zeros(-point) + digits;
    MantissaSpells([0], fraction);
    assert [0] + fraction == Zeros(1 - point) + digits && -|fraction| == exponent;
    LeadingZeros(1 - point, digits);
    assert Scaled([0] + fraction, -|fraction|) == Scaled(digits, exponent);
    SmallText(digits, exponent);
  }

  lemma NormalisedDigits(digits: seq<nat>)
    requires Normalised(digits)
    ensures digits != [] && AreDigits(digits[..1]) && AreDigits(digits[1..])
  {
  }

  lemma ExponentLayout(digits: seq<nat>, exponent: int)
    requires digits != [] && !(-6 < exponent + |digits| <= 21)
    ensures Layout(digits, exponent) == Mantissa(digits[..1], digits[1..]) + "e" + ExponentText(exponent + |digits| - 1)
  {
  }

  lemma Grouped(a: string, b: string, c: string)
    ensures a + b + c == a + (b + c)
  {
  }

  lemma LayoutWithExponent(digits: seq<nat>, exponent: int)
    requires Normalised(digits) && !(-6 < exponent + |digits| <= 21)
    ensures Spells(Layout(digits, exponent), digits, exponent, true)
  {
    hide *;
    var point := exponent + |digits|;
    NormalisedDigits(digits);
    ScaledSpells(digits[..1], digits[1..], point - 1);
    assert digits[..1] + digits[1..] == digits;
    ExponentLayout(digits, exponent);
  }

  /** The layout reads back as digits times ten to the exponent, and an exponent is written exactly when the
      first digit is past the twenty-first place before the point or the sixth after it. */
  lemma LayoutReadsBack(digits: seq<nat>, exponent: int)
    requires Normalised(digits)
    ensures Spells(Layout(digits, exponent), digits, exponent, !(-6 < exponent + |digits| <= 21))
  {
    hide Spells, Layout;
    var point := exponent + |digits|;
    if |digits| <= point <= 21 {
      LayoutOfWhole(digits, exponent);
    } else if 0 < point <= 21 {
      LayoutWithPoint(digits, exponent);
    } else if -6 < point <= 0 {
      LayoutOfSmall(digits, exponent);
    } else {
      LayoutWithExponent(digits, exponent);
    }
  }

  lemma ZeroReads()
    ensures ReadUnsigned("0") == Some(0.0)
  {
    Reads([0], []);
    assert Mantissa([0], []) == "0";
    assert [0] + [] == [0];
    assert Number([0]) == 0;
  }

  /** Every double reads back as itself, zeros of either sign as zero. */
  lemma ReadsBack(value: Double)
    requires IsDouble(value)
    ensures Read(Shown(value)) == MeaningOf(value)
  {
    hide Layout, ReadUnsigned, Scaled;
    match value
    case NotANumber =>
    case Infinite(_) =>
    case Zero(_) =>
      ZeroReads();
    case Finite(negative, digits, exponent) =>
      var text := Layout(digits, exponent);
      LayoutReadsBack(digits, exponent);
      if negative {
        assert Shown(value) == "-" + text;
        assert ("-" + text)[1..] == text && ("-" + text)[1] == text[0];
        assert "-Infinity"[1] == 'I';
      } else {
        assert Shown(value) == text;
      }
  }

  // ---- Distinct numbers print differently -----------------------------------------------------------------

  lemma {:induction false} NumberIsPositive(digits: seq<nat>)
    requires digits != [] && digits[0] != 0
    ensures Number(digits) > 0
  {
    if |digits| == 1 {
    } else {
      NumberIsPositive(digits[..|digits| - 1]);
    }
  }

  /** Digits without leading zeros are given by the number they spell. */
  lemma {:induction false} DigitsOfNumber(a: seq<nat>, b: seq<nat>)
    requires AreDigits(a) && AreDigits(b) && Number(a) == Number(b)
    requires (a != [] ==> a[0] != 0) && (b != [] ==> b[0] != 0)
    ensures a == b
    decreases |a|
  {
    if a == [] && b != [] {
      NumberIsPositive(b);
    } else if b == [] && a != [] {
      NumberIsPositive(a);
    } else if a != [] {
      DigitsOfNumber(a[..|a| - 1], b[..|b| - 1]);
      assert a == a[..|a| - 1] + [a[|a| - 1]] && b == b[..|b| - 1] + [b[|b| - 1]];
    }
  }

  lemma Monotone(x: real, y: real, factor: real)
    requires x < y && factor > 0.0
    ensures x * factor < y * factor
  {
  }

  /** Normalised digits and their exponent are given by the value they spell. */
  lemma SameValueSameDigits(a: seq<nat>, m: int, b: seq<nat>, n: int)
    requires Normalised(a) && Normalised(b) && Scaled(a, m) == Scaled(b, n)
    ensures a == b && m == n
    decreases m < n
  {
    hide Scaled;
    if m < n {
      SameValueSameDigits(b, n, a, m);
    } else {
      var all := a + Zeros(m - n);
      assert m > n ==> all[|all| - 1] == 0;
      ShiftZeros(a, m - n, n);
      SameScaled(all, b, n);
      DigitsOfNumber(all, b);
      assert m == n ==> all == a;
    }
  }

  lemma SameScaled(a: seq<nat>, b: seq<nat>, exponent: int)
    requires Scaled(a, exponent) == Scaled(b, exponent)
    ensures Number(a) == Number(b)
  {
    hide Number, PowerOfTen;
    PowersArePositive(exponent);
    if Number(a) < Number(b) {
      Monotone(Number(a) as real, Number(b) as real, PowerOfTen(exponent));
    } else if Number(b) < Number(a) {
      Monotone(Number(b) as real, Number(a) as real, PowerOfTen(exponent));
    }
  }

  lemma SizesArePositive(digits: seq<nat>, exponent: int)
    requires Normalised(digits)
    ensures Scaled(digits, exponent) > 0.0
  {
    NumberIsPositive(digits);
    PowersArePositive(exponent);
  }

  /** Only the two zeros print alike. */
  lemma DistinctPrintDifferently(a: Double, b: Double)
    requires IsDouble(a) && IsDouble(b) && Shown(a) == Shown(b)
    ensures a == b || (a.Zero? && b.Zero?)
  {
    hide Shown, Read, Scaled;
    ReadsBack(a);
    ReadsBack(b);
    if a.Finite? {
      SizesArePositive(a.digits, a.exponent);
    }
    if b.Finite? {
      SizesArePositive(b.digits, b.exponent);
    }
    if a.Finite? && b.Finite? {
      SameValueSameDigits(a.digits, a.exponent, b.digits, b.exponent);
    }
  }

  /** No exponent from 1e-6 up to 1e21, and one everywhere else. */
  lemma ExponentExactlyOutside(digits: seq<nat>, exponent: int)
    requires Normalised(digits)
    ensures 'e' in Layout(digits, exponent) <==> !(PowerOfTen(-6) <= Scaled(digits, exponent) < PowerOfTen(21))
  {
    hide Layout, ReadUnsigned, Scaled, PowerOfTen, Normalised;
    LayoutReadsBack(digits, exponent);
    Magnitude(digits, exponent);
    var point := exponent + |digits|;
    if point <= -6 {
      PowersGrow(point, -6);
    } else {
      PowersGrow(-6, point - 1);
    }
    if point <= 21 {
      PowersGrow(point, 21);
    } else {
      PowersGrow(21, point - 1);
    }
  }

  lemma {:induction false} PowersGrow(a: int, b: int)
    requires a <= b
    ensures PowerOfTen(a) <= PowerOfTen(b)
    decreases b - a
  {
    if a == b {
    } else {
      PowersGrow(a, b - 1);
      PowersArePositive(b - 1);
    }
  }

  lemma {:induction false} NumberBounds(digits: seq<nat>)
    requires AreDigits(digits)
    ensures Number(digits) as real + 1.0 <= PowerOfTen(|digits|)
    ensures digits != [] && digits[0] != 0 ==> PowerOfTen(|digits| - 1) <= Number(digits) as real
  {
    if digits == [] {
    } else {
      NumberBounds(digits[..|digits| - 1]);
      PowersArePositive(|digits| - 1);
      PowersArePositive(|digits| - 2);
    }
  }

  lemma {:induction false} PowersAdd(a: nat, b: int)
    ensures PowerOfTen(a) * PowerOfTen(b) == PowerOfTen(a + b)
    decreases a
  {
    if a == 0 {
    } else {
      PowersAdd(a - 1, b);
      PowersArePositive(a - 1 + b);
      ShiftOne(PowerOfTen(a - 1), PowerOfTen(b));
    }
  }

  lemma Magnitude(digits: seq<nat>, exponent: int)
    requires Normalised(digits)
    ensures PowerOfTen(exponent + |digits| - 1) <= Scaled(digits, exponent) < PowerOfTen(exponent + |digits|)
  {
    hide Number, PowerOfTen;
    var low, x, high, factor := PowerOfTen(|digits| - 1), Number(digits) as real, PowerOfTen(|digits|), PowerOfTen(exponent);
    NumberBounds(digits);
    PowersArePositive(exponent);
    if low < x {
      Monotone(low, x, factor);
    }
    Monotone(x, high, factor);
    PowersAdd(|digits| - 1, exponent);
    PowersAdd(|digits|, exponent);
    assert |digits| - 1 + exponent == exponent + |digits| - 1 && |digits| + exponent == exponent + |digits|;
  }

  // ---- The only text ----------------------------------------------------------------------------------------

  predicate AllDigits(text: string) {
    forall c | c in text :: '0' <= c <= '9'
  }

  /** No character that could be left out: a point only before a fraction, which does not end in a zero; a leading zero
      only as "0."; with an exponent one digit before the point, not a zero, and a sign and no leading zero in it. */
  predicate Canonical(text: string) {
    var (mantissa, scale) := Cut(text, 'e');
    var (whole, fraction) := Cut(mantissa, '.');
    && whole != "" && AllDigits(whole)
    && (fraction.Some? ==>
          fraction.value != "" && AllDigits(fraction.value) && fraction.value[|fraction.value| - 1] != '0')
    && (whole[0] == '0' ==> whole == "0" && fraction.Some?)
    && (scale.Some? ==> |whole| == 1 && whole[0] != '0' && CanonicalScale(scale.value))
  }

  predicate CanonicalScale(text: string) {
    |text| >= 2 && text[0] in "+-" && AllDigits(text[1..]) && text[1] != '0'
  }

  predicate InPlainRange(value: real) {
    PowerOfTen(-6) <= value < PowerOfTen(21)
  }

  /** As JavaScript writes a number that is not zero and has a value, without its sign. */
  predicate WrittenPlainly(text: string) {
    && Canonical(text) && ReadUnsigned(text).Some?
    && ('e' in text <==> !InPlainRange(ReadUnsigned(text).value))
  }

  predicate WrittenAsNumber(text: string) {
    || text in ["NaN", "Infinity", "-Infinity", "0"]
    || WrittenPlainly(if text != "" && text[0] == '-' then text[1..] else text)
  }

  /** The parts of a canonical text. */
  datatype Parts = Parts(whole: seq<nat>, fraction: seq<nat>, scale: Option<int>)

  predicate AreParts(parts: Parts) {
    && parts.whole != [] && AreDigits(parts.whole) && AreDigits(parts.fraction)
    && (parts.fraction != [] ==> parts.fraction[|parts.fraction| - 1] != 0)
    && (parts.whole[0] == 0 ==> parts.whole == [0] && parts.fraction != [])
    && (parts.scale.Some? ==> |parts.whole| == 1 && parts.whole[0] != 0 && parts.scale.value != 0)
  }

  function Spelled(parts: Parts): string {
    Mantissa(parts.whole, parts.fraction) + if parts.scale.None? then "" else "e" + ExponentText(parts.scale.value)
  }

  lemma DigitsAre(text: string) returns (digits: seq<nat>)
    requires AllDigits(text)
    ensures AreDigits(digits) && Text(digits) == text && |digits| == |text| && Digits(text) == Some(digits)
    ensures forall i | 0 <= i < |text| :: digits[i] == 0 <==> text[i] == '0'
  {
    digits := seq(|text|, i requires 0 <= i < |text| => if '0' <= text[i] <= '9' then (text[i] - '0') as nat else 0);
    forall i | 0 <= i < |text| ensures digits[i] < 10 && DigitChar(digits[i]) == text[i] {
      assert text[i] in text;
    }
    assert Text(digits) == text;
    DigitsOfText(digits);
  }

  lemma {:induction false} CutRejoins(text: string, mark: char)
    ensures
      var (before, after) := Cut(text, mark);
      mark !in before && text == before + if after.None? then "" else [mark] + after.value
  {
    if text == "" || text[0] == mark {
    } else {
      CutRejoins(text[1..], mark);
      assert text == [text[0]] + text[1..];
    }
  }

  lemma {:induction false} DecimalLeads(n: nat)
    requires n > 0
    ensures Decimal(n)[0] != 0
  {
    if n < 10 {
    } else {
      DecimalLeads(n / 10);
    }
  }

  lemma ScaleIs(text: string) returns (scale: int)
    requires CanonicalScale(text)
    ensures scale != 0 && text == ExponentText(scale)
  {
    hide Digits, DigitChar, Decimal;
    var digits := DigitsAre(text[1..]);
    hide Text;
    var n := Number(digits);
    NumberIsPositive(digits);
    NumberOfDecimal(n);
    DecimalLeads(n);
    DigitsOfNumber(Decimal(n), digits);
    var size: int := n;
    scale := if text[0] == '+' then size else -size;
    assert text == [text[0]] + text[1..];
  }

  lemma CanonicalParts(text: string) returns (parts: Parts)
    requires Canonical(text)
    ensures AreParts(parts) && text == Spelled(parts)
  {
    hide Cut, Digits, CanonicalScale, ExponentText;
    var (mantissa, scale) := Cut(text, 'e');
    var (before, after) := Cut(mantissa, '.');
    CutRejoins(text, 'e');
    CutRejoins(mantissa, '.');
    var whole := DigitsAre(before);
    var fraction: seq<nat> := [];
    if after.Some? {
      fraction := DigitsAre(after.value);
    }
    hide Text;
    parts := Parts(whole, fraction, None);
    if scale.Some? {
      var size := ScaleIs(scale.value);
      parts := Parts(whole, fraction, Some(size));
    }
    WholeIsZero(before, whole);
    assert mantissa == Mantissa(whole, fraction);
    assert text == mantissa + if scale.None? then "" else "e" + scale.value;
  }

  lemma WholeIsZero(text: string, digits: seq<nat>)
    requires |digits| == |text| && forall i | 0 <= i < |text| :: digits[i] == 0 <==> text[i] == '0'
    ensures text == "0" ==> digits == [0]
  {
  }

  lemma SpelledReads(parts: Parts)
    requires AreParts(parts)
    ensures
      var scale := if parts.scale.None? then 0 else parts.scale.value;
      ReadUnsigned(Spelled(parts)) == Some(Scaled(parts.whole + parts.fraction, scale - |parts.fraction|))
    ensures 'e' in Spelled(parts) <==> parts.scale.Some?
  {
    hide ReadUnsigned, Scaled, Mantissa, ExponentText;
    MantissaReads(parts.whole, parts.fraction);
    if parts.scale.None? {
      Reads(parts.whole, parts.fraction);
      assert Spelled(parts) == Mantissa(parts.whole, parts.fraction);
    } else {
      ReadsScaled(parts.whole, parts.fraction, parts.scale.value);
      Grouped(Mantissa(parts.whole, parts.fraction), "e", ExponentText(parts.scale.value));
    }
  }

  /** Digits that end in zeros, without them. */
  lemma {:induction false} WithoutEndZeros(digits: seq<nat>) returns (kept: seq<nat>, zeros: nat)
    requires digits != [] && digits[0] != 0 && AreDigits(digits)
    ensures Normalised(kept) && digits == kept + Zeros(zeros)
  {
    var rest, last := digits[..|digits| - 1], digits[|digits| - 1];
    if last != 0 {
      kept, zeros := digits, 0;
    } else {
      kept, zeros := WithoutEndZeros(rest);
      assert digits == rest + [last];
      zeros := zeros + 1;
    }
  }

  /** Digits that begin with zeros, without them. */
  lemma {:induction false} WithoutFirstZeros(digits: seq<nat>) returns (zeros: nat, kept: seq<nat>)
    requires digits != [] && digits[|digits| - 1] != 0 && AreDigits(digits)
    ensures Normalised(kept) && digits == Zeros(zeros) + kept
  {
    if digits[0] != 0 {
      zeros, kept := 0, digits;
    } else {
      zeros, kept := WithoutFirstZeros(digits[1..]);
      assert digits == [digits[0]] + digits[1..];
      zeros := zeros + 1;
    }
  }

  /** Parts that read as a number in the plain range, and have no exponent, are its layout. */
  lemma OnlyPlain(digits: seq<nat>, exponent: int, whole: seq<nat>, fraction: seq<nat>)
    requires Normalised(digits) && -6 < exponent + |digits| <= 21 && AreParts(Parts(whole, fraction, None))
    requires Scaled(whole + fraction, -|fraction|) == Scaled(digits, exponent)
    ensures Mantissa(whole, fraction) == Layout(digits, exponent)
  {
    hide Scaled, Text, Number, PowerOfTen;
    if fraction == [] {
      var kept, zeros := WithoutEndZeros(whole);
      assert whole + fraction == whole;
      ShiftZeros(kept, zeros, 0);
      SameValueSameDigits(kept, zeros, digits, exponent);
    } else if whole[0] != 0 {
      assert Normalised(whole + fraction);
      SameValueSameDigits(whole + fraction, -|fraction|, digits, exponent);
      assert digits[..|whole|] == whole && digits[|whole|..] == fraction;
    } else {
      OnlySmall(digits, exponent, fraction);
    }
  }

  lemma OnlySmall(digits: seq<nat>, exponent: int, fraction: seq<nat>)
    requires Normalised(digits) && -6 < exponent + |digits| <= 21 && AreDigits(fraction)
    requires fraction != [] && fraction[|fraction| - 1] != 0
    requires Scaled([0] + fraction, -|fraction|) == Scaled(digits, exponent)
    ensures Mantissa([0], fraction) == Layout(digits, exponent)
  {
    hide Text, Number, PowerOfTen, Mantissa, Layout;
    var zeros, kept := WithoutFirstZeros(fraction);
    assert [0] + fraction == Zeros(zeros + 1) + kept;
    LeadingZeros(zeros + 1, kept);
    SameValueSameDigits(kept, -|fraction|, digits, exponent);
    SmallText(digits, exponent);
  }

  lemma OnlyScaled(digits: seq<nat>, exponent: int, whole: seq<nat>, fraction: seq<nat>, scale: int)
    requires Normalised(digits) && !(-6 < exponent + |digits| <= 21) && AreParts(Parts(whole, fraction, Some(scale)))
    requires Scaled(whole + fraction, scale - |fraction|) == Scaled(digits, exponent)
    ensures Mantissa(whole, fraction) + "e" + ExponentText(scale) == Layout(digits, exponent)
  {
    hide Scaled, Text, Number, PowerOfTen, Mantissa, Layout, ExponentText;
    assert Normalised(whole + fraction);
    SameValueSameDigits(whole + fraction, scale - |fraction|, digits, exponent);
    assert digits[..1] == whole && digits[1..] == fraction;
    ExponentLayout(digits, exponent);
  }

  /** A canonical text that reads as the number, with an exponent exactly outside the plain range, is its layout. */
  lemma OnlyLayout(digits: seq<nat>, exponent: int, text: string)
    requires Normalised(digits) && WrittenPlainly(text) && ReadUnsigned(text) == Some(Scaled(digits, exponent))
    ensures text == Layout(digits, exponent)
  {
    hide ReadUnsigned, Scaled, Layout, Canonical, Mantissa, ExponentText, PowerOfTen, Normalised, AreParts;
    var parts := CanonicalParts(text);
    SpelledReads(parts);
    LayoutReadsBack(digits, exponent);
    ExponentExactlyOutside(digits, exponent);
    if parts.scale.None? {
      NoScale(parts);
      OnlyPlain(digits, exponent, parts.whole, parts.fraction);
      assert Mantissa(parts.whole, parts.fraction) + "" == Mantissa(parts.whole, parts.fraction);
    } else {
      OnlyScaled(digits, exponent, parts.whole, parts.fraction, parts.scale.value);
      Grouped(Mantissa(parts.whole, parts.fraction), "e", ExponentText(parts.scale.value));
    }
  }

  lemma NoScale(parts: Parts)
    requires AreParts(parts) && parts.scale.None?
    ensures parts == Parts(parts.whole, parts.fraction, None)
  {
  }

  // ---- The layout is such a text --------------------------------------------------------------------------------

  lemma WholeParts(digits: seq<nat>, exponent: int)
    requires Normalised(digits) && |digits| <= exponent + |digits| <= 21
    ensures
      var parts := Parts(digits + Zeros(exponent), [], None);
      AreParts(parts) && Spelled(parts) == Layout(digits, exponent)
  {
    hide Text;
    assert Layout(digits, exponent) == Mantissa(digits + Zeros(exponent), []) + "";
  }

  lemma PointParts(digits: seq<nat>, exponent: int)
    requires Normalised(digits) && 0 < exponent + |digits| < |digits| && exponent + |digits| <= 21
    ensures
      var parts := Parts(digits[..exponent + |digits|], digits[exponent + |digits|..], None);
      AreParts(parts) && Spelled(parts) == Layout(digits, exponent)
  {
    hide Text;
    var point := exponent + |digits|;
    assert Layout(digits, exponent) == Mantissa(digits[..point], digits[point..]) + "";
  }

  lemma SmallParts(digits: seq<nat>, exponent: int)
    requires Normalised(digits) && -6 < exponent + |digits| <= 0
    ensures
      var parts := Parts([0], Zeros(-(exponent + |digits|)) + digits, None);
      AreParts(parts) && Spelled(parts) == Layout(digits, exponent)
  {
    hide Layout, Mantissa;
    SmallText(digits, exponent);
    assert Layout(digits, exponent) + "" == Layout(digits, exponent);
  }

  lemma ScaledParts(digits: seq<nat>, exponent: int)
    requires Normalised(digits) && !(-6 < exponent + |digits| <= 21)
    ensures
      var parts := Parts(digits[..1], digits[1..], Some(exponent + |digits| - 1));
      AreParts(parts) && Spelled(parts) == Layout(digits, exponent)
  {
    hide Layout, Mantissa, ExponentText;
    ExponentLayout(digits, exponent);
    Grouped(Mantissa(digits[..1], digits[1..]), "e", ExponentText(exponent + |digits| - 1));
  }

  lemma LayoutParts(digits: seq<nat>, exponent: int) returns (parts: Parts)
    requires Normalised(digits)
    ensures AreParts(parts) && Spelled(parts) == Layout(digits, exponent)
  {
    hide AreParts, Spelled, Layout;
    var point := exponent + |digits|;
    if |digits| <= point <= 21 {
      WholeParts(digits, exponent);
      parts := Parts(digits + Zeros(exponent), [], None);
    } else if 0 < point <= 21 {
      PointParts(digits, exponent);
      parts := Parts(digits[..point], digits[point..], None);
    } else if -6 < point <= 0 {
      SmallParts(digits, exponent);
      parts := Parts([0], Zeros(-point) + digits, None);
    } else {
      ScaledParts(digits, exponent);
      parts := Parts(digits[..1], digits[1..], Some(point - 1));
    }
  }

  lemma SpelledIsCanonical(parts: Parts)
    requires AreParts(parts)
    ensures Canonical(Spelled(parts))
  {
    hide Cut, Digits, CanonicalScale, ExponentText, Mantissa;
    var mantissa := Mantissa(parts.whole, parts.fraction);
    MantissaReads(parts.whole, parts.fraction);
    DigitsOfText(parts.whole);
    DigitsOfText(parts.fraction);
    ZeroIsZero(parts.whole);
    ZeroIsZero(parts.fraction);
    if parts.scale.None? {
      CutAt(mantissa, 'e', "");
      assert Spelled(parts) == mantissa;
    } else {
      CutAt(mantissa, 'e', ExponentText(parts.scale.value));
      ExponentIsCanonical(parts.scale.value);
      assert Spelled(parts) == mantissa + ['e'] + ExponentText(parts.scale.value);
    }
  }

  lemma ZeroIsZero(digits: seq<nat>)
    requires AreDigits(digits)
    ensures forall i | 0 <= i < |digits| :: Text(digits)[i] == '0' <==> digits[i] == 0
    ensures digits == [0] ==> Text(digits) == "0"
  {
  }

  lemma ExponentIsCanonical(scale: int)
    requires scale != 0
    ensures CanonicalScale(ExponentText(scale))
  {
    hide Digits;
    var digits := Decimal(Abs(scale));
    DecimalLeads(Abs(scale));
    DigitsOfText(digits);
    ZeroIsZero(digits);
    hide Text, Decimal;
    assert ExponentText(scale)[1..] == Text(digits);
  }

  lemma LayoutIsWritten(digits: seq<nat>, exponent: int)
    requires Normalised(digits)
    ensures WrittenPlainly(Layout(digits, exponent)) && '0' <= Layout(digits, exponent)[0] <= '9'
  {
    hide Layout, ReadUnsigned, Scaled, Canonical, PowerOfTen, Spelled;
    var parts := LayoutParts(digits, exponent);
    SpelledIsCanonical(parts);
    LayoutReadsBack(digits, exponent);
    ExponentExactlyOutside(digits, exponent);
  }

  /** Such a text reads as more than zero. */
  lemma PlainIsPositive(text: string)
    requires WrittenPlainly(text)
    ensures ReadUnsigned(text).value > 0.0 && '0' <= text[0] <= '9'
  {
    hide ReadUnsigned, Canonical, PowerOfTen, Spelled, Mantissa;
    var parts := CanonicalParts(text);
    SpelledReads(parts);
    var digits := parts.whole + parts.fraction;
    if parts.whole[0] == 0 {
      var zeros, kept := WithoutFirstZeros(parts.fraction);
      assert digits == Zeros(zeros + 1) + kept;
      LeadingZeros(zeros + 1, kept);
      NumberIsPositive(kept);
    } else {
      NumberIsPositive(digits);
    }
    PowersArePositive((if parts.scale.None? then 0 else parts.scale.value) - |parts.fraction|);
    SpelledBegins(parts);
  }

  lemma SpelledBegins(parts: Parts)
    requires AreParts(parts)
    ensures Spelled(parts) != "" && '0' <= Spelled(parts)[0] <= '9'
  {
    hide Mantissa, ExponentText;
    MantissaReads(parts.whole, parts.fraction);
  }

  lemma ReadOfPlain(text: string)
    requires text != "" && WrittenPlainly(if text[0] == '-' then text[1..] else text)
    ensures
      if text[0] == '-' then Read(text) == Value(-ReadUnsigned(text[1..]).value) && ReadUnsigned(text[1..]).value > 0.0
      else Read(text) == Value(ReadUnsigned(text).value) && ReadUnsigned(text).value > 0.0
  {
    hide ReadUnsigned, Canonical;
    PlainIsPositive(if text[0] == '-' then text[1..] else text);
    assert "-Infinity"[1] == 'I';
  }

  lemma EmptyIsNotWritten()
    ensures !WrittenPlainly("")
  {
  }

  /** What is shown is written as JavaScript writes numbers, and is the only such text that reads as the double. */
  lemma ShownIsTheOnlyText(value: Double, text: string)
    requires IsDouble(value)
    ensures WrittenAsNumber(Shown(value))
    ensures WrittenAsNumber(text) && Read(text) == MeaningOf(value) ==> text == Shown(value)
  {
    hide Layout, ReadUnsigned, Scaled, WrittenPlainly, Normalised;
    ZeroReads();
    EmptyIsNotWritten();
    if WrittenAsNumber(text) && text !in ["NaN", "Infinity", "-Infinity", "0"] {
      ReadOfPlain(text);
    }
    if value.Finite? {
      FiniteIsWritten(value);
      SizesArePositive(value.digits, value.exponent);
      if WrittenAsNumber(text) && Read(text) == MeaningOf(value) {
        OnlySigned(value, text);
      }
    }
  }

  lemma FiniteIsWritten(value: Double)
    requires IsDouble(value) && value.Finite?
    ensures WrittenAsNumber(Shown(value))
  {
    hide Layout, WrittenPlainly;
    LayoutIsWritten(value.digits, value.exponent);
    var text := Layout(value.digits, value.exponent);
    if value.negative {
      assert Shown(value) == "-" + text;
      assert ("-" + text)[1..] == text;
    } else {
      assert Shown(value) == "" + text == text;
    }
  }

  lemma OnlySigned(value: Double, text: string)
    requires IsDouble(value) && value.Finite? && WrittenAsNumber(text) && Read(text) == MeaningOf(value)
    ensures text == Shown(value)
  {
    hide Layout, ReadUnsigned, Scaled, WrittenPlainly, Normalised;
    ZeroReads();
    SizesArePositive(value.digits, value.exponent);
    EmptyIsNotWritten();
    ReadOfPlain(text);
    var unsigned := if text[0] == '-' then text[1..] else text;
    OnlyLayout(value.digits, value.exponent, unsigned);
    assert text[0] == '-' ==> text == "-" + unsigned;
  }
}
