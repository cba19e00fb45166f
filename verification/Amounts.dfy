/** Printing and parsing token amounts as decimal text. */
module Amounts {
  import opened Options

  // ---------------------------------------------------------------- digits

  predicate IsDigit(c: char) { '0' <= c <= '9' }

  predicate AllDigits(s: string) {
    forall i :: 0 <= i < |s| ==> IsDigit(s[i])
  }

  function DigitOf(d: nat): (c: char)
    requires d < 10
    ensures IsDigit(c) && (c == '0' <==> d == 0) && ValueOfDigit(c) == d
  {
    (d + '0' as int) as char
  }

  function ValueOfDigit(c: char): (d: nat)
    requires IsDigit(c)
    ensures d < 10 && (d == 0 <==> c == '0')
  {
    c as int - '0' as int
  }

  function Pow10(k: nat): (r: nat)
    ensures r > 0
  {
    if k == 0 then 1 else 10 * Pow10(k - 1)
  }

  /** A big integer's decimal text. */
  function Decimal(n: nat): (s: string)
    ensures s != [] && AllDigits(s)
  {
    if n < 10 then [DigitOf(n)] else Decimal(n / 10) + [DigitOf(n % 10)]
  }

  /** The number that digits spell; no digits spell zero. */
  function Numeric(s: string): nat
    requires AllDigits(s)
  {
    if s == [] then 0 else Numeric(s[..|s| - 1]) * 10 + ValueOfDigit(s[|s| - 1])
  }

  lemma {:induction false} NumericDecimal(n: nat)
    ensures Numeric(Decimal(n)) == n
  {
    if n >= 10 {
      NumericDecimal(n / 10);
      assert Decimal(n)[..|Decimal(n)| - 1] == Decimal(n / 10);
    }
  }

  lemma {:induction false} NumericConcat(a: string, b: string)
    requires AllDigits(a) && AllDigits(b)
    ensures AllDigits(a + b) && Numeric(a + b) == Numeric(a) * Pow10(|b|) + Numeric(b)
    ensures Numeric(b) < Pow10(|b|)
  {
    if b == [] {
      assert a + b == a;
    } else {
      var front, last := b[..|b| - 1], b[|b| - 1];
      NumericConcat(a, front);
      NumericLast(a + front, last);
      NumericLast(front, last);
      assert a + b == a + front + [last] && b == front + [last];
      Shifted(Numeric(a), Pow10(|front|), Numeric(front));
    }
  }

  lemma NumericLast(s: string, c: char)
    requires AllDigits(s) && IsDigit(c)
    ensures Numeric(s + [c]) == Numeric(s) * 10 + ValueOfDigit(c)
  {
    assert (s + [c])[..|s|] == s;
  }

  lemma Shifted(x: nat, p: nat, y: nat)
    ensures (x * p + y) * 10 == x * (10 * p) + y * 10
  {}

  /** k zeros. */
  function Zeros(k: nat): (s: string)
    ensures |s| == k && AllDigits(s)
  {
    if k == 0 then [] else Zeros(k - 1) + ['0']
  }

  lemma {:induction false} NumericZeros(k: nat)
    ensures Numeric(Zeros(k)) == 0
  {
    if k > 0 {
      NumericZeros(k - 1);
      assert Zeros(k)[..k - 1] == Zeros(k - 1);
    }
  }

  function PadStart(s: string, k: nat): string {
    if |s| >= k then s else Zeros(k - |s|) + s
  }

  function PadEnd(s: string, k: nat): string {
    if |s| >= k then s else s + Zeros(k - |s|)
  }

  function StripZeros(s: string): (r: string)
    ensures r <= s && (r == [] || r[|r| - 1] != '0')
  {
    if s != [] && s[|s| - 1] == '0' then StripZeros(s[..|s| - 1]) else s
  }

  lemma {:induction false} StrippedTail(s: string)
    ensures s == StripZeros(s) + Zeros(|s| - |StripZeros(s)|)
  {
    if s != [] && s[|s| - 1] == '0' {
      StrippedTail(s[..|s| - 1]);
      assert s == s[..|s| - 1] + ['0'];
    }
  }

  // ---------------------------------------------------------------- separators

  /** A comma goes before a digit when the digits from it on are a multiple of three,
      unless it is the first. */
  predicate Marked(s: string, i: nat) {
    i > 0 && (|s| - i) % 3 == 0
  }

  function Separated(s: string, i: nat): string
    requires i <= |s|
    decreases |s| - i
  {
    if i == |s| then []
    else
      var rest := [s[i]] + Separated(s, i + 1);
      if Marked(s, i) then [','] + rest else rest
  }

  function AddThousandsSeparators(value: string): string {
    if value != [] && value[0] == '-' then ['-'] + Separated(value[1..], 0) else Separated(value, 0)
  }

  function RemoveCommas(s: string): string {
    if s == [] then []
    else if s[0] == ',' then RemoveCommas(s[1..])
    else [s[0]] + RemoveCommas(s[1..])
  }

  predicate NoComma(s: string) {
    forall i :: 0 <= i < |s| ==> s[i] != ','
  }

  lemma {:induction false} NothingToRemove(s: string)
    requires NoComma(s)
    ensures RemoveCommas(s) == s
  {
    if s != [] {
      NothingToRemove(s[1..]);
      assert s == [s[0]] + s[1..];
    }
  }

  lemma RemoveHead(c: char, s: string)
    ensures RemoveCommas([c] + s) == if c == ',' then RemoveCommas(s) else [c] + RemoveCommas(s)
  {
    assert ([c] + s)[1..] == s;
  }

  lemma {:induction false} RemoveJoins(a: string, b: string)
    ensures RemoveCommas(a + b) == RemoveCommas(a) + RemoveCommas(b)
  {
    if a == [] {
      assert a + b == b;
    } else {
      var c, rest := a[0], a[1..];
      assert a == [c] + rest;
      RemoveJoins(rest, b);
      RemoveJoinsHead(c, rest, b);
    }
  }

  lemma RemoveJoinsHead(c: char, rest: string, b: string)
    requires RemoveCommas(rest + b) == RemoveCommas(rest) + RemoveCommas(b)
    ensures RemoveCommas([c] + rest + b) == RemoveCommas([c] + rest) + RemoveCommas(b)
  {
    Associates([c], rest, b);
    RemoveHead(c, rest + b);
    RemoveHead(c, rest);
    Associates([c], RemoveCommas(rest), RemoveCommas(b));
  }

  /** Removing the commas takes the separators back out. */
  lemma {:induction false} SeparatorsUndone(s: string, i: nat)
    requires i <= |s| && NoComma(s)
    ensures RemoveCommas(Separated(s, i)) == s[i..]
    decreases |s| - i
  {
    if i < |s| {
      SeparatorsUndone(s, i + 1);
      RemoveHead(s[i], Separated(s, i + 1));
      RemoveHead(',', [s[i]] + Separated(s, i + 1));
      assert s[i..] == [s[i]] + s[i + 1..];
    }
  }

  /** The digits in groups: all but the first are of three, and the first is not empty. */
  function Grouped(s: string): string {
    if |s| <= 3 then s else Grouped(s[..|s| - 3]) + [','] + s[|s| - 3..]
  }

  lemma {:induction false} SeparatedSplits(s: string, i: nat)
    requires |s| > 3 && i <= |s| - 3
    ensures Separated(s, i) == Separated(s[..|s| - 3], i) + ([','] + s[|s| - 3..])
    decreases |s| - i
  {
    var front, group := s[..|s| - 3], s[|s| - 3..];
    if i < |front| {
      SeparatedSplits(s, i + 1);
      assert (|s| - i) % 3 == (|front| - i) % 3;
      SeparatedStep(s, front, i, [','] + group);
    } else {
      LastGroup(s);
      assert Separated(front, i) == [];
    }
  }

  lemma SeparatedStep(s: string, front: string, i: nat, end: string)
    requires i < |s| && i < |front| && s[i] == front[i] && Marked(s, i) == Marked(front, i)
    requires Separated(s, i + 1) == Separated(front, i + 1) + end
    ensures Separated(s, i) == Separated(front, i) + end
  {
    var rest := Separated(front, i + 1);
    Associates([s[i]], rest, end);
    Associates([','], [s[i]] + rest, end);
  }

  lemma Associates(a: string, b: string, c: string)
    ensures a + (b + c) == a + b + c
  {}

  lemma LastGroup(s: string)
    requires |s| > 3
    ensures Separated(s, |s| - 3) == [','] + s[|s| - 3..]
  {
    var i := |s| - 3;
    assert Separated(s, i + 3) == [];
    assert Separated(s, i + 2) == [s[i + 2]];
    assert Separated(s, i + 1) == [s[i + 1], s[i + 2]];
    assert s[i..] == [s[i], s[i + 1], s[i + 2]];
  }

  lemma {:induction false} SeparatorsGroupByThree(s: string)
    ensures Separated(s, 0) == Grouped(s)
    decreases |s|
  {
    if |s| > 3 {
      SeparatedSplits(s, 0);
      SeparatorsGroupByThree(s[..|s| - 3]);
    } else {
      SeparatedShort(s, 0);
    }
  }

  lemma {:induction false} SeparatedShort(s: string, i: nat)
    requires i <= |s| <= 3
    ensures Separated(s, i) == s[i..]
    decreases |s| - i
  {
    if i < |s| {
      SeparatedShort(s, i + 1);
      assert s[i..] == [s[i]] + s[i + 1..];
    }
  }

  // ---------------------------------------------------------------- plain decimal text

  predicate IsSpace(c: char) {
    var u := c as int;
    || 9 <= u <= 13 || u == 32 || u == 0xA0 || u == 0x1680 || 0x2000 <= u <= 0x200A
    || u == 0x2028 || u == 0x2029 || u == 0x202F || u == 0x205F || u == 0x3000 || u == 0xFEFF
  }

  function Trim(s: string): string {
    if s == [] then []
    else if IsSpace(s[0]) then Trim(s[1..])
    else if IsSpace(s[|s| - 1]) then Trim(s[..|s| - 1])
    else s
  }

  function Normalized(value: string): string {
    Trim(RemoveCommas(value))
  }

  /** Where the first point stands, or the length. */
  function Point(s: string): (k: nat)
    ensures k <= |s|
  {
    if s == [] || s[0] == '.' then 0 else 1 + Point(s[1..])
  }

  function IntegerPart(s: string): string { s[..Point(s)] }

  function FractionPart(s: string): string {
    if Point(s) == |s| then [] else s[Point(s) + 1..]
  }

  /** Digits, then perhaps a point and digits. */
  predicate IsPlain(s: string) {
    AllDigits(IntegerPart(s)) && AllDigits(FractionPart(s))
  }

  lemma {:induction false} PointAfterDigits(a: string, b: string)
    requires AllDigits(a) && (b == [] || b[0] == '.')
    ensures Point(a + b) == |a|
  {
    if a == [] {
      assert a + b == b;
    } else {
      PointAfterDigits(a[1..], b);
      assert (a + b)[1..] == a[1..] + b && (a + b)[0] == a[0];
    }
  }

  // ---------------------------------------------------------------- printing

  /** At least as many digits as the token has. */
  function Padded(v: nat, decimals: nat): (s: string)
    ensures |s| >= decimals && AllDigits(s) && Numeric(s) == v && s == PadStart(Decimal(v), decimals)
  {
    var text := Decimal(v);
    NumericDecimal(v);
    if |text| >= decimals then text
    else
      NumericZeros(decimals - |text|);
      NumericConcat(Zeros(decimals - |text|), text);
      Zeros(decimals - |text|) + text
  }

  /** The digits before the point, zero where there are none. */
  function Whole(v: nat, decimals: nat): (s: string)
    ensures s != [] && AllDigits(s)
  {
    var s := Padded(v, decimals);
    if |s| == decimals then ['0'] else s[..|s| - decimals]
  }

  /** The digits after the point. */
  function Fraction(v: nat, decimals: nat): (s: string)
    ensures |s| == decimals && AllDigits(s)
  {
    var s := Padded(v, decimals);
    s[|s| - decimals..]
  }

  /** viem's formatUnits. */
  function FormatUnits(value: int, decimals: nat): string {
    if value < 0 then ['-'] + Units(-value, decimals) else Units(value, decimals)
  }

  function Units(n: nat, decimals: nat): string {
    Joined(Whole(n, decimals), StripZeros(Fraction(n, decimals)))
  }

  function Suffix(fraction: string): string {
    if fraction == [] then [] else ['.'] + fraction
  }

  function Joined(integer: string, fraction: string): string {
    integer + Suffix(fraction)
  }

  /** At most the first k characters. */
  function Slice(s: string, k: nat): string {
    if k < |s| then s[..k] else s
  }

  function FormatDisplayAmountDown(value: Option<string>, fractionDigits: nat): string {
    if value.None? || value.value == [] then ['0']
    else
      var text := Normalized(value.value);
      var negative := text != [] && text[0] == '-';
      var unsigned := if negative then text[1..] else text;
      if !IsPlain(unsigned) then ['0']
      else
        var integer := if IntegerPart(unsigned) == [] then ['0'] else IntegerPart(unsigned);
        var raw := FractionPart(unsigned);
        var fraction := StripZeros(Slice(raw, fractionDigits));
        Joined((if negative then ['-'] else []) + AddThousandsSeparators(integer), fraction)
  }

  function FormatBigIntAmountDown(value: Option<int>, decimals: nat, fractionDigits: nat): string {
    if value.None? then ['0'] else FormatDisplayAmountDown(Some(FormatUnits(value.value, decimals)), fractionDigits)
  }

  // ---------------------------------------------------------------- parsing

  /** Text with more digits after the point than the token has is left to viem's rounding. */
  datatype Parsed = Rejected | LeftToRounding | Amount(n: nat)

  function ParseAmount(value: string, decimals: nat): Parsed {
    var text := Normalized(value);
    if text == [] || !IsPlain(text) then Rejected
    else
      var fraction := StripZeros(FractionPart(text));
      if |fraction| > decimals then LeftToRounding
      else
        var digits := IntegerPart(text) + PadEnd(fraction, decimals);
        assert AllDigits(digits);
        Amount(Numeric(digits))
  }

  // ---------------------------------------------------------------- what input is read

  /** Input is read when, commas and outer spaces aside, it is digits with at most one point. */
  lemma {:induction false} PlainExactly(s: string)
    ensures IsPlain(s) <==>
      && (forall i :: 0 <= i < |s| ==> IsDigit(s[i]) || s[i] == '.')
      && (forall i, j :: 0 <= i < j < |s| ==> s[i] != '.' || s[j] != '.')
  {
    var k := Point(s);
    PointIsFirst(s);
    if k < |s| { assert forall i :: k < i < |s| ==> s[i] == FractionPart(s)[i - k - 1]; }
    assert forall i :: 0 <= i < k ==> s[i] == IntegerPart(s)[i];
  }

  lemma {:induction false} PointIsFirst(s: string)
    ensures Point(s) < |s| ==> s[Point(s)] == '.'
    ensures forall i :: 0 <= i < Point(s) ==> s[i] != '.'
  {
    if s != [] && s[0] != '.' {
      PointIsFirst(s[1..]);
      assert forall i :: 0 < i < |s| ==> s[i] == s[1..][i - 1];
    }
  }

  /** Spaces around the input do not matter. */
  lemma {:induction false} OuterSpacesIgnored(left: string, s: string, right: string)
    requires forall i :: 0 <= i < |left| ==> IsSpace(left[i])
    requires forall i :: 0 <= i < |right| ==> IsSpace(right[i])
    requires s != [] && !IsSpace(s[0]) && !IsSpace(s[|s| - 1])
    ensures Trim(left + s + right) == s
    decreases |left| + |right|
  {
    var text := left + s + right;
    if left != [] {
      assert text[1..] == left[1..] + s + right;
      OuterSpacesIgnored(left[1..], s, right);
    } else if right != [] {
      assert text[0] == s[0] && text[..|text| - 1] == left + s + right[..|right| - 1];
      OuterSpacesIgnored(left, s, right[..|right| - 1]);
    } else {
      assert text == s;
    }
  }

  /** What is refused: nothing at all, commas and spaces aside, or anything that is not plain. */
  lemma RefusedExactly(value: string, decimals: nat)
    ensures var s := Normalized(value);
      ParseAmount(value, decimals) != Rejected <==>
        && s != [] && (forall i :: 0 <= i < |s| ==> IsDigit(s[i]) || s[i] == '.')
        && (forall i, j :: 0 <= i < j < |s| ==> s[i] != '.' || s[j] != '.')
  {
    PlainExactly(Normalized(value));
  }

  lemma {:induction false} BlankIsRefused(value: string, decimals: nat)
    requires forall i :: 0 <= i < |value| ==> value[i] == ',' || IsSpace(value[i])
    ensures ParseAmount(value, decimals) == Rejected
  {
    CommasLeaveSpaces(value);
    SpacesTrimToNothing(RemoveCommas(value));
  }

  lemma {:induction false} CommasLeaveSpaces(value: string)
    requires forall i :: 0 <= i < |value| ==> value[i] == ',' || IsSpace(value[i])
    ensures OnlySpaces(RemoveCommas(value))
  {
    if value != [] {
      CommasLeaveSpaces(value[1..]);
      if value[0] != ',' {
        var rest := RemoveCommas(value[1..]);
        assert IsSpace(value[0]) && forall i :: 0 < i <= |rest| ==> ([value[0]] + rest)[i] == rest[i - 1];
      }
    }
  }

  predicate OnlySpaces(s: string) {
    forall i :: 0 <= i < |s| ==> IsSpace(s[i])
  }

  lemma {:induction false} SpacesTrimToNothing(s: string)
    requires OnlySpaces(s)
    ensures Trim(s) == []
  {
    if s != [] { SpacesTrimToNothing(s[1..]); }
  }

  /** What cannot be shown is shown as zero, and reads back as zero: no value, no text, or text
      that is not a plain number with at most a sign. */
  lemma UnshownIsZero(value: string, decimals: nat, fractionDigits: nat)
    requires var s := Normalized(value); !IsPlain(s) && (s != [] && s[0] == '-' ==> !IsPlain(s[1..]))
    ensures FormatDisplayAmountDown(Some(value), fractionDigits) == FormatDisplayAmountDown(Some([]), fractionDigits)
      == FormatDisplayAmountDown(None, fractionDigits) == FormatBigIntAmountDown(None, decimals, fractionDigits) == ['0']
    ensures ParseAmount(['0'], decimals) == Amount(0)
  {
    PartsOfJoined(['0'], []);
    CleanIsNormal(['0']);
    assert Joined(['0'], []) == ['0'];
    assert ['0'] + Zeros(decimals) == ['0'] + PadEnd([], decimals);
    NumericZeros(decimals);
    NumericConcat(['0'], Zeros(decimals));
    assert ['0'][..0] == [];
  }

  // ---------------------------------------------------------------- printing, then parsing

  predicate Clean(s: string) {
    forall i :: 0 <= i < |s| ==> s[i] != ',' && !IsSpace(s[i])
  }

  lemma CleanIsNormal(s: string)
    requires Clean(s)
    ensures Normalized(s) == s
  {
    NothingToRemove(s);
  }

  lemma PartsOfJoined(integer: string, fraction: string)
    requires integer != [] && AllDigits(integer) && AllDigits(fraction)
    ensures var s := Joined(integer, fraction);
      s != [] && Clean(s) && IsPlain(s) && IntegerPart(s) == integer && FractionPart(s) == fraction
      && s[0] == integer[0]
  {
    PointAfterDigits(integer, Suffix(fraction));
    assert fraction != [] ==> Joined(integer, fraction)[|integer| + 1..] == fraction;
  }

  lemma CommasRemoved(integer: string, fraction: string)
    requires integer != [] && AllDigits(integer) && AllDigits(fraction)
    ensures RemoveCommas(Joined(AddThousandsSeparators(integer), fraction)) == Joined(integer, fraction)
  {
    RemoveJoins(Separated(integer, 0), Suffix(fraction));
    SeparatorsUndone(integer, 0);
    NothingToRemove(Suffix(fraction));
    assert integer[0..] == integer;
  }

  lemma SeparatorsNormalized(integer: string, fraction: string)
    requires integer != [] && AllDigits(integer) && AllDigits(fraction)
    ensures Normalized(Joined(AddThousandsSeparators(integer), fraction)) == Joined(integer, fraction)
  {
    CommasRemoved(integer, fraction);
    PartsOfJoined(integer, fraction);
  }

  lemma SignedNormalized(integer: string, fraction: string)
    requires integer != [] && AllDigits(integer) && AllDigits(fraction)
    ensures Normalized(Joined(['-'] + AddThousandsSeparators(integer), fraction)) == ['-'] + Joined(integer, fraction)
  {
    var shown := Joined(AddThousandsSeparators(integer), fraction);
    SignFirst(AddThousandsSeparators(integer), Suffix(fraction));
    assert RemoveCommas(shown) == Joined(integer, fraction) by { CommasRemoved(integer, fraction); }
    assert Clean(Joined(integer, fraction)) by { PartsOfJoined(integer, fraction); }
    SignKept(shown, Joined(integer, fraction));
  }

  lemma SignFirst(a: string, b: string)
    ensures ['-'] + a + b == ['-'] + (a + b)
  {}

  lemma SignKept(shown: string, text: string)
    requires RemoveCommas(shown) == text && Clean(text)
    ensures Normalized(['-'] + shown) == ['-'] + text
  {
    RemoveHead('-', shown);
    assert Clean(['-'] + text);
  }

  lemma SignedIsNotPlain(s: string)
    ensures !IsPlain(['-'] + s)
  {
    assert IntegerPart(['-'] + s)[0] == '-';
  }

  lemma {:induction false} ZerosJoin(a: nat, b: nat)
    ensures Zeros(a) + Zeros(b) == Zeros(a + b)
  {
    if b > 0 {
      ZerosJoin(a, b - 1);
      assert Zeros(a) + Zeros(b) == Zeros(a) + Zeros(b - 1) + ['0'];
    }
  }

  lemma StrippedPads(s: string, n: nat)
    requires |s| <= n
    ensures |StripZeros(s)| <= n
    ensures PadEnd(StripZeros(s), n) == PadEnd(s, n)
  {
    var r := StripZeros(s);
    var tail, more := Zeros(|s| - |r|), Zeros(n - |s|);
    assert s == r + tail by { StrippedTail(s); }
    assert tail + more == Zeros(n - |r|) by { ZerosJoin(|s| - |r|, n - |s|); }
    Associates(r, tail, more);
    PadEndIs(r, n);
    PadEndIs(s, n);
  }

  lemma PadEndIs(s: string, n: nat)
    requires |s| <= n
    ensures PadEnd(s, n) == s + Zeros(n - |s|)
  {}

  /** A sliced fraction, stripped before and after, pads to its kept digits. */
  lemma StrippedSlice(fraction: string, k: nat)
    ensures |StripZeros(Slice(StripZeros(fraction), k))| <= |fraction|
    ensures PadEnd(StripZeros(Slice(StripZeros(fraction), k)), |fraction|) == PadEnd(Slice(fraction, k), |fraction|)
  {
    var stripped := StripZeros(fraction);
    StrippedPads(Slice(stripped, k), |fraction|);
    if k < |stripped| {
      assert stripped[..k] == fraction[..k];
    } else {
      StrippedPads(fraction, |fraction|);
      SlicedTail(fraction, stripped, k);
    }
  }

  lemma SlicedTail(fraction: string, stripped: string, k: nat)
    requires |stripped| <= k && stripped <= fraction && fraction == PadEnd(stripped, |fraction|)
    ensures PadEnd(Slice(fraction, k), |fraction|) == fraction
  {
    if k < |fraction| {
      var zeros := Zeros(|fraction| - |stripped|);
      assert fraction == stripped + zeros;
      ZerosJoin(k - |stripped|, |fraction| - k);
      assert zeros[k - |stripped|..] == Zeros(|fraction| - k);
      assert fraction[k..] == zeros[k - |stripped|..];
      assert fraction == fraction[..k] + fraction[k..];
    }
  }

  function Shown(v: nat, decimals: nat, fractionDigits: nat): (s: string)
    ensures AllDigits(s) && |s| <= decimals && |s| <= fractionDigits && StripZeros(s) == s
  {
    StripZeros(Slice(StripZeros(Fraction(v, decimals)), fractionDigits))
  }

  lemma DigitsOfValue(v: nat, decimals: nat)
    ensures Numeric(Whole(v, decimals)) * Pow10(decimals) + Numeric(Fraction(v, decimals)) == v
  {
    var s := Padded(v, decimals);
    assert s == s[..|s| - decimals] + s[|s| - decimals..];
    NumericConcat(s[..|s| - decimals], s[|s| - decimals..]);
    ZeroOrDigits(s[..|s| - decimals]);
  }

  lemma ZeroOrDigits(s: string)
    requires AllDigits(s)
    ensures Numeric(if s == [] then ['0'] else s) == Numeric(s)
  {
    assert ['0'][..0] == [];
  }

  lemma DisplayedPositive(integer: string, fraction: string, fractionDigits: nat)
    requires integer != [] && AllDigits(integer) && AllDigits(fraction)
    ensures FormatDisplayAmountDown(Some(Joined(integer, fraction)), fractionDigits) ==
      Joined(AddThousandsSeparators(integer), StripZeros(Slice(fraction, fractionDigits)))
  {
    PartsOfJoined(integer, fraction);
    CleanIsNormal(Joined(integer, fraction));
    assert [] + AddThousandsSeparators(integer) == AddThousandsSeparators(integer);
  }

  lemma DisplayedNegative(integer: string, fraction: string, fractionDigits: nat)
    requires integer != [] && AllDigits(integer) && AllDigits(fraction)
    ensures FormatDisplayAmountDown(Some(['-'] + Joined(integer, fraction)), fractionDigits) ==
      Joined(['-'] + AddThousandsSeparators(integer), StripZeros(Slice(fraction, fractionDigits)))
  {
    PartsOfJoined(integer, fraction);
    var text := ['-'] + Joined(integer, fraction);
    CleanIsNormal(text);
    assert text[1..] == Joined(integer, fraction);
  }

  lemma SeparatedDigits(integer: string)
    requires integer != [] && AllDigits(integer)
    ensures AddThousandsSeparators(integer) == Grouped(integer)
  {
    SeparatorsGroupByThree(integer);
  }

  /** The displayed text, in terms of the digits of the value: the whole part in groups of
      three, and no more than the digits asked for behind the point, none of them a trailing zero. */
  lemma DisplayedText(n: nat, decimals: nat, fractionDigits: nat)
    ensures FormatBigIntAmountDown(Some(n), decimals, fractionDigits)
      == Joined(Grouped(Whole(n, decimals)), Shown(n, decimals, fractionDigits))
    ensures FormatBigIntAmountDown(Some(n), decimals, fractionDigits)
      == Joined(AddThousandsSeparators(Whole(n, decimals)), Shown(n, decimals, fractionDigits))
    ensures var shown := Shown(n, decimals, fractionDigits);
      |shown| <= fractionDigits && (shown != [] ==> shown[|shown| - 1] != '0')
  {
    DisplayedPositive(Whole(n, decimals), StripZeros(Fraction(n, decimals)), fractionDigits);
    SeparatedDigits(Whole(n, decimals));
  }

  lemma DisplayedNegativeText(v: int, decimals: nat, fractionDigits: nat)
    requires v < 0
    ensures FormatBigIntAmountDown(Some(v), decimals, fractionDigits) ==
      Joined(['-'] + AddThousandsSeparators(Whole(-v, decimals)), Shown(-v, decimals, fractionDigits))
  {
    DisplayedNegative(Whole(-v, decimals), StripZeros(Fraction(-v, decimals)), fractionDigits);
  }

  function RoundedDown(v: nat, decimals: nat, fractionDigits: nat): (r: nat)
    ensures fractionDigits >= decimals ==> r == v
    ensures fractionDigits < decimals ==> r == v / Pow10(decimals - fractionDigits) * Pow10(decimals - fractionDigits)
  {
    if fractionDigits >= decimals then v else Multiple(v, Pow10(decimals - fractionDigits))
  }

  /** The largest multiple of the unit up to v. */
  function Multiple(v: nat, unit: nat): (m: nat)
    requires unit > 0
    ensures m == v / unit * unit
  {
    var r := v % unit;
    assert r <= v by { if v < unit { Quotient(v, unit, 0, v); } }
    v - r
  }

  lemma AppendedZeros(s: string, k: nat)
    requires AllDigits(s)
    ensures Numeric(s + Zeros(k)) == Numeric(s) * Pow10(k)
  {
    NumericConcat(s, Zeros(k));
    NumericZeros(k);
  }

  /** The value of the digits that stay when a number's last ones become zeros. */
  lemma ZeroedDigits(integer: string, fraction: string, k: nat)
    requires AllDigits(integer) && AllDigits(fraction)
    ensures AllDigits(integer + PadEnd(Slice(fraction, k), |fraction|))
    ensures Numeric(integer + PadEnd(Slice(fraction, k), |fraction|)) == RoundedDown(Numeric(integer + fraction), |fraction|, k)
  {
    if k < |fraction| {
      var high, low, zeros := integer + fraction[..k], fraction[k..], Zeros(|fraction| - k);
      assert integer + fraction == high + low by { assert fraction == fraction[..k] + low; }
      NumericConcat(high, low);
      Quotient(Numeric(high + low), Pow10(|low|), Numeric(high), Numeric(low));
      AppendedZeros(high, |low|);
      assert integer + (fraction[..k] + zeros) == high + zeros;
    }
  }

  lemma Quotient(v: nat, unit: nat, q: nat, r: nat)
    requires r < unit && v == q * unit + r
    ensures v / unit == q
  {
    var d := v / unit;
    assert v == d * unit + v % unit;
    NextMultiple(d, q, unit);
    NextMultiple(q, d, unit);
  }

  lemma {:induction false} NextMultiple(a: nat, b: nat, unit: nat)
    ensures a < b ==> a * unit + unit <= b * unit
    decreases b
  {
    if a < b {
      assert b * unit == (b - 1) * unit + unit;
      NextMultiple(a, b - 1, unit);
    }
  }

  lemma ParsedParts(integer: string, fraction: string, decimals: nat)
    requires integer != [] && AllDigits(integer) && AllDigits(fraction)
    requires |fraction| <= decimals && StripZeros(fraction) == fraction
    ensures AllDigits(integer + PadEnd(fraction, decimals))
    ensures ParseAmount(Joined(AddThousandsSeparators(integer), fraction), decimals)
      == Amount(Numeric(integer + PadEnd(fraction, decimals)))
  {
    SeparatorsNormalized(integer, fraction);
    PartsOfJoined(integer, fraction);
  }

  lemma NegativeIsRejected(v: int, decimals: nat, fractionDigits: nat)
    requires v < 0
    ensures ParseAmount(FormatBigIntAmountDown(Some(v), decimals, fractionDigits), decimals) == Rejected
  {
    var integer, fraction := Whole(-v, decimals), Shown(-v, decimals, fractionDigits);
    DisplayedNegativeText(v, decimals, fractionDigits);
    SignedNormalized(integer, fraction);
    SignedIsNotPlain(Joined(integer, fraction));
  }

  lemma DigitsReadBack(v: nat, decimals: nat, fractionDigits: nat)
    ensures var text := Whole(v, decimals) + PadEnd(Shown(v, decimals, fractionDigits), decimals);
      AllDigits(text) && Numeric(text) == RoundedDown(v, decimals, fractionDigits)
  {
    var integer, fraction := Whole(v, decimals), Fraction(v, decimals);
    StrippedSlice(fraction, fractionDigits);
    ZeroedDigits(integer, fraction, fractionDigits);
    DigitsOfValue(v, decimals);
    NumericConcat(integer, fraction);
  }

  /** Reading back what is displayed gives the value rounded down to the displayed digits,
      and the value itself when no fewer digits are displayed than the token has. Negative
      amounts are displayed, and refused as input. */
  lemma DisplayReadsBackRoundedDown(v: int, decimals: nat, fractionDigits: nat)
    ensures ParseAmount(FormatBigIntAmountDown(Some(v), decimals, fractionDigits), decimals) ==
      if v < 0 then Rejected else Amount(RoundedDown(v, decimals, fractionDigits))
  {
    if v < 0 {
      NegativeIsRejected(v, decimals, fractionDigits);
    } else {
      DisplayedText(v, decimals, fractionDigits);
      ParsedParts(Whole(v, decimals), Shown(v, decimals, fractionDigits), decimals);
      DigitsReadBack(v, decimals, fractionDigits);
    }
  }
}
