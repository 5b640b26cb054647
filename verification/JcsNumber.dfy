/** Floats in canonical text: the shortest decimal that repr prints is laid out anew (RFC 8785 section 3.2.2.3). */
module JcsNumber {
  import opened Jcs
  import JcsUnique
  import opened Options

  predicate AllDigits(s: string) {
    forall k :: 0 <= k < |s| ==> '0' <= s[k] <= '9'
  }

  function Zeros(n: nat): (z: string)
    ensures |z| == n && forall k :: 0 <= k < n ==> z[k] == '0'
  {
    if n == 0 then "" else "0" + Zeros(n - 1)
  }

  function Nat(s: string): nat
    requires AllDigits(s)
  {
    if s == "" then 0 else Nat(s[..|s| - 1]) * 10 + (s[|s| - 1] as int - '0' as int)
  }

  function Pow10(n: nat): nat {
    if n == 0 then 1 else 10 * Pow10(n - 1)
  }

  // ---- What the function does with the text of repr ----

  function StripLeadingZeros(s: string): (r: string)
    ensures |r| <= |s| && (r != "" ==> r[0] != '0')
    ensures forall k :: 0 <= k < |r| ==> r[k] == s[|s| - |r| + k]
    ensures forall k :: 0 <= k < |s| - |r| ==> s[k] == '0'
  {
    if s != "" && s[0] == '0' then
      var r := StripLeadingZeros(s[1..]);
      assert forall k :: 1 <= k < |s| ==> s[k] == s[1..][k - 1];
      r
    else s
  }

  predicate EndsInPointZero(c: string) {
    |c| >= 2 && c[|c| - 2] == '.' && c[|c| - 1] == '0'
  }

  function WithoutPointZero(c: string): string {
    if EndsInPointZero(c) then c[..|c| - 2] else c
  }

  /** Index of the first point, or the length. */
  function Point(c: string): (k: nat)
    ensures k <= |c| && (k < |c| ==> c[k] == '.') && forall j :: 0 <= j < k ==> c[j] != '.'
  {
    if c == "" || c[0] == '.' then 0 else 1 + Point(c[1..])
  }

  function IntegerPart(c: string): string {
    c[..Point(c)]
  }

  function FractionPart(c: string): string {
    if Point(c) < |c| then c[Point(c) + 1..] else ""
  }

  function Coefficient(c: string): string {
    IntegerPart(WithoutPointZero(c)) + FractionPart(WithoutPointZero(c))
  }

  function SignificantDigits(c: string): string {
    StripLeadingZeros(Coefficient(c))
  }

  function DecimalPoint(c: string, exponent: int): int {
    |IntegerPart(WithoutPointZero(c))| + exponent - (|Coefficient(c)| - |SignificantDigits(c)|)
  }

  /** The layout of significant digits with the decimal point after the first n of them. */
  function Body(digits: string, n: int): string
    requires digits != ""
  {
    if 0 < n <= 21 then
      if n >= |digits| then digits + Zeros(n - |digits|) else digits[..n] + "." + digits[n..]
    else if -6 < n <= 0 then "0." + Zeros(-n) + digits
    else
      var mantissa := if |digits| > 1 then [digits[0]] + "." + digits[1..] else [digits[0]];
      mantissa + "e" + (if n - 1 >= 0 then "+" + IntText(n - 1) else IntText(n - 1))
  }

  function NumberText(negative: bool, coefficient: string, exponent: int): string {
    if SignificantDigits(coefficient) == "" then "0"
    else (if negative then "-" else "") + Body(SignificantDigits(coefficient), DecimalPoint(coefficient, exponent))
  }

  method SplitAtPoint(coefficient: string) returns (integer: string, fraction: string)
    ensures integer == IntegerPart(WithoutPointZero(coefficient)) && fraction == FractionPart(WithoutPointZero(coefficient))
  {
    var c := coefficient;
    if EndsInPointZero(c) {
      c := c[..|c| - 2];
    }
    integer, fraction := c, "";
    var at := Point(c);
    if at < |c| {
      integer, fraction := c[..at], c[at + 1..];
    }
    assert c[..|c|] == c;
  }

  /** coefficient and exponent are what repr prints before and after its e. */
  method Number(negative: bool, coefficient: string, exponent: int) returns (text: string)
    ensures text == NumberText(negative, coefficient, exponent)
  {
    hide StripLeadingZeros, IntegerPart, FractionPart, WithoutPointZero, Body;
    var integer, fraction := SplitAtPoint(coefficient);
    var digits := StripLeadingZeros(integer + fraction);
    if digits == "" {
      return "0";
    }
    var point := |integer| + exponent - (|integer + fraction| - |digits|);
    var body := LayOut(digits, point);
    text := (if negative then "-" else "") + body;
  }

  method LayOut(digits: string, point: int) returns (body: string)
    requires digits != ""
    ensures body == Body(digits, point)
  {
    hide Zeros, IntText;
    if 0 < point <= 21 {
      if point >= |digits| {
        body := digits + Zeros(point - |digits|);
      } else {
        body := digits[..point] + "." + digits[point..];
      }
    } else if -6 < point <= 0 {
      body := "0." + Zeros(-point) + digits;
    } else {
      var mantissa := [digits[0]];
      if |digits| > 1 {
        mantissa := mantissa + "." + digits[1..];
      }
      var exponentText := if point - 1 >= 0 then "+" + IntText(point - 1) else IntText(point - 1);
      body := mantissa + "e" + exponentText;
    }
  }

  // ---- What a number text denotes ----

  /** The number i.f times ten to the x, as mantissa and power of ten. */
  datatype Decimal = Decimal(mantissa: nat, power: int)

  predicate SameNumber(a: Decimal, b: Decimal) {
    if a.power >= b.power then a.mantissa * Pow10(a.power - b.power) == b.mantissa
    else a.mantissa == b.mantissa * Pow10(b.power - a.power)
  }

  function ExponentText(x: int): string {
    "e" + (if x >= 0 then "+" + IntText(x) else IntText(x))
  }

  /** text is an integer part, perhaps a fraction, perhaps an exponent, and denotes d. */
  ghost predicate Denotes(text: string, d: Decimal) {
    exists integer, fraction, exponent: Option<int> :: Reads(text, integer, fraction, exponent, d)
  }

  ghost predicate Reads(text: string, integer: string, fraction: string, exponent: Option<int>, d: Decimal) {
    && integer != "" && AllDigits(integer) && AllDigits(fraction)
    && text == integer + (if fraction == "" then "" else "." + fraction) + (if exponent.None? then "" else ExponentText(exponent.value))
    && d == Decimal(Nat(integer + fraction), (if exponent.None? then 0 else exponent.value) - |fraction|)
  }

  /** What repr's coefficient and exponent denote. */
  function ReprValue(coefficient: string, exponent: int): Decimal
    requires AllDigits(Coefficient(coefficient))
  {
    Decimal(Nat(Coefficient(coefficient)), exponent - |FractionPart(WithoutPointZero(coefficient))|)
  }

  // ---- A text has one reading ----

  predicate NoDigitFirst(s: string) {
    s == "" || !('0' <= s[0] <= '9')
  }

  lemma DigitsEnd(x: string, s: string, y: string, t: string)
    requires AllDigits(x) && AllDigits(y) && NoDigitFirst(s) && NoDigitFirst(t) && x + s == y + t
    ensures x == y && s == t
  {
    JcsUnique.LeadingDigitsOf(x, s);
    JcsUnique.LeadingDigitsOf(y, t);
    var w := x + s;
    assert w[..|x|] == x && w[|x|..] == s;
    assert w[..|y|] == y && w[|y|..] == t;
  }

  lemma ExponentTextInjective(a: int, b: int)
    requires ExponentText(a) == ExponentText(b)
    ensures a == b
  {
    hide Digits;
    var x, y := ExponentText(a), ExponentText(b);
    assert a >= 0 ==> x == "e" + ("+" + Digits(a)) && x[1] == '+' && x[2..] == Digits(a);
    assert a < 0 ==> x == "e" + ("-" + Digits(-a)) && x[1] == '-' && x[2..] == Digits(-a);
    assert b >= 0 ==> y == "e" + ("+" + Digits(b)) && y[1] == '+' && y[2..] == Digits(b);
    assert b < 0 ==> y == "e" + ("-" + Digits(-b)) && y[1] == '-' && y[2..] == Digits(-b);
    if a >= 0 {
      JcsUnique.DigitsInjective(a, b);
    } else {
      JcsUnique.DigitsInjective(-a, -b);
    }
  }

  function FractionText(fraction: string): string {
    if fraction == "" then "" else "." + fraction
  }

  function ExponentPart(exponent: Option<int>): string {
    if exponent.None? then "" else ExponentText(exponent.value)
  }

  lemma ExponentPartStarts(exponent: Option<int>)
    ensures var x := ExponentPart(exponent); NoDigitFirst(x) && (x == "" <==> exponent.None?) && (x != "" ==> x[0] == 'e')
  {
    hide IntText;
  }

  lemma FractionStarts(f: string, e: string)
    requires e == "" || e[0] == 'e'
    ensures var rest := FractionText(f) + e;
            && (f != "" <==> rest != "" && rest[0] == '.')
            && NoDigitFirst(rest)
            && (if f != "" then rest[1..] == f + e else rest == e)
  {
  }

  lemma FractionSplit(f: string, e: string, f': string, e': string)
    requires AllDigits(f) && AllDigits(f') && (e == "" || e[0] == 'e') && (e' == "" || e'[0] == 'e')
    requires FractionText(f) + e == FractionText(f') + e'
    ensures f == f' && e == e'
  {
    hide FractionText;
    FractionStarts(f, e);
    FractionStarts(f', e');
    if f != "" {
      DigitsEnd(f, e, f', e');
    }
  }

  /** No two ways to cut a text into integer part, fraction and exponent, so it denotes at most one decimal. */
  lemma OneReading(text: string, i: string, f: string, x: Option<int>, d: Decimal,
                   i': string, f': string, x': Option<int>, d': Decimal)
    requires Reads(text, i, f, x, d) && Reads(text, i', f', x', d')
    ensures i == i' && f == f' && x == x' && d == d'
  {
    hide ExponentText, Nat, ExponentPart, FractionText;
    ExponentPartStarts(x);
    ExponentPartStarts(x');
    var e, e' := ExponentPart(x), ExponentPart(x');
    TextIs(text, i, f, x, d);
    TextIs(text, i', f', x', d');
    FractionStarts(f, e);
    FractionStarts(f', e');
    DigitsEnd(i, FractionText(f) + e, i', FractionText(f') + e');
    FractionSplit(f, e, f', e');
    if x.Some? {
      SameExponent(x.value, x'.value);
    }
  }

  lemma SameExponent(a: int, b: int)
    requires ExponentPart(Some(a)) == ExponentPart(Some(b))
    ensures a == b
  {
    hide ExponentText;
    ExponentTextInjective(a, b);
  }

  lemma TextIs(text: string, i: string, f: string, x: Option<int>, d: Decimal)
    requires Reads(text, i, f, x, d)
    ensures text == i + (FractionText(f) + ExponentPart(x))
  {
    hide ExponentText, Nat;
  }

  // ---- The value is preserved ----

  lemma {:induction false} NatAppend(a: string, b: string)
    requires AllDigits(a) && AllDigits(b)
    ensures AllDigits(a + b) && Nat(a + b) == Nat(a) * Pow10(|b|) + Nat(b)
    decreases |b|
  {
    hide Nat, Pow10;
    if b == "" {
      assert a + b == a;
      UnfoldPow10(0);
      UnfoldNat(b);
    } else {
      var init, d := b[..|b| - 1], b[|b| - 1] as int - '0' as int;
      NatAppend(a, init);
      UnfoldNat(b);
      UnfoldNat(a + b);
      UnfoldPow10(|b|);
      assert (a + b)[..|a + b| - 1] == a + init;
      TimesTen(Nat(a), Pow10(|init|), Nat(init), d);
    }
  }

  lemma UnfoldNat(s: string)
    requires AllDigits(s)
    ensures Nat(s) == if s == "" then 0 else Nat(s[..|s| - 1]) * 10 + (s[|s| - 1] as int - '0' as int)
  {
  }

  lemma UnfoldPow10(n: nat)
    ensures Pow10(n) == if n == 0 then 1 else 10 * Pow10(n - 1)
  {
  }

  lemma TimesTen(x: nat, p: nat, y: nat, d: int)
    ensures (x * p + y) * 10 + d == x * (10 * p) + (y * 10 + d)
  {
  }

  lemma {:induction false} NatOfZeros(z: string)
    requires forall k :: 0 <= k < |z| ==> z[k] == '0'
    ensures AllDigits(z) && Nat(z) == 0
    decreases |z|
  {
    if z != "" { NatOfZeros(z[..|z| - 1]); }
  }

  lemma {:induction false} StrippedValue(s: string)
    requires AllDigits(s)
    ensures AllDigits(StripLeadingZeros(s)) && Nat(StripLeadingZeros(s)) == Nat(s)
  {
    hide Nat, StripLeadingZeros, Pow10;
    var r := StripLeadingZeros(s);
    var z := s[..|s| - |r|];
    assert s == z + r;
    NatOfZeros(z);
    NatAppend(z, r);
  }

  lemma SameIsSame(d: Decimal)
    ensures SameNumber(d, d)
  {
  }

  lemma PlainInteger(digits: string, n: int) returns (d: Decimal)
    requires digits != "" && AllDigits(digits) && 0 < n <= 21 && n >= |digits|
    ensures Denotes(digits + Zeros(n - |digits|), d) && SameNumber(d, Decimal(Nat(digits), n - |digits|))
  {
    hide Nat, Zeros, Pow10, Denotes;
    var zeros := Zeros(n - |digits|);
    NatOfZeros(zeros);
    NatAppend(digits, zeros);
    d := Decimal(Nat(digits + zeros), 0);
    ReadInteger(digits + zeros);
    UnfoldPow10(0);
  }

  lemma ReadInteger(integer: string)
    requires integer != "" && AllDigits(integer)
    ensures Denotes(integer, Decimal(Nat(integer), 0))
  {
    hide Nat;
    assert integer + "" == integer;
    assert Reads(integer, integer, "", None, Decimal(Nat(integer), 0));
  }

  lemma ReadFraction(integer: string, fraction: string)
    requires integer != "" && AllDigits(integer) && fraction != "" && AllDigits(fraction)
    ensures AllDigits(integer + fraction)
    ensures Denotes(integer + "." + fraction, Decimal(Nat(integer + fraction), -|fraction|))
  {
    hide Nat;
    assert integer + ("." + fraction) + "" == integer + "." + fraction;
    assert Reads(integer + "." + fraction, integer, fraction, None, Decimal(Nat(integer + fraction), -|fraction|));
  }

  lemma ReadScientific(integer: string, fraction: string, x: int)
    requires integer != "" && AllDigits(integer) && AllDigits(fraction)
    ensures AllDigits(integer + fraction)
    ensures Denotes(integer + (if fraction == "" then "" else "." + fraction) + ExponentText(x),
                    Decimal(Nat(integer + fraction), x - |fraction|))
  {
    hide Nat, ExponentText;
    assert Reads(integer + (if fraction == "" then "" else "." + fraction) + ExponentText(x), integer, fraction, Some(x),
                 Decimal(Nat(integer + fraction), x - |fraction|));
  }

  lemma PlainFraction(digits: string, n: int) returns (d: Decimal)
    requires digits != "" && AllDigits(digits) && 0 < n < |digits| && n <= 21
    ensures Denotes(digits[..n] + "." + digits[n..], d) && SameNumber(d, Decimal(Nat(digits), n - |digits|))
  {
    hide Nat, Pow10, Denotes;
    ReadFraction(digits[..n], digits[n..]);
    assert digits[..n] + digits[n..] == digits;
    d := Decimal(Nat(digits), n - |digits|);
    SameIsSame(d);
  }

  lemma SmallFraction(digits: string, n: int) returns (d: Decimal)
    requires digits != "" && AllDigits(digits) && -6 < n <= 0
    ensures Denotes("0." + Zeros(-n) + digits, d) && SameNumber(d, Decimal(Nat(digits), n - |digits|))
  {
    hide Nat, Pow10, Denotes, Zeros;
    var zeros := Zeros(-n);
    NatOfZeros("0" + zeros);
    NatAppend("0" + zeros, digits);
    ReadFraction("0", zeros + digits);
    assert "0" + (zeros + digits) == ("0" + zeros) + digits;
    assert "0" + "." + (zeros + digits) == "0." + zeros + digits;
    d := Decimal(Nat("0" + (zeros + digits)), n - |digits|);
    SameIsSame(d);
  }

  lemma Scientific(digits: string, n: int) returns (d: Decimal)
    requires digits != "" && AllDigits(digits)
    ensures Denotes((if |digits| > 1 then [digits[0]] + "." + digits[1..] else [digits[0]]) + ExponentText(n - 1), d)
    ensures SameNumber(d, Decimal(Nat(digits), n - |digits|))
  {
    hide Nat, Pow10, Denotes, ExponentText;
    ReadScientific([digits[0]], digits[1..], n - 1);
    assert [digits[0]] + digits[1..] == digits;
    assert |digits| > 1 ==> [digits[0]] + ("." + digits[1..]) == [digits[0]] + "." + digits[1..];
    assert |digits| == 1 ==> [digits[0]] + "" == [digits[0]] && digits[1..] == "";
    d := Decimal(Nat(digits), n - |digits|);
    SameIsSame(d);
  }

  lemma BodyValue(digits: string, n: int) returns (d: Decimal)
    requires digits != "" && AllDigits(digits)
    ensures Denotes(Body(digits, n), d) && SameNumber(d, Decimal(Nat(digits), n - |digits|))
  {
    hide Denotes, SameNumber, Nat, IntText, Zeros;
    if 0 < n <= 21 {
      if n >= |digits| {
        d := PlainInteger(digits, n);
      } else {
        d := PlainFraction(digits, n);
      }
    } else if -6 < n <= 0 {
      d := SmallFraction(digits, n);
    } else {
      d := Scientific(digits, n);
      var mantissa := if |digits| > 1 then [digits[0]] + "." + digits[1..] else [digits[0]];
      assert Body(digits, n) == mantissa + ExponentText(n - 1);
    }
  }

  /** The printed text, its sign aside, denotes exactly the number that coefficient and exponent denote. */
  lemma NumberKeepsValue(coefficient: string, exponent: int)
    requires AllDigits(Coefficient(coefficient))
    ensures exists d :: Denotes(NumberText(false, coefficient, exponent), d) && SameNumber(d, ReprValue(coefficient, exponent))
  {
    hide Body, Denotes, WithoutPointZero, Point, StripLeadingZeros, SameNumber, Nat;
    var digits := SignificantDigits(coefficient);
    StrippedValue(Coefficient(coefficient));
    var c := WithoutPointZero(coefficient);
    assert |Coefficient(coefficient)| == |IntegerPart(c)| + |FractionPart(c)|;
    if digits == "" {
      UnfoldNat("");
      var d := ZeroText(exponent - |FractionPart(WithoutPointZero(coefficient))|);
      assert Denotes(NumberText(false, coefficient, exponent), d) && SameNumber(d, ReprValue(coefficient, exponent));
    } else {
      var d := BodyValue(digits, DecimalPoint(coefficient, exponent));
      assert "" + Body(digits, DecimalPoint(coefficient, exponent)) == Body(digits, DecimalPoint(coefficient, exponent));
      assert Denotes(NumberText(false, coefficient, exponent), d) && SameNumber(d, ReprValue(coefficient, exponent));
    }
  }

  lemma ZeroText(power: int) returns (d: Decimal)
    ensures Denotes("0", d) && SameNumber(d, Decimal(0, power))
  {
    hide Denotes, Pow10;
    NatOfZeros("0");
    ReadInteger("0");
    d := Decimal(0, 0);
  }

  // ---- The layout of section 3.2.2.3 ----

  predicate NoTrailingZero(s: string) {
    s != "" && s[|s| - 1] != '0'
  }

  function StripTrailingZeros(s: string): (r: string)
    ensures r <= s && (r != "" ==> NoTrailingZero(r))
    ensures forall k :: |r| <= k < |s| ==> s[k] == '0'
  {
    if s != "" && s[|s| - 1] == '0' then StripTrailingZeros(s[..|s| - 1]) else s
  }

  /**
   ECMAScript's Number::toString for the value whose shortest significand is the k digits in s and
   whose decimal point stands after n of them.
   */
  function EcmaText(s: string, n: int): string
    requires NoTrailingZero(s)
  {
    var k := |s|;
    if k <= n <= 21 then s + Zeros(n - k)
    else if 0 < n <= 21 then s[..n] + "." + s[n..]
    else if -6 < n <= 0 then "0." + Zeros(-n) + s
    else if k == 1 then s + ExponentText(n - 1)
    else s[..1] + "." + s[1..] + ExponentText(n - 1)
  }

  /** The printed layout is ECMAScript's exactly when no trailing zero would show behind the point. */
  lemma LayoutIsEcmaIff(digits: string, n: int)
    requires StripTrailingZeros(digits) != ""
    ensures Body(digits, n) == EcmaText(StripTrailingZeros(digits), n) <==>
            NoTrailingZero(digits) || |digits| <= n <= 21
  {
    hide Body, EcmaText, StripTrailingZeros;
    var s := StripTrailingZeros(digits);
    if NoTrailingZero(digits) {
      assert s == digits;
      SameLayout(digits, n);
    } else if |digits| <= n <= 21 {
      WholeNumberLayout(digits, s, n);
    } else {
      LayoutLengths(digits, s, n);
    }
  }

  lemma WholeNumberLayout(digits: string, s: string, n: int)
    requires NoTrailingZero(s) && s <= digits && |digits| <= n <= 21
    requires forall k :: |s| <= k < |digits| ==> digits[k] == '0'
    ensures Body(digits, n) == EcmaText(s, n)
  {
    hide Zeros, IntText;
    assert digits + Zeros(n - |digits|) == s + Zeros(n - |s|);
  }

  lemma SameLayout(digits: string, n: int)
    requires NoTrailingZero(digits)
    ensures Body(digits, n) == EcmaText(digits, n)
  {
    hide IntText, Zeros;
    assert digits[..1] == [digits[0]];
    if !(-6 < n <= 21) {
      var x := if n - 1 >= 0 then "+" + IntText(n - 1) else IntText(n - 1);
      var mantissa := if |digits| > 1 then [digits[0]] + "." + digits[1..] else [digits[0]];
      assert mantissa + "e" + x == mantissa + ("e" + x);
      if |digits| == 1 { assert digits == [digits[0]]; }
    }
  }

  lemma LayoutLengths(digits: string, s: string, n: int)
    requires NoTrailingZero(s) && |s| < |digits| && !(|digits| <= n <= 21)
    ensures |Body(digits, n)| > |EcmaText(s, n)|
  {
    hide IntText, Zeros;
  }

  /** Python's repr of a finite positive float: plain digits with a point, or one digit, fraction and exponent. */
  predicate ReprShaped(coefficient: string, exponent: Option<int>) {
    var c := WithoutPointZero(coefficient);
    && AllDigits(Coefficient(coefficient))
    && (FractionPart(c) != "" ==> NoTrailingZero(FractionPart(c)))
    && (exponent.None? ==> |IntegerPart(c)| <= 16 && (|IntegerPart(c)| > 1 ==> IntegerPart(c)[0] != '0'))
    && (exponent.Some? ==> |IntegerPart(c)| == 1 && IntegerPart(c)[0] != '0')
  }

  /** Everything repr prints for a non-zero float comes out in ECMAScript's layout, the sign in front. */
  lemma ReprComesOutAsEcma(negative: bool, coefficient: string, exponent: Option<int>)
    requires ReprShaped(coefficient, exponent) && SignificantDigits(coefficient) != ""
    ensures var x := if exponent.None? then 0 else exponent.value;
            && StripTrailingZeros(SignificantDigits(coefficient)) != ""
            && NumberText(negative, coefficient, x) ==
               (if negative then "-" else "") +
               EcmaText(StripTrailingZeros(SignificantDigits(coefficient)), DecimalPoint(coefficient, x))
  {
    hide Body, WithoutPointZero, Point, EcmaText, StripTrailingZeros, StripLeadingZeros;
    var x := if exponent.None? then 0 else exponent.value;
    var c := WithoutPointZero(coefficient);
    var digits := SignificantDigits(coefficient);
    SignificantHasNonZero(digits);
    SignificantEnd(IntegerPart(c), FractionPart(c), digits);
    LayoutIsEcmaIff(digits, DecimalPoint(coefficient, x));
  }

  lemma SignificantHasNonZero(digits: string)
    requires digits != "" && digits[0] != '0'
    ensures StripTrailingZeros(digits) != ""
  {
    hide StripTrailingZeros;
    var s := StripTrailingZeros(digits);
    assert forall k :: |s| <= k < |digits| ==> digits[k] == '0';
  }

  lemma StrippedEnd(all: string)
    requires StripLeadingZeros(all) != ""
    ensures all != "" && StripLeadingZeros(all)[|StripLeadingZeros(all)| - 1] == all[|all| - 1]
    ensures all[0] != '0' ==> StripLeadingZeros(all) == all
  {
    hide StripLeadingZeros;
    var digits := StripLeadingZeros(all);
    var k := |digits| - 1;
    assert digits[k] == all[|all| - |digits| + k];
  }

  lemma SignificantEnd(integer: string, fraction: string, digits: string)
    requires digits == StripLeadingZeros(integer + fraction) && digits != ""
    ensures fraction != "" && NoTrailingZero(fraction) ==> NoTrailingZero(digits)
    ensures integer != "" && integer[0] != '0' ==> digits == integer + fraction
    ensures fraction == "" ==> |digits| <= |integer|
  {
    hide StripLeadingZeros;
    StrippedEnd(integer + fraction);
  }
}
