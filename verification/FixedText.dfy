/** Printing and parsing fixed-point numbers. */
module FixedText {
  import opened Arithmetic
  import opened Basics
  import opened FixedPoint

  // ----- Digits -----

  function Digit(d: nat): char
    requires d < 10
  {
    ('0' as int + d) as char
  }

  predicate IsDigit(c: char) {
    '0' <= c <= '9'
  }

  function DigitValue(c: char): nat
    requires IsDigit(c)
  {
    c as int - '0' as int
  }

  predicate AllDigits(s: string) {
    forall i :: 0 <= i < |s| ==> IsDigit(s[i])
  }

  /** The number read after `v` and the digits of `s`. */
  function Reading(v: nat, s: string): nat
    requires AllDigits(s)
    decreases |s|
  {
    if s == "" then v else Reading(v * 10 + DigitValue(s[0]), s[1..])
  }

  lemma {:induction false} ReadingConcat(v: nat, a: string, b: string)
    requires AllDigits(a) && AllDigits(b)
    ensures AllDigits(a + b) && Reading(v, a + b) == Reading(Reading(v, a), b)
    decreases |a|
  {
    if a == "" {
      assert a + b == b;
    } else {
      assert (a + b)[1..] == a[1..] + b;
      ReadingConcat(v * 10 + DigitValue(a[0]), a[1..], b);
    }
  }

  lemma {:induction false} ReadingGrows(v: nat, s: string)
    requires AllDigits(s)
    ensures v <= Reading(v, s)
    decreases |s|
  {
    if s != "" {
      ReadingGrows(v * 10 + DigitValue(s[0]), s[1..]);
    }
  }

  // ----- Printing -----

  /** The digits of a number, without leading zeros. */
  function IntPart(n: nat): string {
    if n < 10 then [Digit(n)] else IntPart(n / 10) + [Digit(n % 10)]
  }

  /** The last `len` digits of a number, with leading zeros. */
  function Show(n: nat, len: nat): string {
    if len == 0 then "" else Show(n / 10, len - 1) + [Digit(n % 10)]
  }

  /** The number without its last `k` digits. */
  function Cut(n: nat, k: nat): nat {
    if k == 0 then n else Cut(n / 10, k - 1)
  }

  function WithDecimal(n: nat, decimal: nat): string {
    if decimal == 0 then IntPart(n) else IntPart(Cut(n, decimal)) + "." + Show(n, decimal)
  }

  lemma OneDigit(v: nat, s: string, d: nat)
    requires AllDigits(s) && d < 10
    ensures AllDigits(s + [Digit(d)]) && Reading(v, s + [Digit(d)]) == Reading(v, s) * 10 + d
  {
    ReadingConcat(v, s, [Digit(d)]);
  }

  lemma {:induction false} IntPartReads(n: nat)
    ensures AllDigits(IntPart(n)) && IntPart(n) != "" && Reading(0, IntPart(n)) == n
    ensures n > 0 ==> IntPart(n)[0] != '0'
  {
    if n < 10 {
      assert IntPart(n) == "" + [Digit(n)];
      OneDigit(0, "", n);
    } else {
      IntPartReads(n / 10);
      OneDigit(0, IntPart(n / 10), n % 10);
    }
  }

  lemma {:induction false} ShowReads(n: nat, k: nat)
    ensures AllDigits(Show(n, k)) && |Show(n, k)| == k
    ensures Reading(Cut(n, k), Show(n, k)) == n
  {
    if k > 0 {
      ShowReads(n / 10, k - 1);
      OneDigit(Cut(n, k), Show(n / 10, k - 1), n % 10);
    }
  }

  // The loops that print.

  lemma {:induction false} ShowFirst(n: nat, k: nat)
    ensures Show(n, k + 1) == [Digit(Cut(n, k) % 10)] + Show(n, k) && Cut(n, k + 1) == Cut(n, k) / 10
  {
    if k > 0 {
      ShowFirst(n / 10, k - 1);
      assert Show(n, k + 1) == Show(n / 10, k) + [Digit(n % 10)];
    }
  }

  lemma {:induction false} ShowSplits(n: nat, j: nat, k: nat)
    ensures Show(n, j + k) == Show(Cut(n, k), j) + Show(n, k) && Cut(n, j + k) == Cut(Cut(n, k), j)
    decreases k
  {
    if k > 0 {
      ShowSplits(n / 10, j, k - 1);
    } else {
      assert Show(Cut(n, 0), j) + "" == Show(n, j);
    }
  }

  lemma {:induction false} ShowIsIntPart(m: nat, k: nat)
    requires k > 0 && Cut(m, k) == 0 && (k > 1 ==> Cut(m, k - 1) > 0)
    ensures Show(m, k) == IntPart(m)
    decreases k
  {
    if k == 1 {
      assert Cut(m, 1) == Cut(m / 10, 0) == m / 10;
      assert Show(m, 1) == Show(m / 10, 0) + [Digit(m % 10)];
    } else {
      ShowIsIntPart(m / 10, k - 1);
      CutOfZero(k - 1, m / 10);
    }
  }

  lemma {:induction false} CutOfZero(k: nat, n: nat)
    ensures n == 0 ==> Cut(n, k) == 0
  {
    if k > 0 && n == 0 {
      CutOfZero(k - 1, 0);
    }
  }

  /** The digits printed so far, with the point in its place. */
  function Pointed(s: string, at: nat, e: nat): string
    requires at <= |s| && e <= |s|
  {
    if e <= at || at == |s| then s[..e] else s[..at] + "." + s[at..e]
  }

  method ToStringWithDecimal(n: nat, decimal: nat) returns (rtn: string)
    ensures rtn == WithDecimal(n, decimal)
  {
    var val, str := n, [];
    while val > 0 || |str| <= decimal
      invariant val == Cut(n, |str|) && |Show(n, |str|)| == |str|
      invariant forall i :: 0 <= i < |str| ==> str[i] == Show(n, |str|)[|str| - 1 - i]
      invariant |str| > decimal + 1 ==> Cut(n, |str| - 1) > 0
      decreases val, decimal + 1 - |str|
    {
      ShowFirst(n, |str|);
      str := str + [Digit(val % 10)];
      val := val / 10;
    }
    ghost var s, at := Show(n, |str|), |str| - decimal;
    PrintedIs(n, decimal, |str|);
    rtn := [];
    for i := |str| downto 0
      invariant rtn == Pointed(s, at, |str| - i)
    {
      if i + 1 == decimal {
        rtn := rtn + ['.'];
      }
      rtn := rtn + [str[i]];
      assert s[..|str| - i] == s[..|str| - i - 1] + [s[|str| - i - 1]];
    }
    assert s[..|s|] == s && s[at..|s|] == s[at..];
  }

  lemma PrintedIs(n: nat, decimal: nat, len: nat)
    requires len > decimal && Cut(n, len) == 0 && (len > decimal + 1 ==> Cut(n, len - 1) > 0)
    ensures var s := Show(n, len);
            && |s| == len && s[..len - decimal] == IntPart(Cut(n, decimal)) && s[len - decimal..] == Show(n, decimal)
  {
    var j := len - decimal;
    ShowSplits(n, j, decimal);
    ShowReads(Cut(n, decimal), j);
    ShowReads(n, decimal);
    if j > 1 {
      ShowSplits(n, j - 1, decimal);
    }
    ShowIsIntPart(Cut(n, decimal), j);
  }

  // ----- Trailing zeros -----

  function StripZeros(s: string): string {
    if s != "" && s[|s| - 1] == '0' then StripZeros(s[..|s| - 1]) else s
  }

  function StripPoint(s: string): string {
    if s != "" && s[|s| - 1] == '.' then s[..|s| - 1] else s
  }

  /** A number as text; the smallest 64-bit value has none.  A negative one is stripped of zeros a second time. */
  function Text(f: Fixed): string
    requires f.decimal >= 0 && Int64(f.value)
    decreases if f.value < 0 then 1 else 0, 1
  {
    if f.value == MIN_INT64 then ""
    else if f.decimal == 0 then Unstripped(f)
    else StripPoint(StripZeros(Unstripped(f)))
  }

  function Unstripped(f: Fixed): string
    requires f.decimal >= 0 && MIN_INT64 < f.value < TWO_63
    decreases if f.value < 0 then 1 else 0, 0
  {
    if f.value < 0 then "-" + Text(Fixed(-f.value, f.decimal)) else WithDecimal(f.value, f.decimal)
  }

  method ToString(f: Fixed) returns (rtn: string)
    requires f.decimal >= 0 && Int64(f.value)
    ensures rtn == Text(f)
    decreases if f.value < 0 then 1 else 0
  {
    if f.value < 0 {
      MultiplyOverflowIff(f.value, -1);
      if MultiplyOverflow(f.value, -1) {
        return "";
      }
      rtn := ToString(Fixed(-f.value, f.decimal));
      rtn := "-" + rtn;
    } else {
      rtn := ToStringWithDecimal(f.value, f.decimal);
    }
    if f.decimal == 0 {
      return;
    }
    HasOther(f);
    rtn := Strip(rtn);
  }

  predicate HasNonZero(s: string) {
    exists i :: 0 <= i < |s| && s[i] != '0'
  }

  /** What is stripped has a sign or a point, so that something is left. */
  lemma HasOther(f: Fixed)
    requires f.decimal > 0 && MIN_INT64 < f.value < TWO_63
    ensures HasNonZero(Unstripped(f))
  {
    if f.value < 0 {
      assert Unstripped(f)[0] == '-';
    } else {
      assert Unstripped(f)[|IntPart(Cut(f.value, f.decimal))|] == '.';
    }
  }

  method Strip(all: string) returns (rtn: string)
    requires HasNonZero(all)
    ensures rtn == StripPoint(StripZeros(all))
  {
    rtn := all;
    while rtn[|rtn| - 1] == '0'
      invariant rtn != "" && StripZeros(rtn) == StripZeros(all)
      invariant HasNonZero(rtn)
      decreases |rtn|
    {
      rtn := rtn[..|rtn| - 1];
    }
    if rtn[|rtn| - 1] == '.' {
      rtn := rtn[..|rtn| - 1];
    }
  }

  // ----- Parsing -----

  datatype Error = Format | Overflow | DoubleDot | AbnormalChar
  datatype Result<+T> = Ok(value: T) | Err(error: Error)

  /** The digits of `rest`, after a value read so far and `dec` digits behind the point; with a `decimal` that is
      not negative, reading stops when there are enough. */
  function ParseFrom(value: nat, dec: nat, started: bool, rest: string, decimal: int): Result<Fixed>
    decreases |rest|
  {
    if rest == "" then Ok(Fixed(value, dec))
    else if IsDigit(rest[0]) then
      var v := value * 10 + DigitValue(rest[0]);
      if v >= TWO_63 then Err(Overflow)
      else if started && 0 <= decimal <= dec + 1 then Ok(Fixed(v, dec + 1))
      else ParseFrom(v, if started then dec + 1 else dec, started, rest[1..], decimal)
    else if rest[0] == '.' then
      if started then Err(DoubleDot) else ParseFrom(value, dec, true, rest[1..], decimal)
    else Err(AbnormalChar)
  }

  function ToDecimals(r: Result<Fixed>, decimal: int): Result<Fixed> {
    if r.Err? || decimal < 0 then r
    else
      var c := Changed(r.value, decimal);
      if c.Some? then Ok(c.value) else Err(Overflow)
  }

  function Parse(amount: string, decimal: int): Result<Fixed> {
    if amount == "" || amount[0] == '.' then Err(Format)
    else if amount[0] == '-' then
      var r := Parse(amount[1..], decimal);
      if r.Err? then r else Ok(Fixed(-r.value.value, r.value.decimal))
    else ToDecimals(ParseFrom(0, 0, false, amount, decimal), decimal)
  }

  lemma {:induction false} ParseFromFits(value: nat, dec: nat, started: bool, rest: string, decimal: int)
    requires value < TWO_63
    ensures ParseFrom(value, dec, started, rest, decimal).Ok? ==>
              0 <= ParseFrom(value, dec, started, rest, decimal).value.value < TWO_63
    decreases |rest|
  {
    if rest != "" {
      if IsDigit(rest[0]) {
        var v := value * 10 + DigitValue(rest[0]);
        if v < TWO_63 {
          ParseFromFits(v, if started then dec + 1 else dec, started, rest[1..], decimal);
        }
      } else if rest[0] == '.' && !started {
        ParseFromFits(value, dec, true, rest[1..], decimal);
      }
    }
  }

  lemma ChangedFits(f: Fixed, target: int)
    requires 0 <= f.value < TWO_63
    ensures Changed(f, target).Some? ==> 0 <= Changed(f, target).value.value < TWO_63
  {
    if target < f.decimal {
      var q, r := TDivIs(f.value, Pow10(f.decimal - target));
    }
  }

  /** What is parsed can be negated. */
  lemma {:induction false} ParseFits(amount: string, decimal: int)
    ensures Parse(amount, decimal).Ok? ==> MIN_INT64 < Parse(amount, decimal).value.value < TWO_63
  {
    if amount != "" && amount[0] == '-' {
      ParseFits(amount[1..], decimal);
    } else if amount != "" && amount[0] != '.' {
      var r := ParseFrom(0, 0, false, amount, decimal);
      ParseFromFits(0, 0, false, amount, decimal);
      if r.Ok? {
        ChangedFits(r.value, decimal);
      }
    }
  }

  /** Ten times the value and one digit more, with the two overflow tests. */
  method AppendDigit(value: int, num: nat) returns (r: Option<int>)
    requires 0 <= value < TWO_63 && num < 10
    ensures r == if value * 10 + num < TWO_63 then Some(value * 10 + num) else None
  {
    MultiplyOverflowIff(value, 10);
    if MultiplyOverflow(value, 10) {
      return None;
    }
    var sum := Wrap64(value * 10 + num);
    WrapsNegative(value * 10 + num);
    if sum < 0 {
      return None;
    }
    r := Some(sum);
  }

  lemma WrapsNegative(x: int)
    requires 0 <= x < TWO_63 + 10
    ensures if x < TWO_63 then Wrap64(x) == x else Wrap64(x) < 0
  {
  }

  method ParsePositiveFixed(amount: string, decimal: int) returns (r: Result<Fixed>)
    ensures r == ToDecimals(ParseFrom(0, 0, false, amount, decimal), decimal)
  {
    ghost var goal := ParseFrom(0, 0, false, amount, decimal);
    var value: int, dec: nat, decimalStart := 0, 0, false;
    var i := 0;
    assert amount[0..] == amount;
    while i < |amount|
      invariant 0 <= i <= |amount| && 0 <= value < TWO_63
      invariant ParseFrom(value, dec, decimalStart, amount[i..], decimal) == goal
    {
      if '0' <= amount[i] <= '9' {
        var next := AppendDigit(value, amount[i] as int - '0' as int);
        if next.None? {
          return Err(Overflow);
        }
        value := next.value;
        if decimalStart {
          dec := dec + 1;
          if decimal >= 0 && dec >= decimal {
            break;
          }
        }
      } else if amount[i] == '.' {
        if decimalStart {
          return Err(DoubleDot);
        }
        decimalStart := true;
      } else {
        return Err(AbnormalChar);
      }
      i := i + 1;
    }
    assert goal == Ok(Fixed(value, dec));
    r := Ok(Fixed(value, dec));
    if decimal >= 0 {
      var c := ChangeDecimal(Fixed(value, dec), decimal);
      r := if c.Some? then Ok(c.value) else Err(Overflow);
    }
  }

  method NewFixed(amount: string, decimal: int) returns (r: Result<Fixed>)
    ensures r == Parse(amount, decimal)
    decreases |amount|
  {
    if |amount| == 0 || amount[0] == '.' {
      return Err(Format);
    }
    if amount[0] == '-' {
      r := NewFixed(amount[1..], decimal);
      if r.Ok? {
        ParseFits(amount[1..], decimal);
        MultiplyOverflowIff(r.value.value, -1);
        if MultiplyOverflow(r.value.value, -1) {
          return Err(Overflow);
        }
        r := Ok(Fixed(-r.value.value, r.value.decimal));
      }
      return;
    }
    r := ParsePositiveFixed(amount, decimal);
  }

  // ----- Round trip -----

  function Zeros(k: nat): (s: string)
    ensures |s| == k && forall i :: 0 <= i < k ==> s[i] == '0'
  {
    seq(k, i => '0')
  }

  lemma {:induction false} ReadingZeros(v: nat, k: nat)
    ensures Reading(v, Zeros(k)) == v * Pow10(k)
    decreases k
  {
    if k > 0 {
      assert Zeros(k)[1..] == Zeros(k - 1);
      ReadingZeros(v * 10, k - 1);
      assert v * 10 * Pow10(k - 1) == v * Pow10(k);
    }
  }

  /** What was stripped were zeros, and all there were. */
  lemma {:induction false} StrippedZeros(s: string) returns (k: nat)
    ensures s == StripZeros(s) + Zeros(k) && (StripZeros(s) == "" || StripZeros(s)[|StripZeros(s)| - 1] != '0')
    ensures k == 0 <==> StripZeros(s) == s
    decreases |s|
  {
    k := 0;
    if s != "" && s[|s| - 1] == '0' {
      k := StrippedZeros(s[..|s| - 1]);
      assert s == s[..|s| - 1] + "0" && Zeros(k) + "0" == Zeros(k + 1);
      k := k + 1;
    }
  }

  /** Zeros are stripped from a part that follows something else as from the part alone. */
  lemma {:induction false} StripTail(front: string, tail: string)
    requires front != "" && front[|front| - 1] != '0'
    ensures StripZeros(front + tail) == front + StripZeros(tail)
    decreases |tail|
  {
    if tail == "" {
      assert front + tail == front;
    } else if tail[|tail| - 1] == '0' {
      assert (front + tail)[..|front + tail| - 1] == front + tail[..|tail| - 1];
      StripTail(front, tail[..|tail| - 1]);
    }
  }

  lemma {:induction false} ParseInteger(v: nat, digits: string, rest: string, decimal: int)
    requires AllDigits(digits) && Reading(v, digits) < TWO_63
    ensures ParseFrom(v, 0, false, digits + rest, decimal) == ParseFrom(Reading(v, digits), 0, false, rest, decimal)
    decreases |digits|
  {
    if digits == "" {
      assert digits + rest == rest;
    } else {
      var w := v * 10 + DigitValue(digits[0]);
      assert (digits + rest)[1..] == digits[1..] + rest;
      ReadingGrows(w, digits[1..]);
      ParseInteger(w, digits[1..], rest, decimal);
    }
  }

  lemma {:induction false} ParseFraction(v: nat, dec: nat, digits: string, decimal: nat)
    requires AllDigits(digits) && Reading(v, digits) < TWO_63 && dec + |digits| <= decimal
    ensures ParseFrom(v, dec, true, digits, decimal) == Ok(Fixed(Reading(v, digits), dec + |digits|))
    decreases |digits|
  {
    if digits != "" {
      var w := v * 10 + DigitValue(digits[0]);
      ReadingGrows(w, digits[1..]);
      if dec + 1 < decimal {
        ParseFraction(w, dec + 1, digits[1..], decimal);
      }
    }
  }

  /** Digits, perhaps a point and more digits: read to as many decimals as asked for, if there are not more. */
  lemma ParseNumber(whole: string, fraction: string, decimal: nat)
    requires AllDigits(whole) && whole != "" && AllDigits(fraction) && |fraction| <= decimal
    requires Reading(0, whole + fraction + Zeros(decimal - |fraction|)) < TWO_63
    ensures var text := if fraction == "" then whole else whole + "." + fraction;
            Parse(text, decimal) == Ok(Fixed(Reading(0, whole + fraction + Zeros(decimal - |fraction|)), decimal))
  {
    var text := if fraction == "" then whole else whole + "." + fraction;
    var zeros := Zeros(decimal - |fraction|);
    assert text[0] == whole[0];
    ReadingConcat(0, whole, fraction);
    ReadingConcat(0, whole + fraction, zeros);
    ReadingGrows(Reading(0, whole), fraction);
    ReadingGrows(Reading(0, whole + fraction), zeros);
    ReadingZeros(Reading(0, whole + fraction), |zeros|);
    if fraction == "" {
      assert whole + "" == whole;
      ParseInteger(0, whole, "", decimal);
    } else {
      assert text == whole + ("." + fraction) && ("." + fraction)[1..] == fraction;
      ParseInteger(0, whole, "." + fraction, decimal);
      ParseFraction(Reading(0, whole), 0, fraction, decimal);
    }
  }

  /** The text of a number that is not negative: its parts, without the trailing zeros. */
  lemma TextParts(n: nat, decimal: nat)
    requires decimal > 0 && n < TWO_63
    ensures var whole, fraction := IntPart(Cut(n, decimal)), StripZeros(Show(n, decimal));
            Text(Fixed(n, decimal)) == if fraction == "" then whole else whole + "." + fraction
  {
    ShowReads(n, decimal);
    StripParts(IntPart(Cut(n, decimal)), Show(n, decimal));
  }

  lemma StripParts(whole: string, tail: string)
    requires AllDigits(tail)
    ensures StripPoint(StripZeros(whole + "." + tail)) ==
            if StripZeros(tail) == "" then whole else whole + "." + StripZeros(tail)
  {
    var fraction := StripZeros(tail);
    StripTail(whole + ".", tail);
    var k := StrippedZeros(tail);
    if fraction == "" {
      assert whole + "." + "" == whole + "." && (whole + ".")[..|whole|] == whole;
    } else {
      assert fraction[|fraction| - 1] == tail[|fraction| - 1];
    }
  }

  lemma RoundTripPositive(n: nat, decimal: nat)
    requires n < TWO_63
    ensures Parse(Text(Fixed(n, decimal)), decimal) == Ok(Fixed(n, decimal))
  {
    if decimal == 0 {
      IntPartReads(n);
      assert IntPart(n) + "" + Zeros(0) == IntPart(n);
      ParseNumber(IntPart(n), "", 0);
    } else {
      var whole, fraction := IntPart(Cut(n, decimal)), StripZeros(Show(n, decimal));
      IntPartReads(Cut(n, decimal));
      ShowReads(n, decimal);
      var k := StrippedZeros(Show(n, decimal));
      assert AllDigits(fraction) by { assert forall i :: 0 <= i < |fraction| ==> fraction[i] == Show(n, decimal)[i]; }
      assert whole + fraction + Zeros(k) == whole + Show(n, decimal);
      ReadingConcat(0, whole, Show(n, decimal));
      TextParts(n, decimal);
      ParseNumber(whole, fraction, decimal);
    }
  }

  /** The last `k` digits are zeros. */
  predicate EndsInZeros(n: nat, k: nat) {
    k == 0 || (n % 10 == 0 && EndsInZeros(n / 10, k - 1))
  }

  lemma {:induction false} EndsInZerosIff(n: nat, k: nat)
    ensures EndsInZeros(n, k) <==> n % Pow10(k) == 0
  {
    if k > 0 {
      EndsInZerosIff(n / 10, k - 1);
      TenDivides(n, Pow10(k - 1));
    }
  }

  lemma TenDivides(n: nat, p: nat)
    requires p > 0
    ensures n % (10 * p) == 0 <==> n % 10 == 0 && (n / 10) % p == 0
  {
    var q, r := Divide(n / 10, p);
    DivUnique(n / 10, p, q, r);
    assert n == 10 * (p * q + r) + n % 10;
    assert 10 * (p * q) == (10 * p) * q;
    DivUnique(n, 10 * p, q, 10 * r + n % 10);
  }

  lemma {:induction false} ShowZeros(n: nat, k: nat)
    ensures |Show(n, k)| == k && (EndsInZeros(n, k) <==> StripZeros(Show(n, k)) == "")
  {
    if k > 0 {
      ShowZeros(n / 10, k - 1);
      var s := Show(n, k);
      assert s[..k - 1] == Show(n / 10, k - 1) && s[k - 1] == Digit(n % 10);
    }
  }

  /** Whether the text of a negative number loses digits: it has decimals, none of them is written, and the
      integer part ends in zero. */
  predicate LosesZeros(n: nat, decimal: nat) {
    decimal > 0 && EndsInZeros(n, decimal + 1)
  }

  lemma {:induction false} EndsInZerosSplits(n: nat, j: nat, k: nat)
    ensures EndsInZeros(n, j + k) <==> EndsInZeros(n, j) && EndsInZeros(Cut(n, j), k)
    decreases j
  {
    if j > 0 {
      EndsInZerosSplits(n / 10, j - 1, k);
    }
  }

  lemma IntPartEnds(q: nat)
    ensures IntPart(q)[|IntPart(q)| - 1] == Digit(q % 10)
  {
  }

  /** If it loses nothing, the text is that of the absolute value after the sign. */
  lemma NegativeText(n: int, decimal: nat)
    requires 0 < n < TWO_63 && !LosesZeros(n, decimal)
    ensures Text(Fixed(-n, decimal)) == "-" + Text(Fixed(n, decimal))
  {
    if decimal > 0 {
      var t := Text(Fixed(n, decimal));
      LastWritten(n, decimal);
      assert ("-" + t)[|t|] == t[|t| - 1];
    }
  }

  /** The text does not end in a zero or a point. */
  lemma LastWritten(n: nat, decimal: nat)
    requires n < TWO_63 && decimal > 0 && !EndsInZeros(n, decimal + 1)
    ensures var t := Text(Fixed(n, decimal)); t != "" && t[|t| - 1] != '0' && t[|t| - 1] != '.'
  {
    var fraction := StripZeros(Show(n, decimal));
    TextParts(n, decimal);
    ShowZeros(n, decimal);
    if fraction != "" {
      ShowReads(n, decimal);
      var k := StrippedZeros(Show(n, decimal));
      assert fraction[|fraction| - 1] == Show(n, decimal)[|fraction| - 1];
    } else {
      EndsInZerosSplits(n, decimal, 1);
      assert !EndsInZeros(Cut(n, decimal), 1);
      IntPartReads(Cut(n, decimal));
      IntPartEnds(Cut(n, decimal));
    }
  }

  /** The text of a number that ends in zeros is its integer part, which ends in zero itself. */
  lemma WholeOnly(n: int, decimal: nat) returns (q: nat)
    requires 0 < n < TWO_63 && LosesZeros(n, decimal)
    ensures q > 0 && q % 10 == 0 && n == q * Pow10(decimal) && Text(Fixed(n, decimal)) == IntPart(q)
  {
    q := Cut(n, decimal);
    EndsInZerosSplits(n, decimal, 1);
    AllShownZero(n, decimal);
    TextParts(n, decimal);
    assert q % 10 == 0 by { assert EndsInZeros(q, 1); }
  }

  lemma AllShownZero(n: nat, k: nat)
    requires EndsInZeros(n, k)
    ensures StripZeros(Show(n, k)) == "" && n == Cut(n, k) * Pow10(k)
  {
    ShowZeros(n, k);
    ShowReads(n, k);
    var d := StrippedZeros(Show(n, k));
    assert Show(n, k) == Zeros(k);
    ReadingZeros(Cut(n, k), k);
  }

  /** If it loses zeros, what is read back is smaller by a power of ten. */
  lemma NegativeLoses(n: int, decimal: nat)
    requires 0 < n < TWO_63 && LosesZeros(n, decimal)
    ensures Parse(Text(Fixed(-n, decimal)), decimal) != Ok(Fixed(-n, decimal))
  {
    var q := WholeOnly(n, decimal);
    var whole := IntPart(q);
    IntPartReads(q);
    IntPartEnds(q);
    var k := SignedZeros(whole);
    assert Text(Fixed(-n, decimal)) == "-" + StripZeros(whole);
    SmallerRead(StripZeros(whole), k, q, decimal, n);
  }

  /** Stripping the integer part after a sign. */
  lemma SignedZeros(whole: string) returns (k: nat)
    requires AllDigits(whole) && whole != "" && whole[0] != '0' && whole[|whole| - 1] == '0'
    ensures k > 0 && whole == StripZeros(whole) + Zeros(k) && AllDigits(StripZeros(whole)) && StripZeros(whole) != ""
    ensures StripPoint(StripZeros("-" + whole)) == "-" + StripZeros(whole)
  {
    k := StrippedZeros(whole);
    var rest := StripZeros(whole);
    assert forall i :: 0 <= i < |rest| ==> rest[i] == whole[i];
    assert rest == "" ==> whole == Zeros(k);
    StripTail("-", whole);
    assert ("-" + rest)[|rest|] == rest[|rest| - 1];
  }

  lemma SmallerRead(rest: string, k: nat, q: nat, decimal: nat, n: int)
    requires AllDigits(rest) && rest != "" && k > 0 && q > 0
    requires Reading(0, rest + Zeros(k)) == q && n == q * Pow10(decimal) && n < TWO_63
    ensures Parse("-" + rest, decimal) != Ok(Fixed(-n, decimal))
  {
    var r := Reading(0, rest);
    ReadingConcat(0, rest, Zeros(k));
    ReadingZeros(r, k);
    LessAtEveryScale(r, k, q, decimal);
    assert rest + "" + Zeros(decimal) == rest + Zeros(decimal);
    ReadingConcat(0, rest, Zeros(decimal));
    ReadingZeros(r, decimal);
    ParseNumber(rest, "", decimal);
    assert ("-" + rest)[1..] == rest;
  }

  lemma LessAtEveryScale(r: nat, k: nat, q: nat, decimal: nat)
    requires q == r * Pow10(k) && k > 0 && q > 0
    ensures r * Pow10(decimal) < q * Pow10(decimal)
  {
    var p, d := Pow10(k), Pow10(decimal);
    assert p >= 10 && r > 0;
    assert r * p == r + r * (p - 1) && r * (p - 1) >= r * 9 by { assert r * (p - 1) == r * 9 + r * (p - 10); }
    MulGap(d, r, q);
    assert d * r == r * d && d * q == q * d;
  }

  /** A number comes back from its text exactly if it is not negative, or not the smallest value and not one whose
      text loses zeros. */
  lemma RoundTripIff(f: Fixed)
    requires f.decimal >= 0 && Int64(f.value)
    ensures Parse(Text(f), f.decimal) == Ok(f) <==>
            f.value >= 0 || (f.value > MIN_INT64 && !LosesZeros(-f.value, f.decimal))
  {
    if f.value >= 0 {
      RoundTripPositive(f.value, f.decimal);
    } else if f.value > MIN_INT64 {
      if LosesZeros(-f.value, f.decimal) {
        NegativeLoses(-f.value, f.decimal);
      } else {
        RoundTripNegative(-f.value, f.decimal);
      }
    }
  }

  lemma RoundTripNegative(n: int, decimal: nat)
    requires 0 < n < TWO_63 && !LosesZeros(n, decimal)
    ensures Parse(Text(Fixed(-n, decimal)), decimal) == Ok(Fixed(-n, decimal))
  {
    NegativeText(n, decimal);
    RoundTripPositive(n, decimal);
    ParseSigned(Text(Fixed(n, decimal)), decimal);
  }

  lemma ParseSigned(t: string, decimal: int)
    requires Parse(t, decimal).Ok?
    ensures Parse("-" + t, decimal) ==
            Ok(Fixed(-Parse(t, decimal).value.value, Parse(t, decimal).value.decimal))
  {
    assert ("-" + t)[1..] == t;
  }

  /** In terms of powers of ten: digits are lost if the value is a multiple of one power more than its decimals. */
  lemma LosesZerosIff(n: nat, decimal: nat)
    ensures LosesZeros(n, decimal) <==> decimal > 0 && n % Pow10(decimal + 1) == 0
  {
    EndsInZerosIff(n, decimal + 1);
  }

  /** An example: -10.00 prints as "-1". */
  lemma MinusTen()
    ensures Text(Fixed(-1000, 2)) == "-1" && LosesZeros(1000, 2)
  {
    TenPrints();
    StripTail("-1", "0");
    assert StripZeros("0") == StripZeros("");
  }

  lemma TenPrints()
    ensures Text(Fixed(1000, 2)) == "10"
  {
    assert Show(1000, 2) == Show(100, 1) + "0" == "00";
    assert Cut(1000, 2) == Cut(100, 1) == 10 && IntPart(10) == IntPart(1) + "0" == "10";
    assert "00"[..1] == "0" && StripZeros("00") == StripZeros("0") == "";
    TextParts(1000, 2);
  }
}
