/** Text as Python orders and renders it. Dates are ISO text, so a comparison of text is a
    comparison of dates (hotelcontrols/evaluator/intervals.py). */
module Texts {

  /** Python's `a <= b` on strings. */
  predicate Le(a: string, b: string)
  {
    a == "" || (b != "" && (a[0] < b[0] || (a[0] == b[0] && Le(a[1..], b[1..]))))
  }

  /** Python's `a < b` on strings. */
  predicate Lt(a: string, b: string)
  {
    !Le(b, a)
  }

  /** Where these texts first differ the first is the lesser, or there is only more of the second. */
  predicate LessAt(a: string, b: string, i: nat)
  {
    i <= |a| && i < |b| && a[..i] == b[..i] && (i == |a| || a[i] < b[i])
  }

  ghost predicate LessSomewhere(a: string, b: string)
  {
    exists i: nat :: LessAt(a, b, i)
  }

  /** Texts are ordered letter by letter. */
  lemma {:induction false} LtMeans(a: string, b: string)
    ensures Lt(a, b) <==> LessSomewhere(a, b)
    decreases |a| + |b|
  {
    if b == "" {
    } else if a == "" {
      assert LessAt(a, b, 0);
    } else if a[0] == b[0] {
      LtMeans(a[1..], b[1..]);
      forall i: nat ensures LessAt(a[1..], b[1..], i) <==> LessAt(a, b, i + 1) {
        OneFurther(a, b, i);
      }
      if i: nat :| LessAt(a, b, i) {
        assert i > 0 && LessAt(a[1..], b[1..], i - 1);
      }
    } else {
      assert LessAt(a, b, 0) <==> a[0] < b[0];
      forall i: nat | i > 0 ensures !LessAt(a, b, i) {
        assert i <= |a| && i <= |b| ==> a[..i][0] == a[0] && b[..i][0] == b[0];
      }
    }
  }

  lemma OneFurther(a: string, b: string, i: nat)
    requires a != "" && b != "" && a[0] == b[0]
    ensures LessAt(a[1..], b[1..], i) <==> LessAt(a, b, i + 1)
  {
    if i + 1 <= |a| && i + 1 <= |b| {
      assert a[..i + 1] == [a[0]] + a[1..][..i];
      assert b[..i + 1] == [b[0]] + b[1..][..i];
      assert a[..i + 1] == b[..i + 1] <==> a[1..][..i] == b[1..][..i] by {
        assert a[..i + 1][1..] == a[1..][..i] && b[..i + 1][1..] == b[1..][..i];
      }
    }
  }

  function Max(a: string, b: string): string { if Le(a, b) then b else a }

  /** `text[:10]`: the calendar day an ISO date or datetime starts with. */
  function Day(text: string): string
  {
    if |text| <= 10 then text else text[..10]
  }

  lemma {:induction false} LeReflexive(a: string)
    ensures Le(a, a)
  {
    if a != "" {
      LeReflexive(a[1..]);
    }
  }

  lemma {:induction false} LeTotal(a: string, b: string)
    ensures Le(a, b) || Le(b, a)
  {
    if a != "" && b != "" && a[0] == b[0] {
      LeTotal(a[1..], b[1..]);
    }
  }

  lemma {:induction false} LeTransitive(a: string, b: string, c: string)
    requires Le(a, b) && Le(b, c)
    ensures Le(a, c)
  {
    if a != "" && a[0] == b[0] && b[0] == c[0] {
      LeTransitive(a[1..], b[1..], c[1..]);
    }
  }

  lemma {:induction false} LeAntisymmetric(a: string, b: string)
    requires Le(a, b) && Le(b, a)
    ensures a == b
  {
    if a != "" {
      LeAntisymmetric(a[1..], b[1..]);
      assert a == [a[0]] + a[1..] && b == [b[0]] + b[1..];
    }
  }

  /** Truncating both sides keeps their order: the days of two ordered moments are ordered. */
  lemma {:induction false} PrefixMonotone(a: string, b: string, n: nat)
    requires Le(a, b)
    ensures Le(if |a| <= n then a else a[..n], if |b| <= n then b else b[..n])
  {
    if n > 0 && a != "" && a[0] == b[0] {
      PrefixMonotone(a[1..], b[1..], n - 1);
      assert |a| > n ==> a[..n][1..] == a[1..][..n - 1];
      assert |b| > n ==> b[..n][1..] == b[1..][..n - 1];
    }
  }

  lemma DayMonotone(a: string, b: string)
    requires Le(a, b)
    ensures Le(Day(a), Day(b))
  {
    PrefixMonotone(a, b, 10);
  }

  // ------------------------------------------------------------------ characters
  predicate IsSpace(c: char)
  {
    c == ' ' || c == '\t' || c == '\n' || c == '\r' || c == '\U{000B}' || c == '\U{000C}'
  }

  predicate IsDigit(c: char) { '0' <= c <= '9' }

  function LowerChar(c: char): char
  {
    if 'A' <= c <= 'Z' then (c as int + 32) as char else c
  }

  /** Python's `lower()`, and `casefold()`, on ASCII text. */
  function Lower(s: string): (t: string)
    ensures |t| == |s|
    ensures forall i :: 0 <= i < |s| ==> t[i] == LowerChar(s[i])
  {
    seq(|s|, i requires 0 <= i < |s| => LowerChar(s[i]))
  }

  /** `not s.strip()`. */
  predicate Blank(s: string)
  {
    forall i :: 0 <= i < |s| ==> IsSpace(s[i])
  }

  /** The capital letters of ASCII read as their small ones, and every other character as itself. */
  lemma LowerMeans()
    ensures Lower("ABCDEFGHIJKLMNOPQRSTUVWXYZ") == "abcdefghijklmnopqrstuvwxyz"
    ensures forall c :: c !in "ABCDEFGHIJKLMNOPQRSTUVWXYZ" ==> LowerChar(c) == c
  {
    var capitals, small := "ABCDEFGHIJKLMNOPQRSTUVWXYZ", "abcdefghijklmnopqrstuvwxyz";
    forall i | 0 <= i < 26 ensures LowerChar(capitals[i]) == small[i] && capitals[i] == (65 + i) as char {
    }
    forall c | 'A' <= c <= 'Z' ensures c in capitals {
      assert capitals[c as int - 65] == c;
    }
  }

  /** The part of a name before its first dot: `"room.number"` names the entity `"room"`. */
  function EntityOf(name: string): string
  {
    if name == "" || name[0] == '.' then "" else [name[0]] + EntityOf(name[1..])
  }

  // ------------------------------------------------------------------ numbers
  function DigitChar(d: nat): (c: char)
    requires d < 10
    ensures IsDigit(c)
  {
    (d + 48) as char
  }

  function DigitValue(c: char): (d: nat)
    ensures IsDigit(c) ==> d < 10
  {
    if IsDigit(c) then c as int - 48 else 0
  }

  predicate AllDigits(s: string)
  {
    forall i :: 0 <= i < |s| ==> IsDigit(s[i])
  }

  /** Decimal digits of a natural number, as Python's `str` writes them. */
  function NatText(n: nat): (s: string)
    ensures s != "" && AllDigits(s)
  {
    if n < 10 then [DigitChar(n)] else NatText(n / 10) + [DigitChar(n % 10)]
  }

  function IntText(n: int): (s: string)
    ensures s != ""
  {
    if n < 0 then "-" + NatText(-n) else NatText(n)
  }

  /** `int(s)` for a run of digits. */
  function NatOf(s: string): nat
  {
    if s == "" then 0 else 10 * NatOf(s[..|s| - 1]) + DigitValue(s[|s| - 1])
  }

  function IntOf(s: string): int
  {
    if s != "" && s[0] == '-' then 0 - NatOf(s[1..]) else NatOf(s)
  }

  lemma {:induction false} NatRoundTrip(n: nat)
    ensures NatOf(NatText(n)) == n
  {
    var s := NatText(n);
    if n < 10 {
      assert s[..|s| - 1] == "";
      assert NatOf("") == 0;
    } else {
      NatRoundTrip(n / 10);
      assert s[..|s| - 1] == NatText(n / 10);
    }
  }

  lemma IntRoundTrip(n: int)
    ensures IntOf(IntText(n)) == n
  {
    if n < 0 {
      NatRoundTrip(-n);
      assert IntText(n)[1..] == NatText(-n);
    } else {
      NatRoundTrip(n);
      assert IsDigit(NatText(n)[0]);
    }
  }

  /** The position of the decimal point, or the length if there is none. */
  function PointAt(s: string): (i: nat)
    ensures i <= |s|
    ensures i < |s| ==> s[i] == '.'
  {
    if s == "" || s[0] == '.' then 0 else 1 + PointAt(s[1..])
  }

  function PowerOfTen(n: nat): (p: int)
    ensures p > 0
  {
    if n == 0 then 1 else 10 * PowerOfTen(n - 1)
  }

  /** The number a decimal text denotes: sign, whole digits, fraction digits. */
  function DecimalOf(s: string): real
  {
    var negative := s != "" && s[0] == '-';
    var body := if negative then s[1..] else s;
    var point := PointAt(body);
    var fraction := if point == |body| then "" else body[point + 1..];
    var magnitude := NatOf(body[..point]) as real
                     + NatOf(fraction) as real / PowerOfTen(|fraction|) as real;
    if negative then -magnitude else magnitude
  }

  lemma OneMoreDigit(a: nat, p: int, b: nat, d: nat)
    ensures 10 * (a * p + b) + d == a * (10 * p) + (10 * b + d)
  {
    assert a * (10 * p) == 10 * (a * p);
  }

  lemma {:induction false} NatOfJoined(a: string, b: string)
    ensures NatOf(a + b) == NatOf(a) * PowerOfTen(|b|) + NatOf(b)
  {
    hide DigitValue;
    if b == "" {
      assert a + b == a;
    } else {
      var n := |b| - 1;
      NatOfJoined(a, b[..n]);
      LastDigit(a + b);
      LastDigit(b);
      assert (a + b)[..|a + b| - 1] == a + b[..n];
      OneMoreDigit(NatOf(a), PowerOfTen(n), NatOf(b[..n]), DigitValue(b[n]));
    }
  }

  lemma LastDigit(s: string)
    requires s != ""
    ensures NatOf(s) == 10 * NatOf(s[..|s| - 1]) + DigitValue(s[|s| - 1])
  {
  }

  lemma {:induction false} PointAfterDigits(whole: string, rest: string)
    requires AllDigits(whole)
    ensures PointAt(whole + "." + rest) == |whole|
  {
    var s := whole + "." + rest;
    if whole != "" {
      assert IsDigit(whole[0]);
      PointAfterDigits(whole[1..], rest);
      assert s[1..] == whole[1..] + "." + rest;
    }
  }

  /** The size of a number whose point is after these digits. */
  function Sized(whole: string, fraction: string): real
  {
    NatOf(whole) as real + NatOf(fraction) as real / PowerOfTen(|fraction|) as real
  }

  lemma UnsignedParts(whole: string, fraction: string)
    requires whole != "" && AllDigits(whole)
    ensures DecimalOf(whole + "." + fraction) == Sized(whole, fraction)
  {
    hide NatOf, PowerOfTen;
    var body := whole + "." + fraction;
    PointAfterDigits(whole, fraction);
    assert IsDigit(whole[0]) && body[0] == whole[0];
    assert body[..|whole|] == whole && body[|whole| + 1..] == fraction;
  }

  lemma MinusNegates(body: string)
    requires body != "" && body[0] != '-'
    ensures DecimalOf("-" + body) == -DecimalOf(body)
  {
    hide NatOf, PowerOfTen;
    assert ("-" + body)[1..] == body;
  }

  lemma SignedInt(negative: bool, digits: string)
    requires digits != "" && digits[0] != '-'
    ensures IntOf((if negative then "-" else "") + digits) == if negative then 0 - NatOf(digits) else NatOf(digits)
  {
    hide NatOf;
    var s := (if negative then "-" else "") + digits;
    assert s[if negative then 1 else 0..] == digits;
  }

  /** A decimal text denotes what its digits without the point do, divided by ten for each digit after
      the point. */
  lemma PointDivides(negative: bool, whole: string, fraction: string)
    requires whole != "" && AllDigits(whole)
    ensures var sign := if negative then "-" else "";
            DecimalOf(sign + (whole + "." + fraction)) * PowerOfTen(|fraction|) as real
            == IntOf(sign + (whole + fraction)) as real
  {
    hide NatOf, PowerOfTen, DecimalOf, IntOf;
    var body := whole + "." + fraction;
    UnsignedParts(whole, fraction);
    assert IsDigit(whole[0]) && (whole + fraction)[0] == whole[0] && body[0] == whole[0];
    MinusNegates(body);
    assert "" + body == body;
    SignedInt(negative, whole + fraction);
    NatOfJoined(whole, fraction);
    Scaled(NatOf(whole), NatOf(fraction), PowerOfTen(|fraction|));
  }

  lemma Scaled(n: nat, f: nat, d: int)
    requires d > 0
    ensures (n as real + f as real / d as real) * d as real == (n * d + f) as real
    ensures (-(n as real + f as real / d as real)) * d as real == -((n * d + f) as real)
  {
    assert (f as real / d as real) * d as real == f as real;
  }
}
