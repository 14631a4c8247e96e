/** Identifiers and timestamps as the database compares them: as text.
    A time is a number of nanoseconds since Go's zero time. */
module Stamps {

  type Time = int

  const ZERO_TIME: Time := 0
  const SECOND: int := 1_000_000_000

  // Byte-wise string order, used by Go's < on strings and by SQLite's BINARY collation.
  predicate StrLess(a: string, b: string) {
    b != [] && (a == [] || a[0] < b[0] || (a[0] == b[0] && StrLess(a[1..], b[1..])))
  }

  lemma {:induction false} StrLessAsymmetric(a: string, b: string)
    ensures !(StrLess(a, b) && StrLess(b, a))
  {
    if a != [] && b != [] {
      StrLessAsymmetric(a[1..], b[1..]);
    }
  }

  lemma {:induction false} StrLessTotal(a: string, b: string)
    ensures a == b || StrLess(a, b) || StrLess(b, a)
  {
    if a != [] && b != [] {
      StrLessTotal(a[1..], b[1..]);
      assert a == [a[0]] + a[1..] && b == [b[0]] + b[1..];
    }
  }

  lemma {:induction false} StrLessTransitive(a: string, b: string, c: string)
    requires StrLess(a, b) && StrLess(b, c)
    ensures StrLess(a, c)
  {
    if a != [] && a[0] == b[0] == c[0] {
      StrLessTransitive(a[1..], b[1..], c[1..]);
    }
  }

  /** The order of strings: at the first place where they differ, a has the smaller character or has ended. */
  lemma {:induction false} StrLessMeaning(a: string, b: string)
    ensures StrLess(a, b) <==> exists k: nat :: FirstLess(a, b, k)
  {
    if StrLess(a, b) {
      if a == [] || a[0] < b[0] {
        assert FirstLess(a, b, 0);
      } else {
        StrLessMeaning(a[1..], b[1..]);
        var k: nat :| FirstLess(a[1..], b[1..], k);
        assert a == [a[0]] + a[1..] && b == [b[0]] + b[1..];
        assert a[..k + 1] == [a[0]] + a[1..][..k] && b[..k + 1] == [b[0]] + b[1..][..k];
        assert FirstLess(a, b, k + 1);
      }
    }
    if k: nat :| FirstLess(a, b, k) && k > 0 {
      assert a[..k][0] == b[..k][0];
      assert a[1..][..k - 1] == a[..k][1..] && b[1..][..k - 1] == b[..k][1..];
      assert FirstLess(a[1..], b[1..], k - 1);
      StrLessMeaning(a[1..], b[1..]);
    }
  }

  ghost predicate FirstLess(a: string, b: string, k: nat) {
    k <= |a| && k < |b| && a[..k] == b[..k] && (k == |a| || a[k] < b[k])
  }

  function Digits(n: nat, k: nat): string {
    if k == 0 then [] else Digits(n / 10, k - 1) + ["0123456789"[n % 10]]
  }

  function TrimZeros(s: string): string {
    if s != [] && s[|s| - 1] == '0' then TrimZeros(s[..|s| - 1]) else s
  }

  // What RFC3339Nano prints after the whole seconds: nine digits without trailing zeros.
  function FractionText(nanos: nat): string {
    if nanos == 0 then "Z" else "." + TrimZeros(Digits(nanos, 9)) + "Z"
  }

  // ----- what the fraction says -----

  predicate IsDigit(c: char) {
    '0' <= c <= '9'
  }

  ghost predicate AllDigits(d: string) {
    forall c | c in d :: IsDigit(c)
  }

  function Power(k: nat): nat {
    if k == 0 then 1 else 10 * Power(k - 1)
  }

  // A string of digits read as a number.
  ghost function ValueOf(d: string): nat
    requires AllDigits(d)
  {
    if d == [] then 0
    else
      assert d[|d| - 1] in d;
      10 * ValueOf(d[..|d| - 1]) + (d[|d| - 1] as nat - '0' as nat)
  }

  lemma {:induction false} DigitsRead(n: nat, k: nat)
    requires n < Power(k)
    ensures |Digits(n, k)| == k && AllDigits(Digits(n, k)) && ValueOf(Digits(n, k)) == n
  {
    if k > 0 {
      DigitsRead(n / 10, k - 1);
      var d := Digits(n / 10, k - 1);
      var c := "0123456789"[n % 10];
      assert c as nat == '0' as nat + n % 10;
      assert (d + [c])[..k - 1] == d;
    }
  }

  lemma {:induction false} TrimReads(d: string)
    requires AllDigits(d)
    ensures var t := TrimZeros(d);
      && |t| <= |d| && AllDigits(t) && ValueOf(d) == ValueOf(t) * Power(|d| - |t|)
      && (t != [] ==> t[|t| - 1] != '0')
  {
    if d != [] && d[|d| - 1] == '0' {
      var e := d[..|d| - 1];
      TrimReads(e);
      Shifted(ValueOf(TrimZeros(e)), Power(|e| - |TrimZeros(e)|));
    }
  }

  lemma Shifted(v: nat, p: nat)
    ensures 10 * (v * p) == v * (10 * p)
  {
  }

  ghost predicate Says(text: string, d: string, nanos: nat) {
    && text == "." + d + "Z" && 0 < |d| <= 9 && AllDigits(d) && d[|d| - 1] != '0'
    && nanos == ValueOf(d) * Power(9 - |d|)
  }

  /** A fraction of a second prints as its decimal places, the last of them not zero, and no fraction as none. */
  lemma FractionReads(nanos: nat)
    requires nanos < SECOND
    ensures if nanos == 0 then FractionText(nanos) == "Z" else exists d :: Says(FractionText(nanos), d, nanos)
  {
    PowerOfNine();
    hide Digits, Power, TrimZeros, ValueOf;
    DigitsRead(nanos, 9);
    TrimReads(Digits(nanos, 9));
    var d := TrimZeros(Digits(nanos, 9));
    if nanos > 0 {
      NotNothing(d, Power(9 - |d|));
      assert Says(FractionText(nanos), d, nanos);
    }
  }

  lemma PowerOfNine()
    ensures Power(9) == SECOND
  {
    assert Power(3) == 1_000;
    assert Power(6) == 1_000_000;
  }

  lemma NotNothing(d: string, p: nat)
    requires AllDigits(d) && ValueOf(d) * p > 0
    ensures d != []
  {
  }

  /** The order of two printed timestamps. Up to the seconds the text has fixed width and grows with
      time; after them the fractions are compared as text. */
  predicate StampLess(a: Time, b: Time) {
    a / SECOND < b / SECOND ||
    (a / SECOND == b / SECOND && StrLess(FractionText(a % SECOND), FractionText(b % SECOND)))
  }

  lemma StampLessAsymmetric(a: Time, b: Time)
    ensures !(StampLess(a, b) && StampLess(b, a))
  {
    StrLessAsymmetric(FractionText(a % SECOND), FractionText(b % SECOND));
  }

  lemma StampLessTransitive(a: Time, b: Time, c: Time)
    requires StampLess(a, b) && StampLess(b, c)
    ensures StampLess(a, c)
  {
    if a / SECOND == b / SECOND == c / SECOND {
      StrLessTransitive(FractionText(a % SECOND), FractionText(b % SECOND), FractionText(c % SECOND));
    }
  }

  // Times that print no differently from each other.
  predicate SameStamp(a: Time, b: Time) {
    a / SECOND == b / SECOND && FractionText(a % SECOND) == FractionText(b % SECOND)
  }

  lemma StampLessTotal(a: Time, b: Time)
    ensures SameStamp(a, b) || StampLess(a, b) || StampLess(b, a)
    ensures SameStamp(a, b) ==> !StampLess(a, b) && !StampLess(b, a)
  {
    StrLessTotal(FractionText(a % SECOND), FractionText(b % SECOND));
    StrLessAsymmetric(FractionText(a % SECOND), FractionText(a % SECOND));
  }

  // Text order is time order as soon as two times are a second apart.
  lemma StampOrderBeyondASecond(a: Time, b: Time)
    requires b - a >= SECOND
    ensures StampLess(a, b) && !StampLess(b, a)
  {
    assert b / SECOND >= (a + SECOND) / SECOND == a / SECOND + 1;
  }

  lemma StampOrderAcross(a: Time, b: Time)
    ensures b - a >= SECOND ==> StampLess(a, b) && !StampLess(b, a)
  {
    if b - a >= SECOND {
      StampOrderBeyondASecond(a, b);
    }
  }

  // Within a second it is not: half past a second sorts before the second itself.
  lemma StampOrderFailsWithinASecond()
    ensures StampLess(SECOND / 2, 0) && !StampLess(0, SECOND / 2)
  {
    var half := FractionText(SECOND / 2);
    assert half[0] == '.';
    assert StrLess(half, "Z");
    StrLessAsymmetric(half, "Z");
  }

  /** Exactly which gaps make the text order safe: times more than gap apart always print in order if and
      only if the gap is within a nanosecond of a whole second or more. */
  lemma TextOrderSafeIff(gap: nat)
    ensures (forall a: Time, b: Time | b - a > gap :: StampLess(a, b)) <==> gap >= SECOND - 1
  {
    if gap >= SECOND - 1 {
      forall a: Time, b: Time | b - a > gap ensures StampLess(a, b) {
        StampOrderBeyondASecond(a, b);
      }
    } else {
      var f := FractionText(gap + 1);
      assert f[0] == '.' && FractionText(0) == "Z";
      assert StrLess(f, "Z");
      StrLessAsymmetric(f, "Z");
      assert !StampLess(0, gap + 1);
    }
  }
}
