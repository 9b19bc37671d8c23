/** Canonical decimal strings, as the control hash stores epochs: compared and incremented
    digit by digit, never converted to a floating-point number. */
module Decimals {

  const MAX_EPOCH: string := "9223372036854775807"
  const MAX_EPOCH_VALUE: nat := 9223372036854775807

  predicate IsDigit(c: char) {
    '0' <= c <= '9'
  }

  predicate AllDigits(s: string) {
    forall i :: 0 <= i < |s| ==> IsDigit(s[i])
  }

  /** "0", or a digit string that does not start with '0'. */
  predicate Canonical(s: string) {
    && |s| > 0
    && AllDigits(s)
    && (s[0] != '0' || |s| == 1)
  }

  function Digit(c: char): (d: nat)
    requires IsDigit(c)
    ensures d < 10
  {
    (c as int) - ('0' as int)
  }

  /** The number a digit string denotes. */
  function Val(s: string): nat
    requires AllDigits(s)
  {
    if s == [] then 0 else 10 * Val(s[..|s| - 1]) + Digit(s[|s| - 1])
  }

  function Pow10(n: nat): (p: nat)
    ensures p > 0
  {
    if n == 0 then 1 else 10 * Pow10(n - 1)
  }

  /** Byte-wise string order, first difference from the left. */
  predicate LexLe(a: string, b: string) {
    a == [] || (b != [] && (a[0] < b[0] || (a[0] == b[0] && LexLe(a[1..], b[1..]))))
  }

  /** The scripts' `decimal`: a canonical string, length first, then text order against the bound. */
  predicate Decimal(s: string) {
    Canonical(s) && (|s| < 19 || (|s| == 19 && LexLe(s, MAX_EPOCH)))
  }

  /** The scripts' `le`. */
  predicate Le(a: string, b: string) {
    |a| < |b| || (|a| == |b| && LexLe(a, b))
  }

  // ---------------------------------------------------------------- values

  lemma {:induction false} ValBound(s: string)
    requires AllDigits(s)
    ensures Val(s) < Pow10(|s|)
  {
    if s != [] {
      ValBound(s[..|s| - 1]);
    }
  }

  lemma {:induction false} ValCons(s: string)
    requires AllDigits(s) && s != []
    ensures Val(s) == Digit(s[0]) * Pow10(|s| - 1) + Val(s[1..])
  {
    if |s| == 1 {
      assert Val(s[..0]) == 0 && Pow10(0) == 1;
    } else {
      var t := s[..|s| - 1];
      ValCons(t);
      assert t[1..] == s[1..][..|s| - 2];
      assert Pow10(|s| - 1) == 10 * Pow10(|s| - 2);
      MulTen(Digit(s[0]), Pow10(|s| - 2));
      hide Pow10, Digit;
      assert Val(s) == 10 * Val(t) + Digit(s[|s| - 1]);
    }
  }

  lemma {:induction false} ValLower(s: string)
    requires Canonical(s) && s != "0"
    ensures Pow10(|s| - 1) <= Val(s)
  {
    ValCons(s);
    var d := Digit(s[0]);
    assert d >= 1;
    assert d * Pow10(|s| - 1) >= Pow10(|s| - 1) by {
      MulAtLeast(d, Pow10(|s| - 1));
    }
  }

  lemma MulAtLeast(d: nat, p: nat)
    requires d >= 1
    ensures d * p >= p
  {
    assert d * p == p + (d - 1) * p;
  }

  lemma {:induction false} Pow10Monotonic(m: nat, n: nat)
    requires m <= n
    ensures Pow10(m) <= Pow10(n)
    decreases n
  {
    if m < n {
      Pow10Monotonic(m, n - 1);
    }
  }

  lemma {:induction false} LexIsOrder(a: string, b: string)
    requires AllDigits(a) && AllDigits(b) && |a| == |b|
    ensures LexLe(a, b) <==> Val(a) <= Val(b)
    ensures Val(a) == Val(b) <==> a == b
  {
    if a == [] {
    } else {
      ValCons(a);
      ValCons(b);
      ValBound(a[1..]);
      ValBound(b[1..]);
      LexIsOrder(a[1..], b[1..]);
      var p := Pow10(|a| - 1);
      var x, y := Digit(a[0]), Digit(b[0]);
      if x < y {
        LeadingDigit(x, y, Val(a[1..]), Val(b[1..]), p);
      } else if y < x {
        LeadingDigit(y, x, Val(b[1..]), Val(a[1..]), p);
      } else {
        assert a == [a[0]] + a[1..] && b == [b[0]] + b[1..];
      }
    }
  }

  lemma LeadingDigit(x: nat, y: nat, u: nat, v: nat, p: nat)
    requires x < y && u < p
    ensures x * p + u < y * p + v
  {
    MulAtLeast(y - x, p);
    assert y * p == x * p + (y - x) * p;
  }

  lemma {:induction false} ShorterIsSmaller(a: string, b: string)
    requires Canonical(a) && Canonical(b) && |a| < |b|
    ensures Val(a) < Val(b)
  {
    ValBound(a);
    ValLower(b);
    Pow10Monotonic(|a|, |b| - 1);
  }

  /** `le` is the numeric order on canonical strings, and equal numbers have equal strings. */
  lemma {:induction false} LeIsNumericOrder(a: string, b: string)
    requires Canonical(a) && Canonical(b)
    ensures Le(a, b) <==> Val(a) <= Val(b)
    ensures Val(a) == Val(b) <==> a == b
  {
    if |a| == |b| {
      LexIsOrder(a, b);
    } else if |a| < |b| {
      ShorterIsSmaller(a, b);
    } else {
      ShorterIsSmaller(b, a);
    }
  }

  lemma {:induction false} MaxEpochValue()
    ensures Canonical(MAX_EPOCH)
    ensures Val(MAX_EPOCH) == MAX_EPOCH_VALUE
  {
    PrefixValue("9223372", 9223372);
    ValAppend("9223372", "036854");
    ValAppend("9223372036854", "775807");
    MaxEpochText();
    SixDigits("036854", 36854);
    SixDigits("775807", 775807);
    assert Pow10(6) == 1000000 by { assert Pow10(3) == 1000; }
  }

  lemma MaxEpochText()
    ensures "9223372" + "036854" == "9223372036854" && "9223372036854" + "775807" == MAX_EPOCH
  {
  }

  lemma PrefixValue(s: string, n: nat)
    requires s == "9223372" && n == 9223372
    ensures AllDigits(s) && Val(s) == n
  {
    assert s == "9" + "223372";
    SixDigits("223372", 223372);
    ValAppend("9", "223372");
    assert Val("9") == 9 by { assert "9"[..0] == ""; }
    assert Pow10(6) == 1000000 by { assert Pow10(3) == 1000; }
  }

  lemma SixDigits(s: string, n: nat)
    requires |s| == 6 && AllDigits(s)
    requires n == 100000 * Digit(s[0]) + 10000 * Digit(s[1]) + 1000 * Digit(s[2])
                  + 100 * Digit(s[3]) + 10 * Digit(s[4]) + Digit(s[5])
    ensures Val(s) == n
  {
    assert s[..5][..4] == s[..4] && s[..4][..3] == s[..3] && s[..3][..2] == s[..2] && s[..2][..1] == s[..1];
    assert Val(s[..1]) == Digit(s[0]) by { assert s[..1][..0] == ""; }
    assert Val(s[..2]) == 10 * Val(s[..1]) + Digit(s[1]);
    assert Val(s[..3]) == 10 * Val(s[..2]) + Digit(s[2]);
    assert Val(s[..4]) == 10 * Val(s[..3]) + Digit(s[3]);
    assert Val(s[..5]) == 10 * Val(s[..4]) + Digit(s[4]);
  }

  lemma {:induction false} ValAppend(a: string, b: string)
    requires AllDigits(a) && AllDigits(b)
    ensures AllDigits(a + b) && Val(a + b) == Val(a) * Pow10(|b|) + Val(b)
  {
    if b == [] {
      assert a + b == a;
    } else {
      var b0 := b[..|b| - 1];
      ValAppend(a, b0);
      assert (a + b)[..|a + b| - 1] == a + b0;
      assert Pow10(|b|) == 10 * Pow10(|b0|);
      assert Val(a) * Pow10(|b|) == 10 * (Val(a) * Pow10(|b0|)) by {
        MulTen(Val(a), Pow10(|b0|));
      }
    }
  }

  lemma MulTen(x: nat, y: nat)
    ensures x * (10 * y) == 10 * (x * y)
  {
  }

  /** `decimal` accepts exactly the canonical strings of numbers that fit a signed 64-bit integer. */
  lemma {:induction false} DecimalIsBounded(s: string)
    requires Canonical(s)
    ensures Decimal(s) <==> Val(s) <= MAX_EPOCH_VALUE
  {
    MaxEpochValue();
    LeIsNumericOrder(s, MAX_EPOCH);
    assert |MAX_EPOCH| == 19;
  }

  // ---------------------------------------------------------------- successor

  /** The canonical string of a number. */
  function Show(n: nat): (s: string)
    ensures Canonical(s) && Val(s) == n
  {
    var last := ['0' + (n % 10) as char];
    if n < 10 then
      assert last[..0] == [];
      last
    else
      var front := Show(n / 10);
      assert (front + last)[..|front|] == front;
      front + last
  }

  /** The canonical string of the next number. */
  function Succ(s: string): (t: string)
    requires Canonical(s)
    ensures Canonical(t) && Val(t) == Val(s) + 1
  {
    Show(Val(s) + 1)
  }

  /** The right-to-left carry loop: digits already written plus the carry equal the
      successor of the digits read so far. */
  method Increment(epoch: string) returns (next: string)
    requires Canonical(epoch)
    ensures next == Succ(epoch)
  {
    hide Val, Pow10, LexLe, Show;
    var chars: string := [];
    NothingWritten(epoch);
    var carry := 1;
    var i := |epoch|;
    while i > 0
      invariant 0 <= i <= |epoch|
      invariant carry == 0 || carry == 1
      invariant |chars| == |epoch| - i && AllDigits(chars)
      invariant Val(chars) + carry * Pow10(|chars|) == Val(epoch[i..]) + 1
      invariant carry == 1 ==> forall k :: 0 <= k < |chars| ==> chars[k] == '0'
      invariant carry == 0 && i == 0 ==> chars[0] != '0'
    {
      ghost var old_chars := chars;
      ghost var old_carry := carry;
      var digit := Digit(epoch[i - 1]) + carry;
      if digit == 10 {
        digit := 0;
        carry := 1;
      } else {
        carry := 0;
      }
      chars := ['0' + digit as char] + chars;
      i := i - 1;
      IncrementStep(epoch[i..], old_chars, old_carry, chars, carry);
      assert epoch[i..][1..] == epoch[i + 1..];
    }
    assert epoch[0..] == epoch;
    if carry == 1 {
      LastCarry(chars);
      chars := ['1'] + chars;
    }
    next := chars;
    LeIsNumericOrder(next, Succ(epoch));
  }

  lemma NothingWritten(epoch: string)
    ensures epoch[|epoch|..] == [] && Val([]) + 1 * Pow10(0) == Val([]) + 1
  {
  }

  lemma LastCarry(chars: string)
    requires AllDigits(chars)
    ensures AllDigits(['1'] + chars) && Val(['1'] + chars) == Val(chars) + Pow10(|chars|)
  {
    hide Val, Pow10;
    var s := ['1'] + chars;
    assert s[0] == '1' && s[1..] == chars && Digit('1') == 1;
    ValCons(s);
  }

  lemma IncrementStep(tail: string, chars: string, carry: nat, chars': string, carry': nat)
    requires AllDigits(tail) && |tail| > 0 && AllDigits(chars) && |chars| == |tail| - 1
    requires carry <= 1 && carry' <= 1
    requires Val(chars) + carry * Pow10(|chars|) == Val(tail[1..]) + 1
    requires |chars'| == |tail| && AllDigits(chars') && chars'[1..] == chars
    requires Digit(tail[0]) + carry == Digit(chars'[0]) + 10 * carry'
    ensures Val(chars') + carry' * Pow10(|chars'|) == Val(tail) + 1
  {
    ValCons(tail);
    ValCons(chars');
    var p := Pow10(|chars|);
    assert Pow10(|chars'|) == 10 * p;
    Distribute(Digit(tail[0]), carry, Digit(chars'[0]), carry', p);
  }

  lemma Distribute(x: nat, c: nat, y: nat, c': nat, p: nat)
    requires x + c == y + 10 * c'
    ensures x * p + c * p == y * p + c' * (10 * p)
  {
    assert (x + c) * p == (y + 10 * c') * p;
  }

  /** Two successive epochs never coincide, and the order is kept. */
  lemma SuccIsNext(s: string)
    requires Decimal(s) && s != MAX_EPOCH
    ensures Decimal(Succ(s)) && Le(s, Succ(s)) && !Le(Succ(s), s) && Succ(s) != s
  {
    MaxEpochValue();
    LeIsNumericOrder(s, MAX_EPOCH);
    LeIsNumericOrder(s, Succ(s));
    LeIsNumericOrder(Succ(s), s);
    DecimalIsBounded(s);
    DecimalIsBounded(Succ(s));
  }
}
