/** JSON values and the gateway's comparison of sort values, exact across integers and floats. */
module Values {
  import Decimals

  /** Integers are those JSON parsing keeps exact (signed or unsigned 64-bit); a float is the
      finite number it denotes. */
  datatype Json =
    | Null
    | Bool(b: bool)
    | Int(i: int)
    | Float(x: real)
    | Str(s: string)
    | Arr(items: seq<Json>)
    | Obj(fields: map<string, Json>)

  datatype Ordering = Less | Equal | Greater

  function Reverse(o: Ordering): Ordering {
    match o case Less => Greater case Equal => Equal case Greater => Less
  }

  function Then(o: Ordering, p: Ordering): Ordering {
    if o.Equal? then p else o
  }

  function CmpInt(a: int, b: int): Ordering {
    if a < b then Less else if a == b then Equal else Greater
  }

  function CmpReal(a: real, b: real): Ordering {
    if a < b then Less else if a == b then Equal else Greater
  }

  function CmpString(a: string, b: string): Ordering {
    if a == [] then (if b == [] then Equal else Less)
    else if b == [] then Greater
    else if a[0] < b[0] then Less
    else if a[0] > b[0] then Greater
    else CmpString(a[1..], b[1..])
  }

  // ---------------------------------------------------------------- numbers

  const I64_MIN: int := -0x8000_0000_0000_0000
  const U64_END: int := 0x1_0000_0000_0000_0000
  const I64_END: int := 0x8000_0000_0000_0000
  const I128_END: int := 0x8000_0000_0000_0000_0000_0000_0000_0000

  predicate IsNumber(v: Json) {
    (v.Int? && I64_MIN <= v.i < U64_END) || v.Float?
  }

  function NumberOf(v: Json): real
    requires IsNumber(v)
  {
    if v.Int? then v.i as real else v.x
  }

  /** Rounding toward zero. */
  function Trunc(x: real): int {
    if x >= 0.0 then x.Floor else -((-x).Floor)
  }

  function Fract(x: real): real {
    x - Trunc(x) as real
  }

  /** A float cast to a signed 128-bit integer saturates. */
  function ToI128(x: real): int {
    var t := Trunc(x);
    if t < -I128_END then -I128_END else if t >= I128_END then I128_END - 1 else t
  }

  function CmpIntFloat(i: int, x: real): Ordering {
    Then(CmpInt(i, ToI128(x)), CmpReal(0.0, Fract(x)))
  }

  // ---------------------------------------------------------------- text

  /** The JSON text of floats, arrays and objects, as the serializer prints them. */
  type Printer = Json -> string

  ghost predicate Prints(show: Printer) {
    && (forall x :: show(Float(x)) != [] && (Decimals.IsDigit(show(Float(x))[0]) || show(Float(x))[0] == '-'))
    && (forall a :: show(Arr(a)) != [] && show(Arr(a))[0] == '[')
    && (forall o :: show(Obj(o)) != [] && show(Obj(o))[0] == '{')
  }

  function ShowInt(i: int): string {
    if i < 0 then "-" + Decimals.Show(-i) else Decimals.Show(i)
  }

  /** A string itself, anything else its JSON text. */
  function Text(show: Printer, v: Json): string {
    match v
    case Null => "null"
    case Bool(b) => if b then "true" else "false"
    case Int(i) => ShowInt(i)
    case Str(s) => s
    case _ => show(v)
  }

  function ValueCmp(show: Printer, a: Json, b: Json): Ordering {
    if a.Int? && b.Int? then CmpInt(a.i, b.i)
    else if a.Int? && b.Float? then CmpIntFloat(a.i, b.x)
    else if a.Float? && b.Int? then Reverse(CmpIntFloat(b.i, a.x))
    else if a.Float? && b.Float? then CmpReal(a.x, b.x)
    else CmpString(Text(show, a), Text(show, b))
  }

  // ---------------------------------------------------------------- exactness on numbers

  lemma IntFloatIsExact(i: int, x: real)
    requires I64_MIN <= i < U64_END
    ensures CmpIntFloat(i, x) == CmpReal(i as real, x)
  {
    var t := Trunc(x);
    if x >= 0.0 {
      assert t as real <= x < t as real + 1.0;
    } else {
      assert t as real >= x > t as real - 1.0;
    }
    if t < i {
      assert (t + 1) as real <= i as real;
    } else if i < t {
      assert (i + 1) as real <= t as real;
    }
  }

  /** On numbers the comparison is the numeric order, without rounding. */
  lemma NumbersCompareExactly(show: Printer, a: Json, b: Json)
    requires IsNumber(a) && IsNumber(b)
    ensures ValueCmp(show, a, b) == CmpReal(NumberOf(a), NumberOf(b))
  {
    if a.Int? && b.Float? {
      IntFloatIsExact(a.i, b.x);
    } else if a.Float? && b.Int? {
      IntFloatIsExact(b.i, a.x);
    }
  }

  /** The bucket a number falls into: integers and integral floats in integer range share one. */
  datatype TermsKey = IntegerKey(i: int) | FloatKey(x: real)

  function NumberKey(v: Json): TermsKey
    requires IsNumber(v)
  {
    if v.Int? then IntegerKey(v.i)
    else if Fract(v.x) == 0.0 && I64_MIN as real <= v.x < I64_END as real then IntegerKey(Trunc(v.x))
    else if Fract(v.x) == 0.0 && 0.0 <= v.x < U64_END as real then IntegerKey(Trunc(v.x))
    else FloatKey(v.x)
  }

  predicate IntegralInRange(x: real) {
    Fract(x) == 0.0 && I64_MIN as real <= x < U64_END as real
  }

  lemma KeyIsFaithful(v: Json)
    requires IsNumber(v)
    ensures match NumberKey(v)
            case IntegerKey(i) => NumberOf(v) == i as real && I64_MIN <= i < U64_END
            case FloatKey(x) => NumberOf(v) == x && !IntegralInRange(x)
  {
    if v.Float? && NumberKey(v).IntegerKey? {
      var t := Trunc(v.x);
      assert t as real == v.x;
      assert I64_MIN as real <= t as real < U64_END as real;
    }
  }

  /** Two numbers share a terms bucket exactly when the sort comparison finds them equal. */
  lemma KeysAgreeWithOrder(show: Printer, a: Json, b: Json)
    requires IsNumber(a) && IsNumber(b)
    ensures NumberKey(a) == NumberKey(b) <==> ValueCmp(show, a, b) == Equal
  {
    NumbersCompareExactly(show, a, b);
    KeyIsFaithful(a);
    KeyIsFaithful(b);
    if NumberKey(a).IntegerKey? {
      TruncOfInteger(NumberKey(a).i);
    }
    if NumberKey(b).IntegerKey? {
      TruncOfInteger(NumberKey(b).i);
    }
  }

  lemma TruncOfInteger(i: int)
    ensures Trunc(i as real) == i && Fract(i as real) == 0.0
  {
    if i < 0 {
      assert -(i as real) == (-i) as real;
    }
  }

  // ---------------------------------------------------------------- strings

  lemma {:induction false} StringOrder(a: string, b: string, c: string)
    ensures CmpString(a, b) == Reverse(CmpString(b, a))
    ensures CmpString(a, b).Equal? <==> a == b
    ensures !CmpString(a, b).Greater? && !CmpString(b, c).Greater? ==> !CmpString(a, c).Greater?
    decreases |a|
  {
    if a != [] && b != [] {
      assert a == [a[0]] + a[1..] && b == [b[0]] + b[1..];
      StringOrder(a[1..], b[1..], if c != [] then c[1..] else []);
    }
  }

  // ---------------------------------------------------------------- a total preorder, and when

  /** Equal up to position k, where the one ends or has the smaller character. */
  ghost predicate FallsShort(a: string, b: string) {
    exists k :: 0 <= k <= |a| && k <= |b| && a[..k] == b[..k] && k < |b| && (k == |a| || a[k] < b[k])
  }

  lemma SameFirstChar(a: string, b: string, k: nat)
    requires 0 < k <= |a| && k <= |b| && a[..k] == b[..k]
    ensures a[0] == b[0]
  {
    assert a[..k][0] == b[..k][0];
  }

  lemma {:induction false} TextIsLexicographic(a: string, b: string)
    ensures CmpString(a, b) == Less <==> FallsShort(a, b)
    ensures CmpString(a, b) == Equal <==> a == b
    decreases |a|
  {
    StringOrder(a, b, []);
    if a == [] || b == [] || a[0] != b[0] {
      assert a[..0] == b[..0];
      if FallsShort(a, b) {
        var k :| 0 <= k <= |a| && k <= |b| && a[..k] == b[..k] && k < |b| && (k == |a| || a[k] < b[k]);
        if k > 0 {
          SameFirstChar(a, b, k);
        }
      }
    } else {
      TextIsLexicographic(a[1..], b[1..]);
      if FallsShort(a[1..], b[1..]) {
        var k :| 0 <= k <= |a[1..]| && k <= |b[1..]| && a[1..][..k] == b[1..][..k] && k < |b[1..]| && (k == |a[1..]| || a[1..][k] < b[1..][k]);
        assert a[..k + 1] == [a[0]] + a[1..][..k] && b[..k + 1] == [b[0]] + b[1..][..k];
      }
      if FallsShort(a, b) {
        var k :| 0 <= k <= |a| && k <= |b| && a[..k] == b[..k] && k < |b| && (k == |a| || a[k] < b[k]);
        assert k > 0;
        assert a[1..][..k - 1] == a[..k][1..] && b[1..][..k - 1] == b[..k][1..];
      }
    }
  }

  /** Anything but two numbers compares by text: strings by their own, nulls and booleans by name. */
  lemma TextsCompare(show: Printer, s: string, u: string)
    ensures ValueCmp(show, Str(s), Str(u)) == CmpString(s, u)
    ensures ValueCmp(show, Null, Str(u)) == CmpString("null", u) && ValueCmp(show, Str(u), Null) == CmpString(u, "null")
    ensures ValueCmp(show, Bool(true), Str(u)) == CmpString("true", u) && ValueCmp(show, Bool(false), Str(u)) == CmpString("false", u)
    ensures ValueCmp(show, Bool(false), Null) == Less && ValueCmp(show, Null, Bool(true)) == Less && ValueCmp(show, Bool(false), Bool(true)) == Less
  {
    assert "false"[0] < "null"[0] < "true"[0];
  }

  /** And an integer by its decimal digits. */
  lemma DigitsCompare(show: Printer, u: string, i: int)
    ensures exists digits :: Decimals.Canonical(digits) && Decimals.Val(digits) == (if i < 0 then -i else i)
                             && ValueCmp(show, Int(i), Str(u)) == CmpString(if i < 0 then "-" + digits else digits, u)
  {
    var digits := Decimals.Show(if i < 0 then -i else i);
    hide CmpString, Decimals.Show;
    assert ShowInt(i) == if i < 0 then "-" + digits else digits;
    assert ValueCmp(show, Int(i), Str(u)) == CmpString(ShowInt(i), u);
  }

  datatype Kind = NumberKind | StringKind | OtherKind

  function KindOf(v: Json): Kind {
    if v.Int? || v.Float? then NumberKind else if v.Str? then StringKind else OtherKind
  }

  /** Values that occur in documents, of the given kinds. */
  predicate Among(v: Json, kinds: set<Kind>) {
    KindOf(v) in kinds && (v.Int? ==> IsNumber(v))
  }

  ghost predicate IsTotalPreorder(show: Printer, kinds: set<Kind>) {
    && (forall a, b :: Among(a, kinds) && Among(b, kinds) ==> ValueCmp(show, a, b) == Reverse(ValueCmp(show, b, a)))
    && (forall a, b, c ::
          (Among(a, kinds) && Among(b, kinds) && Among(c, kinds)
           && !ValueCmp(show, a, b).Greater? && !ValueCmp(show, b, c).Greater?) ==> !ValueCmp(show, a, c).Greater?)
  }

  lemma ShowStartsWithDigit(n: nat)
    ensures Decimals.Show(n) != [] && Decimals.IsDigit(Decimals.Show(n)[0])
  {
    var s := Decimals.Show(n);
    assert Decimals.Canonical(s);
  }

  lemma NumbersComeFirst(show: Printer, a: Json, b: Json)
    requires Prints(show) && KindOf(a).NumberKind? && KindOf(b).OtherKind?
    ensures ValueCmp(show, a, b) == Less && ValueCmp(show, b, a) == Greater
  {
    if a.Int? {
      ShowStartsWithDigit(if a.i < 0 then -a.i else a.i);
      assert a.i < 0 ==> Text(show, a)[0] == '-';
    } else {
      assert show(Float(a.x)) != [];
    }
    match b {
      case Null => assert Text(show, b)[0] == 'n';
      case Bool(x) => assert Text(show, b)[0] == (if x then 't' else 'f');
      case Arr(items) => assert show(Arr(items))[0] == '[';
      case Obj(fields) => assert show(Obj(fields))[0] == '{';
    }
  }

  /** How values of two kinds compare, numbers and strings not being among the kinds together. */
  lemma KindsCompare(show: Printer, x: Json, y: Json)
    requires Prints(show) && (x.Int? ==> IsNumber(x)) && (y.Int? ==> IsNumber(y))
    ensures KindOf(x).NumberKind? && KindOf(y).NumberKind? ==> ValueCmp(show, x, y) == CmpReal(NumberOf(x), NumberOf(y))
    ensures KindOf(x).NumberKind? && KindOf(y).OtherKind? ==> ValueCmp(show, x, y) == Less && ValueCmp(show, y, x) == Greater
    ensures !KindOf(x).NumberKind? && !KindOf(y).NumberKind? ==> ValueCmp(show, x, y) == CmpString(Text(show, x), Text(show, y))
  {
    if KindOf(x).NumberKind? && KindOf(y).NumberKind? {
      NumbersCompareExactly(show, x, y);
    } else if KindOf(x).NumberKind? && KindOf(y).OtherKind? {
      NumbersComeFirst(show, x, y);
    }
  }

  lemma Transitive(show: Printer, kinds: set<Kind>, a: Json, b: Json, c: Json)
    requires Prints(show) && !(NumberKind in kinds && StringKind in kinds)
    requires Among(a, kinds) && Among(b, kinds) && Among(c, kinds)
    ensures ValueCmp(show, a, b) == Reverse(ValueCmp(show, b, a))
    ensures !ValueCmp(show, a, b).Greater? && !ValueCmp(show, b, c).Greater? ==> !ValueCmp(show, a, c).Greater?
  {
    hide ValueCmp, Text, CmpString, Prints, NumberOf;
    StringOrder(Text(show, a), Text(show, b), Text(show, c));
    forall x, y | x in {a, b, c} && y in {a, b, c}
      ensures KindOf(x).NumberKind? && KindOf(y).NumberKind? ==> ValueCmp(show, x, y) == CmpReal(NumberOf(x), NumberOf(y))
      ensures KindOf(x).NumberKind? && KindOf(y).OtherKind? ==> ValueCmp(show, x, y) == Less && ValueCmp(show, y, x) == Greater
      ensures !KindOf(x).NumberKind? && !KindOf(y).NumberKind? ==> ValueCmp(show, x, y) == CmpString(Text(show, x), Text(show, y))
    {
      KindsCompare(show, x, y);
    }
  }

  lemma NineTenOneA(show: Printer)
    ensures ValueCmp(show, Int(9), Int(10)) == Less
    ensures ValueCmp(show, Int(10), Str("1a")) == Less
    ensures ValueCmp(show, Str("1a"), Int(9)) == Less
  {
    assert Decimals.Show(9) == "9";
    assert Decimals.Show(10) == "10" by {
      assert Decimals.Show(1) == "1" && Decimals.Show(10) == Decimals.Show(1) + "0";
    }
    assert "10"[1..] == "0" && "1a"[1..] == "a";
    assert CmpString("10", "1a") == CmpString("0", "a");
  }

  /** Sort values are totally preordered exactly when numbers and strings are not mixed:
      9 < 10 < "1a" < 9 otherwise. Nulls and booleans may join either. */
  lemma TotalPreorderIff(show: Printer, kinds: set<Kind>)
    requires Prints(show)
    ensures IsTotalPreorder(show, kinds) <==> !(NumberKind in kinds && StringKind in kinds)
  {
    if NumberKind in kinds && StringKind in kinds {
      NineTenOneA(show);
      assert Among(Int(9), kinds) && Among(Int(10), kinds) && Among(Str("1a"), kinds);
    } else {
      forall a, b, c | Among(a, kinds) && Among(b, kinds) && Among(c, kinds)
        ensures ValueCmp(show, a, b) == Reverse(ValueCmp(show, b, a))
        ensures !ValueCmp(show, a, b).Greater? && !ValueCmp(show, b, c).Greater? ==> !ValueCmp(show, a, c).Greater?
      {
        Transitive(show, kinds, a, b, c);
      }
    }
  }
}
