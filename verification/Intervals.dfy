/** Ranges of numbers or of dates given by up to four bounds, and when one bound follows from others. */
module Intervals {
  import opened Options
  import opened Values

  datatype RangeOp = Gt | Gte | Lt | Lte

  /** `instant`: the moment a date string denotes. `unbounded`: whether the backend lets a range that
      nothing bounds admit dates besides numbers. */
  datatype Dates = Dates(instant: string -> Option<real>, unbounded: bool)

  /** There are dates, between any two another, and none is the first or the last. */
  ghost predicate Dense(t: Dates) {
    (exists a :: t.instant(a).Some?) && (forall a, b :: HasBetween(t, a, b)) && forall a :: HasBeside(t, a)
  }

  ghost predicate HasBetween(t: Dates, a: string, b: string) {
    IsBefore(t, a, b) ==> exists c :: IsBefore(t, a, c) && IsBefore(t, c, b)
  }

  ghost predicate HasBeside(t: Dates, a: string) {
    t.instant(a).Some? ==> exists b, c :: IsBefore(t, b, a) && IsBefore(t, a, c)
  }

  predicate IsBefore(t: Dates, a: string, b: string) {
    t.instant(a).Some? && t.instant(b).Some? && t.instant(a).value < t.instant(b).value
  }

  datatype Scale = Numeric | Temporal

  datatype Point = Point(scale: Scale, x: real)

  function PointOf(t: Dates, v: Json): Option<Point> {
    if IsNumber(v) then Some(Point(Numeric, NumberOf(v)))
    else if v.Str? && t.instant(v.s).Some? then Some(Point(Temporal, t.instant(v.s).value))
    else None
  }

  predicate Compares(op: RangeOp, x: real, bound: real) {
    match op
    case Gt => x > bound
    case Gte => x >= bound
    case Lt => x < bound
    case Lte => x <= bound
  }

  /** Null does not bound; numbers bound numbers and dates bound dates; nothing else admits anything. */
  predicate Within(t: Dates, op: RangeOp, actual: Json, bound: Json) {
    var p, q := PointOf(t, actual), PointOf(t, bound);
    bound.Null? || (p.Some? && q.Some? && p.value.scale == q.value.scale && Compares(op, p.value.x, q.value.x))
  }

  type Interval = map<RangeOp, Json>

  predicate IsBounded(interval: Interval) {
    exists op :: op in interval && !interval[op].Null?
  }

  /** The backend's reading of an interval. */
  predicate InInterval(t: Dates, actual: Json, interval: Interval) {
    && PointOf(t, actual).Some?
    && (IsBounded(interval) || t.unbounded || IsNumber(actual))
    && forall op :: op in interval ==> Within(t, op, actual, interval[op])
  }

  // ---------------------------------------------------------------- ends

  predicate IsLower(op: RangeOp) { op.Gt? || op.Gte? }

  predicate IsStrict(op: RangeOp) { op.Gt? || op.Lt? }

  /** One end of an interval. */
  datatype End = End(x: real, strict: bool)

  function EndOf(t: Dates, interval: Interval, op: RangeOp): Option<End> {
    if op in interval && PointOf(t, interval[op]).Some? then Some(End(PointOf(t, interval[op]).value.x, IsStrict(op))) else None
  }

  /** The greater of two lower ends, the exclusive one of equals. */
  function Low(t: Dates, interval: Interval): Option<End> {
    var a, b := EndOf(t, interval, Gt), EndOf(t, interval, Gte);
    if a.None? then b else if b.None? || a.value.x >= b.value.x then a else b
  }

  function High(t: Dates, interval: Interval): Option<End> {
    var a, b := EndOf(t, interval, Lt), EndOf(t, interval, Lte);
    if a.None? then b else if b.None? || a.value.x <= b.value.x then a else b
  }

  /** Every bound is of this scale; without one, numbers are always admitted. */
  predicate HasScale(t: Dates, interval: Interval, scale: Scale) {
    && (IsBounded(interval) || t.unbounded || scale.Numeric?)
    && forall op :: op in interval && !interval[op].Null? ==>
         PointOf(t, interval[op]).Some? && PointOf(t, interval[op]).value.scale == scale
  }

  predicate Crossed(lo: Option<End>, hi: Option<End>) {
    lo.Some? && hi.Some?
    && (lo.value.x > hi.value.x || (lo.value.x == hi.value.x && (lo.value.strict || hi.value.strict)))
  }

  /** The bounds mix scales or are no points at all, or the ends cross. */
  predicate IsEmpty(t: Dates, interval: Interval) {
    (!HasScale(t, interval, Numeric) && !HasScale(t, interval, Temporal)) || Crossed(Low(t, interval), High(t, interval))
  }

  /** The end on the bound's side is at least as tight. */
  predicate Tighter(lo: Option<End>, hi: Option<End>, op: RangeOp, a: real) {
    if IsLower(op) then
      lo.Some? && (lo.value.x > a || (lo.value.x == a && (lo.value.strict || !IsStrict(op))))
    else
      hi.Some? && (hi.value.x < a || (hi.value.x == a && (hi.value.strict || !IsStrict(op))))
  }

  /** The bound follows from the interval: it is null, the interval is empty, or the interval is of the
      bound's scale and ends at least as tightly. */
  predicate Covers(t: Dates, interval: Interval, op: RangeOp, bound: Json) {
    var q := PointOf(t, bound);
    || bound.Null? || IsEmpty(t, interval)
    || (q.Some? && HasScale(t, interval, q.value.scale) && Tighter(Low(t, interval), High(t, interval), op, q.value.x))
  }

  predicate AboveLow(x: real, lo: Option<End>) {
    lo.Some? ==> x > lo.value.x || (x == lo.value.x && !lo.value.strict)
  }

  predicate BelowHigh(x: real, hi: Option<End>) {
    hi.Some? ==> x < hi.value.x || (x == hi.value.x && !hi.value.strict)
  }

  predicate Between(x: real, lo: Option<End>, hi: Option<End>) {
    AboveLow(x, lo) && BelowHigh(x, hi)
  }

  /** Membership is decided by scale and ends. */
  lemma EndsDecide(t: Dates, v: Json, interval: Interval)
    ensures InInterval(t, v, interval) <==>
            var p := PointOf(t, v);
            p.Some? && HasScale(t, interval, p.value.scale) && Between(p.value.x, Low(t, interval), High(t, interval))
  {
    var p := PointOf(t, v);
    if p.Some? {
      var scale, x := p.value.scale, p.value.x;
      EndsByOp(t, interval, x);
      forall op | op in interval
        ensures Within(t, op, v, interval[op])
           <==> interval[op].Null? || (PointOf(t, interval[op]).Some? && PointOf(t, interval[op]).value.scale == scale && Respects(t, interval, op, x))
      {
      }
      assert forall op: RangeOp :: op !in interval || interval[op].Null? ==> Respects(t, interval, op, x);
      assert IsNumber(v) <==> scale == Numeric;
      hide Within, PointOf, Respects, Low, High;
    }
  }

  predicate Respects(t: Dates, interval: Interval, op: RangeOp, x: real) {
    if IsLower(op) then AboveLow(x, EndOf(t, interval, op)) else BelowHigh(x, EndOf(t, interval, op))
  }

  lemma EndsByOp(t: Dates, interval: Interval, x: real)
    ensures Between(x, Low(t, interval), High(t, interval)) <==> forall op :: Respects(t, interval, op, x)
  {
    hide PointOf;
    assert AboveLow(x, Low(t, interval)) <==> Respects(t, interval, Gt, x) && Respects(t, interval, Gte, x);
    assert BelowHigh(x, High(t, interval)) <==> Respects(t, interval, Lt, x) && Respects(t, interval, Lte, x);
  }

  // ---------------------------------------------------------------- covering

  lemma OneScale(t: Dates, interval: Interval, a: Scale, b: Scale)
    requires HasScale(t, interval, a) && HasScale(t, interval, b)
    requires Low(t, interval).Some? || High(t, interval).Some?
    ensures a == b
  {
    var op := if EndOf(t, interval, Gt).Some? then Gt else if EndOf(t, interval, Gte).Some? then Gte
              else if EndOf(t, interval, Lt).Some? then Lt else Lte;
    assert EndOf(t, interval, op).Some? && op in interval;
    assert !interval[op].Null?;
  }

  lemma CoveredHolds(t: Dates, interval: Interval, op: RangeOp, bound: Json, v: Json)
    requires Covers(t, interval, op, bound) && InInterval(t, v, interval)
    ensures Within(t, op, v, bound)
  {
    EndsDecide(t, v, interval);
    if !bound.Null? {
      OneScale(t, interval, PointOf(t, v).value.scale, PointOf(t, bound).value.scale);
    }
    hide Low, High, InInterval;
  }

  /** The point an end was written as. */
  lemma EndWritten(t: Dates, interval: Interval, scale: Scale)
    requires HasScale(t, interval, scale)
    ensures Low(t, interval).Some? ==> exists v :: PointOf(t, v) == Some(Point(scale, Low(t, interval).value.x))
    ensures High(t, interval).Some? ==> exists v :: PointOf(t, v) == Some(Point(scale, High(t, interval).value.x))
  {
    forall op | EndOf(t, interval, op).Some?
      ensures exists v :: PointOf(t, v) == Some(Point(scale, EndOf(t, interval, op).value.x))
    {
      assert !interval[op].Null?;
    }
    hide PointOf, EndOf;
  }

  ghost predicate IsWritten(t: Dates, scale: Scale, x: real) {
    exists v :: PointOf(t, v) == Some(Point(scale, x))
  }

  lemma WrittenDate(t: Dates, x: real) returns (s: string)
    requires IsWritten(t, Temporal, x)
    ensures t.instant(s) == Some(x)
  {
    var v :| PointOf(t, v) == Some(Point(Temporal, x));
    s := v.s;
  }

  lemma NumberWritten(t: Dates, x: real)
    ensures IsWritten(t, Numeric, x)
  {
    assert PointOf(t, Float(x)) == Some(Point(Numeric, x));
  }

  lemma DateWritten(t: Dates, s: string)
    requires t.instant(s).Some?
    ensures IsWritten(t, Temporal, t.instant(s).value)
  {
    assert PointOf(t, Str(s)) == Some(Point(Temporal, t.instant(s).value));
  }

  lemma WrittenBetween(t: Dates, scale: Scale, x: real, y: real) returns (z: real)
    requires Dense(t) && IsWritten(t, scale, x) && IsWritten(t, scale, y) && x < y
    ensures IsWritten(t, scale, z) && x < z < y
  {
    if scale.Numeric? {
      z := (x + y) / 2.0;
      NumberWritten(t, z);
    } else {
      var a := WrittenDate(t, x);
      var b := WrittenDate(t, y);
      assert HasBetween(t, a, b) && IsBefore(t, a, b);
      var c :| IsBefore(t, a, c) && IsBefore(t, c, b);
      z := t.instant(c).value;
      DateWritten(t, c);
    }
  }

  lemma WrittenBeside(t: Dates, scale: Scale, x: real) returns (y: real, z: real)
    requires Dense(t) && IsWritten(t, scale, x)
    ensures IsWritten(t, scale, y) && IsWritten(t, scale, z) && y < x < z
  {
    if scale.Numeric? {
      y, z := x - 1.0, x + 1.0;
      NumberWritten(t, y);
      NumberWritten(t, z);
    } else {
      var a := WrittenDate(t, x);
      assert HasBeside(t, a);
      var b, c :| IsBefore(t, b, a) && IsBefore(t, a, c);
      y, z := t.instant(b).value, t.instant(c).value;
      DateWritten(t, b);
      DateWritten(t, c);
    }
  }

  /** A point between two ends on the wrong side of a bound that they do not imply. */
  lemma Outlier(t: Dates, scale: Scale, lo: Option<End>, hi: Option<End>, op: RangeOp, a: real) returns (x: real)
    requires Dense(t) && IsWritten(t, scale, a)
    requires (lo.Some? ==> IsWritten(t, scale, lo.value.x)) && (hi.Some? ==> IsWritten(t, scale, hi.value.x))
    requires !Crossed(lo, hi) && !Tighter(lo, hi, op, a)
    ensures IsWritten(t, scale, x) && Between(x, lo, hi) && !Compares(op, x, a)
  {
    hide IsWritten, Dense;
    if IsLower(op) {
      var top := if hi.Some? && hi.value.x < a then hi.value.x else a;
      if lo.None? {
        var y, _ := WrittenBeside(t, scale, top);
        x := y;
      } else if lo.value.x < top {
        x := WrittenBetween(t, scale, lo.value.x, top);
      } else {
        x := lo.value.x;
      }
    } else {
      var bottom := if lo.Some? && lo.value.x > a then lo.value.x else a;
      if hi.None? {
        var _, z := WrittenBeside(t, scale, bottom);
        x := z;
      } else if bottom < hi.value.x {
        x := WrittenBetween(t, scale, bottom, hi.value.x);
      } else {
        x := hi.value.x;
      }
    }
  }

  /** Something lies between ends that do not cross. */
  lemma Inhabited(t: Dates, interval: Interval, scale: Scale) returns (x: real)
    requires Dense(t) && HasScale(t, interval, scale) && !Crossed(Low(t, interval), High(t, interval))
    ensures IsWritten(t, scale, x) && Between(x, Low(t, interval), High(t, interval))
  {
    EndWritten(t, interval, scale);
    var lo, hi := Low(t, interval), High(t, interval);
    hide Low, High, HasScale;
    if lo.Some? {
      if hi.Some? && lo.value.x < hi.value.x {
        x := WrittenBetween(t, scale, lo.value.x, hi.value.x);
      } else if hi.Some? {
        x := lo.value.x;
      } else {
        var _, z := WrittenBeside(t, scale, lo.value.x);
        x := z;
      }
    } else if hi.Some? {
      var y, _ := WrittenBeside(t, scale, hi.value.x);
      x := y;
    } else if scale.Numeric? {
      x := 0.0;
      NumberWritten(t, x);
    } else {
      var s :| t.instant(s).Some?;
      x := t.instant(s).value;
      DateWritten(t, s);
    }
  }

  /** An uncovered bound is broken somewhere in the interval. */
  lemma UncoveredBreaks(t: Dates, interval: Interval, op: RangeOp, bound: Json) returns (v: Json)
    requires Dense(t) && !Covers(t, interval, op, bound)
    ensures InInterval(t, v, interval) && !Within(t, op, v, bound)
  {
    var q := PointOf(t, bound);
    var lo, hi := Low(t, interval), High(t, interval);
    var scale := if HasScale(t, interval, Numeric) then Numeric else Temporal;
    var x: real;
    if q.Some? && HasScale(t, interval, q.value.scale) {
      scale := q.value.scale;
      EndWritten(t, interval, scale);
      assert IsWritten(t, scale, q.value.x);
      x := Outlier(t, scale, lo, hi, op, q.value.x);
    } else {
      x := Inhabited(t, interval, scale);
    }
    v :| PointOf(t, v) == Some(Point(scale, x));
    EndsDecide(t, v, interval);
  }

  /** Everything in the interval satisfies the bound exactly when the interval covers it. */
  lemma CoversIff(t: Dates, interval: Interval, op: RangeOp, bound: Json)
    requires Dense(t)
    ensures (forall v :: InInterval(t, v, interval) ==> Within(t, op, v, bound)) <==> Covers(t, interval, op, bound)
  {
    hide *;
    if Covers(t, interval, op, bound) {
      forall v | InInterval(t, v, interval)
        ensures Within(t, op, v, bound)
      {
        CoveredHolds(t, interval, op, bound, v);
      }
    } else {
      var v := UncoveredBreaks(t, interval, op, bound);
    }
  }

  /** Every bound of the other interval follows, and numbers alone where nothing bounds it. */
  predicate CoversAll(t: Dates, interval: Interval, other: Interval) {
    && (forall op :: op in other ==> Covers(t, interval, op, other[op]))
    && (IsBounded(other) || t.unbounded || IsEmpty(t, interval) || !HasScale(t, interval, Temporal))
  }

  lemma CoveredInside(t: Dates, inner: Interval, outer: Interval, v: Json)
    requires CoversAll(t, inner, outer) && InInterval(t, v, inner)
    ensures InInterval(t, v, outer)
  {
    EndsDecide(t, v, inner);
    forall op | op in outer
      ensures Within(t, op, v, outer[op])
    {
      CoveredHolds(t, inner, op, outer[op], v);
    }
    hide Covers, Within, Low, High;
  }

  /** One interval lies in another exactly when it covers it. */
  lemma InclusionIff(t: Dates, inner: Interval, outer: Interval)
    requires Dense(t)
    ensures (forall v :: InInterval(t, v, inner) ==> InInterval(t, v, outer)) <==> CoversAll(t, inner, outer)
  {
    if CoversAll(t, inner, outer) {
      forall v | InInterval(t, v, inner)
        ensures InInterval(t, v, outer)
      {
        CoveredInside(t, inner, outer, v);
      }
    } else {
      forall op | op in outer
        ensures (forall v :: InInterval(t, v, inner) ==> Within(t, op, v, outer[op])) <==> Covers(t, inner, op, outer[op])
      {
        CoversIff(t, inner, op, outer[op]);
      }
      DatesInside(t, inner);
      hide Covers, Within, HasScale, IsEmpty, PointOf, Dense;
    }
  }

  /** An interval admits a date exactly when it is of that scale and not empty. */
  lemma DatesInside(t: Dates, interval: Interval)
    requires Dense(t)
    ensures (exists v :: InInterval(t, v, interval) && !IsNumber(v)) <==> !IsEmpty(t, interval) && HasScale(t, interval, Temporal)
  {
    if v :| InInterval(t, v, interval) && !IsNumber(v) {
      EndsDecide(t, v, interval);
    }
    if !IsEmpty(t, interval) && HasScale(t, interval, Temporal) {
      var x := Inhabited(t, interval, Temporal);
      var v :| PointOf(t, v) == Some(Point(Temporal, x));
      EndsDecide(t, v, interval);
    }
  }

  lemma SameIntervalsIff(t: Dates, a: Interval, b: Interval)
    requires Dense(t)
    ensures (forall v :: InInterval(t, v, a) <==> InInterval(t, v, b)) <==> CoversAll(t, a, b) && CoversAll(t, b, a)
  {
    InclusionIff(t, a, b);
    InclusionIff(t, b, a);
    hide *;
  }
}
