/** Casting and scaling of readings, over the reals. */
module Normalize {
  import opened Common
  import opened Text
  import opened Uuids

  type Id = string

  /** A value of any type: signed and unsigned integers of any width, floats, strings, or something else. */
  datatype Value = Bool(b: bool) | Int(i: int) | Uint(u: nat) | Float(x: real) | Text(s: string) | Other

  datatype DataType = BoolType | Int8 | Int16 | Int32 | Uint8 | Uint16 | Uint32 | Float32 | Float64 | StringType | Unsupported

  /** Library functions: float parsing, the words for true and false, formatting, and what a float beyond 64 bits converts to. */
  datatype Library = Library(
    parseFloat: string -> Option<real>, isTrue: string -> bool, isFalse: string -> bool, format: Value -> string,
    wildInt64: real -> int, wildUint64: real -> nat)

  const MAX_UINT64_LIMIT := 0x1_0000_0000_0000_0000

  // ---- casting -------------------------------------------------------------------------------------------

  function Truncated(x: real): int {
    if x >= 0.0 then x.Floor else -((-x).Floor)
  }

  function NumericToFloat64(v: Value): Option<real> {
    match v
    case Int(i) => Some(i as real)
    case Uint(u) => Some(u as real)
    case Float(x) => Some(x)
    case _ => None
  }

  function ToBool(lib: Library, v: Value): Option<bool> {
    match v
    case Bool(b) => Some(b)
    case Text(s) =>
      var trimmed := TrimSpace(s);
      if lib.isTrue(trimmed) then Some(true)
      else if lib.isFalse(trimmed) then Some(false)
      else if lib.parseFloat(trimmed).None? then None
      else Some(lib.parseFloat(trimmed).value != 0.0)
    case _ =>
      if NumericToFloat64(v).None? then None else Some(NumericToFloat64(v).value != 0.0)
  }

  function ToInt64(lib: Library, v: Value): Option<int> {
    match v
    case Int(i) => Some(i)
    case Uint(u) => if u > MAX_INT64 then None else Some(u)
    case Float(x) => Some(if -MAX_INT64 - 1 <= Truncated(x) <= MAX_INT64 then Truncated(x) else lib.wildInt64(x))
    case Text(s) => Atoi(TrimSpace(s))
    case _ => None
  }

  function ToUint64(lib: Library, v: Value): Option<nat> {
    match v
    case Int(i) => if i < 0 then None else Some(i)
    case Uint(u) => Some(u)
    case Float(x) => if x < 0.0 then None else Some(if Truncated(x) < MAX_UINT64_LIMIT then Truncated(x) else lib.wildUint64(x))
    case Text(s) => ParseUint(TrimSpace(s), MAX_UINT64_LIMIT)
    case _ => None
  }

  function ToFloat64(lib: Library, v: Value): Option<real> {
    if NumericToFloat64(v).Some? then NumericToFloat64(v)
    else if v.Text? then lib.parseFloat(TrimSpace(v.s))
    else None
  }

  /** The number of values of a signed integer type, halved; and of an unsigned one. */
  function SignedHalf(t: DataType): int
    requires t in {Int8, Int16, Int32}
  {
    match t
    case Int8 => 0x80
    case Int16 => 0x8000
    case Int32 => 0x8000_0000
  }

  function UnsignedCount(t: DataType): int
    requires t in {Uint8, Uint16, Uint32}
  {
    match t
    case Uint8 => 0x100
    case Uint16 => 0x1_0000
    case Uint32 => 0x1_0000_0000
  }

  /** Conversion to a narrower signed type wraps around. */
  function Narrowed(i: int, t: DataType): int
    requires t in {Int8, Int16, Int32}
  {
    match t
    case Int8 => (i + 0x80) % 0x100 - 0x80
    case Int16 => (i + 0x8000) % 0x1_0000 - 0x8000
    case Int32 => (i + 0x8000_0000) % 0x1_0000_0000 - 0x8000_0000
  }

  function CastByDataType(lib: Library, v: Value, t: DataType): Option<Value> {
    match t
    case BoolType => if ToBool(lib, v).None? then None else Some(Bool(ToBool(lib, v).value))
    case Int8 | Int16 | Int32 =>
      var i := ToInt64(lib, v);
      if i.None? || !(-SignedHalf(t) <= i.value < SignedHalf(t)) then None else Some(Int(Narrowed(i.value, t)))
    case Uint8 | Uint16 | Uint32 =>
      var u := ToUint64(lib, v);
      if u.None? || !(u.value < UnsignedCount(t)) then None else Some(Uint(u.value % UnsignedCount(t)))
    case Float32 | Float64 => if ToFloat64(lib, v).None? then None else Some(Float(ToFloat64(lib, v).value))
    case StringType => Some(Text(lib.format(v)))
    case Unsupported => None
  }

  /** The range of an integer type. */
  predicate InRange(v: Value, t: DataType) {
    match t
    case Int8 => v.Int? && -0x80 <= v.i <= 0x7F
    case Int16 => v.Int? && -0x8000 <= v.i <= 0x7FFF
    case Int32 => v.Int? && -0x8000_0000 <= v.i <= 0x7FFF_FFFF
    case Uint8 => v.Uint? && v.u <= 0xFF
    case Uint16 => v.Uint? && v.u <= 0xFFFF
    case Uint32 => v.Uint? && v.u <= 0xFFFF_FFFF
    case _ => true
  }

  lemma NarrowedIsItself(i: int, t: DataType)
    requires t in {Int8, Int16, Int32} && -SignedHalf(t) <= i < SignedHalf(t)
    ensures Narrowed(i, t) == i
  {
  }

  lemma ReducedIsItself(u: nat, t: DataType)
    requires t in {Uint8, Uint16, Uint32} && u < UnsignedCount(t)
    ensures u % UnsignedCount(t) == u
  {
  }

  /** Every cast lands in the target type, and casting its result again changes nothing. */
  lemma CastIsIdempotent(lib: Library, v: Value, t: DataType)
    requires forall s :: lib.format(Text(s)) == s
    ensures var w := CastByDataType(lib, v, t);
      w.Some? ==> InRange(w.value, t) && CastByDataType(lib, w.value, t) == w
  {
    hide CastByDataType, InRange;
    match t
    case Int8 | Int16 | Int32 => SignedStay(lib, v, t);
    case Uint8 | Uint16 | Uint32 => UnsignedStay(lib, v, t);
    case _ => OthersStay(lib, v, t);
  }

  lemma SignedStay(lib: Library, v: Value, t: DataType)
    requires t in {Int8, Int16, Int32}
    ensures var w := CastByDataType(lib, v, t);
      w.Some? ==> InRange(w.value, t) && CastByDataType(lib, w.value, t) == w
  {
    hide Narrowed;
    if CastByDataType(lib, v, t).Some? {
      NarrowedIsItself(ToInt64(lib, v).value, t);
    }
  }

  lemma UnsignedStay(lib: Library, v: Value, t: DataType)
    requires t in {Uint8, Uint16, Uint32}
    ensures var w := CastByDataType(lib, v, t);
      w.Some? ==> InRange(w.value, t) && CastByDataType(lib, w.value, t) == w
  {
    if CastByDataType(lib, v, t).Some? {
      ReducedIsItself(ToUint64(lib, v).value, t);
    }
  }

  lemma OthersStay(lib: Library, v: Value, t: DataType)
    requires t !in {Int8, Int16, Int32, Uint8, Uint16, Uint32} && forall s :: lib.format(Text(s)) == s
    ensures var w := CastByDataType(lib, v, t);
      w.Some? ==> InRange(w.value, t) && CastByDataType(lib, w.value, t) == w
  {
  }

  /** The range check makes the narrowing conversion harmless: an integer casts exactly when it fits, and then to itself. */
  lemma IntegerCastIff(lib: Library, i: int, t: DataType)
    requires t in {Int8, Int16, Int32, Uint8, Uint16, Uint32}
    ensures CastByDataType(lib, Int(i), t).Some?
      <==> InRange(if t in {Int8, Int16, Int32} then Int(i) else if i >= 0 then Uint(i) else Other, t)
    ensures CastByDataType(lib, Int(i), t).Some? ==> NumericToFloat64(CastByDataType(lib, Int(i), t).value) == Some(i as real)
  {
    hide Narrowed;
    if t in {Int8, Int16, Int32} && -SignedHalf(t) <= i < SignedHalf(t) {
      NarrowedIsItself(i, t);
    }
  }

  /** A number is true exactly when it is not zero. */
  lemma NumberToBool(lib: Library, v: Value)
    requires v.Int? || v.Uint? || v.Float?
    ensures CastByDataType(lib, v, BoolType) == Some(Bool(v != Int(0) && v != Uint(0) && v != Float(0.0)))
  {
  }

  // ---- scaling -------------------------------------------------------------------------------------------

  datatype Scaling = Scaling(
    rawMin: Option<real>, rawMax: Option<real>, engMin: Option<real>, engMax: Option<real>, factor: Option<real>, offset: Option<real>)

  predicate ShouldInterpolate(s: Scaling) {
    s.rawMin.Some? && s.rawMax.Some? && s.engMin.Some? && s.engMax.Some?
  }

  /** What the editor accepts: all four interpolation bounds or none, distinct raw bounds, a non-zero factor. */
  predicate ValidScaling(s: Scaling) {
    && (ShouldInterpolate(s) || (s.rawMin.None? && s.rawMax.None? && s.engMin.None? && s.engMax.None?))
    && (s.rawMin.Some? && s.rawMax.Some? ==> s.rawMin != s.rawMax)
    && s.factor != Some(0.0)
  }

  /** The straight line that takes a0 to b0 and a1 to b1. */
  function Line(x: real, a0: real, a1: real, b0: real, b1: real): real
    requires a0 != a1
  {
    (x - a0) * (b1 - b0) / (a1 - a0) + b0
  }

  function Interpolated(s: Scaling, x: real): real {
    if ShouldInterpolate(s) && s.rawMax != s.rawMin
    then Line(x, s.rawMin.value, s.rawMax.value, s.engMin.value, s.engMax.value)
    else x
  }

  function Times(x: real, factor: Option<real>): real {
    if factor.Some? then x * factor.value else x
  }

  function Plus(x: real, offset: Option<real>): real {
    if offset.Some? then x + offset.value else x
  }

  function Scaled(s: Scaling, x: real): real {
    Plus(Times(Interpolated(s, x), s.factor), s.offset)
  }

  /** The reading that scales to y. */
  function Unscaled(s: Scaling, y: real): real
    requires ValidScaling(s) && (ShouldInterpolate(s) ==> s.engMin != s.engMax)
  {
    var multiplied := if s.offset.Some? then y - s.offset.value else y;
    var interpolated := Over(multiplied, s.factor);
    if ShouldInterpolate(s)
    then Line(interpolated, s.engMin.value, s.engMax.value, s.rawMin.value, s.rawMax.value)
    else interpolated
  }

  function Over(x: real, factor: Option<real>): real
    requires factor != Some(0.0)
  {
    if factor.Some? then x / factor.value else x
  }

  lemma LineInverts(x: real, a0: real, a1: real, b0: real, b1: real)
    requires a0 != a1 && b0 != b1
    ensures Line(Line(x, a0, a1, b0, b1), b0, b1, a0, a1) == x
  {
  }

  lemma FactorInverts(x: real, f: Option<real>)
    requires f != Some(0.0)
    ensures Over(Times(x, f), f) == x && Times(Over(x, f), f) == x
  {
  }

  /** An accepted scaling with a proper engineering interval is a bijection of the reals. */
  lemma ScalingInverts(s: Scaling, x: real)
    requires ValidScaling(s) && (ShouldInterpolate(s) ==> s.engMin != s.engMax)
    ensures Unscaled(s, Scaled(s, x)) == x && Scaled(s, Unscaled(s, x)) == x
  {
    hide Line, Times, Over;
    FactorInverts(Interpolated(s, x), s.factor);
    var multiplied := if s.offset.Some? then x - s.offset.value else x;
    FactorInverts(multiplied, s.factor);
    if ShouldInterpolate(s) {
      LineInverts(x, s.rawMin.value, s.rawMax.value, s.engMin.value, s.engMax.value);
      LineInverts(Over(multiplied, s.factor), s.engMin.value, s.engMax.value, s.rawMin.value, s.rawMax.value);
    }
  }

  ghost predicate Injective(s: Scaling) {
    forall x: real, y: real :: Scaled(s, x) == Scaled(s, y) ==> x == y
  }

  /** An accepted scaling tells readings apart exactly when it does not interpolate onto a single engineering value. */
  lemma InjectiveIff(s: Scaling)
    requires ValidScaling(s)
    ensures Injective(s) <==> (ShouldInterpolate(s) ==> s.engMin != s.engMax)
  {
    hide Line, Times, Plus, Unscaled;
    if ShouldInterpolate(s) && s.engMin == s.engMax {
      FlatLine(0.0, s.rawMin.value, s.rawMax.value, s.engMin.value);
      FlatLine(1.0, s.rawMin.value, s.rawMax.value, s.engMin.value);
      assert Scaled(s, 0.0) == Scaled(s, 1.0);
    } else {
      forall x: real, y: real | Scaled(s, x) == Scaled(s, y) ensures x == y {
        ScalingInverts(s, x);
        ScalingInverts(s, y);
      }
    }
  }

  lemma FlatLine(x: real, a0: real, a1: real, b: real)
    requires a0 != a1
    ensures Line(x, a0, a1, b, b) == b
  {
  }

  /** The map is affine: equal steps of the reading are equal steps of the result. */
  lemma ScalingIsAffine(s: Scaling, x: real, step: real)
    ensures Scaled(s, x + step) - Scaled(s, x) == Scaled(s, step) - Scaled(s, 0.0)
  {
    hide Interpolated, Times;
    InterpolationIsAffine(s, x, step);
    TimesIsLinear(Interpolated(s, x + step), Interpolated(s, x), s.factor);
    TimesIsLinear(Interpolated(s, step), Interpolated(s, 0.0), s.factor);
  }

  lemma TimesIsLinear(a: real, b: real, f: Option<real>)
    ensures Times(a, f) - Times(b, f) == Times(a - b, f)
  {
  }

  lemma InterpolationIsAffine(s: Scaling, x: real, step: real)
    ensures Interpolated(s, x + step) - Interpolated(s, x) == Interpolated(s, step) - Interpolated(s, 0.0)
  {
    if ShouldInterpolate(s) && s.rawMax != s.rawMin {
      var raw, eng := s.rawMax.value - s.rawMin.value, s.engMax.value - s.engMin.value;
      var a0 := s.rawMin.value;
      LinearStep(x - a0, step, eng, raw);
      LinearStep(0.0 - a0, step, eng, raw);
      assert x + step - a0 == (x - a0) + step && step - a0 == (0.0 - a0) + step;
    }
  }

  lemma LinearStep(a: real, step: real, eng: real, raw: real)
    requires raw != 0.0
    ensures (a + step) * eng / raw - a * eng / raw == step * eng / raw
  {
  }

  function Min(a: real, b: real): real {
    if a < b then a else b
  }

  function Max(a: real, b: real): real {
    if a < b then b else a
  }

  /** Interpolation sends the raw bounds to the engineering bounds, and what lies between them to what lies between. */
  lemma InterpolatesInterval(s: Scaling, x: real)
    requires ShouldInterpolate(s) && s.rawMin != s.rawMax
    ensures Interpolated(s, s.rawMin.value) == s.engMin.value && Interpolated(s, s.rawMax.value) == s.engMax.value
    ensures Min(s.rawMin.value, s.rawMax.value) <= x <= Max(s.rawMin.value, s.rawMax.value) ==>
      Min(s.engMin.value, s.engMax.value) <= Interpolated(s, x) <= Max(s.engMin.value, s.engMax.value)
  {
    hide Line;
    LineEnds(s.rawMin.value, s.rawMax.value, s.engMin.value, s.engMax.value);
    if Min(s.rawMin.value, s.rawMax.value) <= x <= Max(s.rawMin.value, s.rawMax.value) {
      LineBetween(x, s.rawMin.value, s.rawMax.value, s.engMin.value, s.engMax.value);
    }
  }

  lemma LineEnds(a0: real, a1: real, b0: real, b1: real)
    requires a0 != a1
    ensures Line(a0, a0, a1, b0, b1) == b0 && Line(a1, a0, a1, b0, b1) == b1
  {
  }

  lemma LineBetween(x: real, a0: real, a1: real, b0: real, b1: real)
    requires a0 != a1 && Min(a0, a1) <= x <= Max(a0, a1)
    ensures Min(b0, b1) <= Line(x, a0, a1, b0, b1) <= Max(b0, b1)
  {
    var d, a, b := x - a0, a1 - a0, b1 - b0;
    Fraction(d, a, b);
    assert Line(x, a0, a1, b0, b1) == d * b / a + b0;
  }

  /** A part of one span becomes as large a part of the other. */
  lemma Fraction(a: real, raw: real, eng: real)
    requires raw != 0.0 && (0.0 <= a <= raw || raw <= a <= 0.0)
    ensures Min(0.0, eng) <= a * eng / raw <= Max(0.0, eng)
  {
  }

  // ---- readings ------------------------------------------------------------------------------------------

  datatype Reading = Reading(tagID: Id, good: bool, value: Value, rawValue: Option<Value>, failed: bool)

  datatype TagSettings = TagSettings(dataType: DataType, scaling: Option<Scaling>)

  /** A good reading keeps its raw value and gets the cast and scaled one; a failed cast makes it bad and keeps the value. */
  function Normalized(lib: Library, r: Reading, tag: TagSettings): Reading {
    if !r.good then r
    else
      var kept := r.(rawValue := Some(r.value));
      var cast := CastByDataType(lib, r.value, tag.dataType);
      if cast.None? then kept.(good := false, failed := true)
      else if tag.scaling.None? || NumericToFloat64(cast.value).None? then kept.(value := cast.value)
      else kept.(value := Float(Scaled(tag.scaling.value, NumericToFloat64(cast.value).value)))
  }

  method NormalizeReading(lib: Library, r: Reading, tag: TagSettings) returns (normalized: Reading)
    ensures normalized == Normalized(lib, r, tag)
  {
    hide Line, CastByDataType;
    if !r.good {
      return r;
    }
    normalized := r.(rawValue := Some(r.value));
    var castedValue := CastByDataType(lib, r.value, tag.dataType);
    if castedValue.None? {
      return normalized.(good := false, failed := true);
    }
    normalized := normalized.(value := castedValue.value);
    if tag.scaling.None? {
      return;
    }
    var scaling := tag.scaling.value;
    var numeric := NumericToFloat64(normalized.value);
    if numeric.None? {
      return;
    }
    var numericValue := numeric.value;
    if ShouldInterpolate(scaling) {
      if scaling.rawMax != scaling.rawMin {
        numericValue := Line(numericValue, scaling.rawMin.value, scaling.rawMax.value, scaling.engMin.value, scaling.engMax.value);
      }
    }
    assert numericValue == Interpolated(scaling, numeric.value);
    if scaling.factor.Some? {
      numericValue := numericValue * scaling.factor.value;
    }
    assert numericValue == Times(Interpolated(scaling, numeric.value), scaling.factor);
    if scaling.offset.Some? {
      numericValue := numericValue + scaling.offset.value;
    }
    normalized := normalized.(value := Float(numericValue));
  }

  /** Under an accepted, injective scaling the raw number can be recovered from a normalised reading of a numeric type. */
  lemma RawRecoverable(lib: Library, r: Reading, tag: TagSettings)
    requires r.good && tag.scaling.Some? && ValidScaling(tag.scaling.value)
    requires ShouldInterpolate(tag.scaling.value) ==> tag.scaling.value.engMin != tag.scaling.value.engMax
    ensures var n := Normalized(lib, r, tag);
      var cast := CastByDataType(lib, r.value, tag.dataType);
      n.good <==> cast.Some?
    ensures var n := Normalized(lib, r, tag);
      var cast := CastByDataType(lib, r.value, tag.dataType);
      cast.Some? && NumericToFloat64(cast.value).Some? ==>
        n.value.Float? && Some(Unscaled(tag.scaling.value, n.value.x)) == NumericToFloat64(cast.value)
  {
    hide Line, CastByDataType, Scaled, Unscaled;
    var cast := CastByDataType(lib, r.value, tag.dataType);
    if cast.Some? && NumericToFloat64(cast.value).Some? {
      ScalingInverts(tag.scaling.value, NumericToFloat64(cast.value).value);
    }
  }

  /** The readings of known tags, normalised, in order. */
  function Forwarded(lib: Library, tags: map<Id, TagSettings>, readings: seq<Reading>): seq<Reading> {
    if readings == [] then []
    else
      var last := readings[|readings| - 1];
      Forwarded(lib, tags, readings[..|readings| - 1])
      + if last.tagID in tags then [Normalized(lib, last, tags[last.tagID])] else []
  }

  /** The tag's raw bounds coincide, so its interpolation is skipped. */
  predicate Degenerate(tag: TagSettings) {
    tag.scaling.Some? && ShouldInterpolate(tag.scaling.value) && tag.scaling.value.rawMin == tag.scaling.value.rawMax
  }

  class NormalizingPublisher {
    var warnedTags: set<Id>
    ghost var warnings: seq<Id>

    constructor ()
      ensures Valid() && warnings == []
    {
      warnedTags, warnings := {}, [];
    }

    /** No tag is warned about twice. */
    ghost predicate Valid()
      reads this
    {
      NoDuplicates(warnings) && ToSet(warnings) == warnedTags
    }

    method WarnZeroDivisionOnce(t: Id, tag: TagSettings)
      requires Valid()
      modifies this
      ensures Valid()
      ensures warnings == old(warnings) + if Degenerate(tag) && t !in old(warnings) then [t] else []
    {
      assert t in warnings <==> t in ToSet(warnings);
      if tag.scaling.None? || !ShouldInterpolate(tag.scaling.value) || tag.scaling.value.rawMin != tag.scaling.value.rawMax {
        return;
      }
      if t in warnedTags {
        return;
      }
      ToSetSnoc(warnings, t);
      warnedTags, warnings := warnedTags + {t}, warnings + [t];
    }

    /** Returns what is handed to the next publisher. */
    method Publish(lib: Library, tags: map<Id, TagSettings>, readings: seq<Reading>) returns (forwarded: seq<Reading>)
      requires Valid()
      modifies this
      ensures Valid()
      ensures forwarded == Forwarded(lib, tags, readings)
      ensures old(warnings) <= warnings
      ensures forall t :: t in warnings <==>
        t in old(warnings) || (t in tags && Degenerate(tags[t]) && exists i :: 0 <= i < |readings| && readings[i].tagID == t)
    {
      hide Normalized, Degenerate;
      forwarded := [];
      for n := 0 to |readings|
        invariant Valid()
        invariant forwarded == Forwarded(lib, tags, readings[..n])
        invariant old(warnings) <= warnings
        invariant forall t :: t in warnings <==>
          t in old(warnings) || (t in tags && Degenerate(tags[t]) && exists i :: 0 <= i < n && readings[i].tagID == t)
      {
        var reading := readings[n];
        assert readings[..n + 1][..n] == readings[..n];
        if reading.tagID !in tags {
          continue;
        }
        WarnZeroDivisionOnce(reading.tagID, tags[reading.tagID]);
        var normalized := NormalizeReading(lib, reading, tags[reading.tagID]);
        forwarded := forwarded + [normalized];
      }
      assert readings[..|readings|] == readings;
    }
  }
}
