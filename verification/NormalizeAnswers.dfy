/** What every kind of value is cast to, and what normalising makes of a reading. */
module NormalizeAnswers {
  import opened Common
  import opened Text
  import opened Normalize

  const INTEGERS := {Int8, Int16, Int32, Uint8, Uint16, Uint32}

  /** An unsigned number casts to an integer type exactly when it fits, and then to itself. */
  lemma UnsignedCastIff(lib: Library, u: nat, t: DataType)
    requires t in INTEGERS
    ensures CastByDataType(lib, Uint(u), t)
      == if InRange(Int(u), t) then Some(Int(u)) else if InRange(Uint(u), t) then Some(Uint(u)) else None
  {
    hide Narrowed;
    if t in {Int8, Int16, Int32} {
      if u < SignedHalf(t) {
        NarrowedIsItself(u, t);
      }
    } else if u < UnsignedCount(t) {
      ReducedIsItself(u, t);
    }
  }

  lemma TruncatedIs(x: real, y: int)
    ensures Truncated(x) == y <==>
      (x >= 0.0 && y as real <= x < y as real + 1.0) || (x < 0.0 && y as real - 1.0 < x <= y as real)
  {
  }

  /** A float that fits into 64 bits casts to an integer type as the integer part y, cut towards zero; below zero it has no unsigned value,
    * not even when the integer part is zero. */
  lemma FloatCasts(lib: Library, x: real, t: DataType, y: int)
    requires t in INTEGERS
    requires if t in {Int8, Int16, Int32} then -MAX_INT64 - 1 <= y <= MAX_INT64 else y < 0x1_0000_0000_0000_0000
    requires (x >= 0.0 && y as real <= x < y as real + 1.0) || (x < 0.0 && y as real - 1.0 < x <= y as real)
    ensures CastByDataType(lib, Float(x), t)
      == if t in {Uint8, Uint16, Uint32} && x < 0.0 then None else CastByDataType(lib, Int(y), t)
  {
    hide CastByDataType, Truncated;
    TruncatedIs(x, y);
    if t in {Int8, Int16, Int32} {
      SignedFollows(lib, Float(x), Int(y), t);
    } else {
      UnsignedFollows(lib, Float(x), if x < 0.0 then Other else Int(y), t);
      OtherCasts(lib, t);
    }
  }

  lemma SignedFollows(lib: Library, v: Value, w: Value, t: DataType)
    requires t in {Int8, Int16, Int32} && ToInt64(lib, v) == ToInt64(lib, w)
    ensures CastByDataType(lib, v, t) == CastByDataType(lib, w, t)
  {
    hide ToInt64, Narrowed;
  }

  lemma UnsignedFollows(lib: Library, v: Value, w: Value, t: DataType)
    requires t in {Uint8, Uint16, Uint32} && ToUint64(lib, v) == ToUint64(lib, w)
    ensures CastByDataType(lib, v, t) == CastByDataType(lib, w, t)
  {
    hide ToUint64;
  }

  /** A float beyond 64 bits casts as whatever the conversion makes of it. */
  lemma WildFloatCasts(lib: Library, x: real, t: DataType)
    requires t in INTEGERS
    ensures t in {Int8, Int16, Int32} && (x >= 9223372036854775808.0 || x <= -9223372036854775809.0) ==>
      CastByDataType(lib, Float(x), t) == CastByDataType(lib, Int(lib.wildInt64(x)), t)
    ensures t in {Uint8, Uint16, Uint32} && x >= 18446744073709551616.0 ==>
      CastByDataType(lib, Float(x), t) == CastByDataType(lib, Uint(lib.wildUint64(x)), t)
  {
    hide CastByDataType;
    if t in {Int8, Int16, Int32} {
      if x >= 9223372036854775808.0 || x <= -9223372036854775809.0 {
        SignedFollows(lib, Float(x), Int(lib.wildInt64(x)), t);
      }
    } else if x >= 18446744073709551616.0 {
      UnsignedFollows(lib, Float(x), Uint(lib.wildUint64(x)), t);
    }
  }

  /** A text casts to a numeric type as the number that it spells, and not at all if it spells none. */
  lemma TextCasts(lib: Library, s: string, t: DataType)
    requires t in INTEGERS + {Float32, Float64}
    ensures CastByDataType(lib, Text(s), t)
      == var spelled := if t in {Int8, Int16, Int32} then Spelled(Atoi(TrimSpace(s)), (i: int) => Int(i))
           else if t in {Uint8, Uint16, Uint32} then Spelled(ParseUint(TrimSpace(s), 0x1_0000_0000_0000_0000), (u: nat) => Uint(u))
           else Spelled(lib.parseFloat(TrimSpace(s)), (x: real) => Float(x));
         if spelled.Some? then CastByDataType(lib, spelled.value, t) else None
  {
    hide CastByDataType, Atoi, ParseUint, TrimSpace;
    if t in {Int8, Int16, Int32} {
      var i := Atoi(TrimSpace(s));
      SignedFollows(lib, Text(s), if i.Some? then Int(i.value) else Other, t);
    } else if t in {Uint8, Uint16, Uint32} {
      var u := ParseUint(TrimSpace(s), MAX_UINT64_LIMIT);
      UnsignedFollows(lib, Text(s), if u.Some? then Uint(u.value) else Other, t);
    } else {
      FloatsFollow(lib, s, t);
    }
    OtherCasts(lib, t);
  }

  function Spelled<N>(number: Option<N>, value: N -> Value): Option<Value> {
    if number.Some? then Some(value(number.value)) else None
  }

  lemma FloatsFollow(lib: Library, s: string, t: DataType)
    requires t in {Float32, Float64}
    ensures CastByDataType(lib, Text(s), t)
      == var x := lib.parseFloat(TrimSpace(s)); if x.Some? then CastByDataType(lib, Float(x.value), t) else None
  {
    hide TrimSpace;
  }

  /** A text is true or false by its word, or else as the number that it spells. */
  lemma TextToBool(lib: Library, s: string)
    ensures var word := TrimSpace(s);
      && (lib.isTrue(word) ==> CastByDataType(lib, Text(s), BoolType) == Some(Bool(true)))
      && (lib.isFalse(word) && !lib.isTrue(word) ==> CastByDataType(lib, Text(s), BoolType) == Some(Bool(false)))
      && (!lib.isTrue(word) && !lib.isFalse(word) ==>
            CastByDataType(lib, Text(s), BoolType)
            == if lib.parseFloat(word).Some? then CastByDataType(lib, Float(lib.parseFloat(word).value), BoolType) else None)
  {
    hide TrimSpace;
  }

  /** A number keeps its value as a float, whatever casts to text is formatted, a truth value stays one, and nothing else casts. */
  lemma OtherCasts(lib: Library, t: DataType)
    ensures forall v: Value :: CastByDataType(lib, v, StringType) == Some(Text(lib.format(v)))
    ensures forall b :: CastByDataType(lib, Bool(b), BoolType) == Some(Bool(b))
    ensures forall b :: t != BoolType && t != StringType ==> CastByDataType(lib, Bool(b), t) == None
    ensures t != StringType ==> CastByDataType(lib, Other, t) == None
    ensures forall v: Value :: CastByDataType(lib, v, Unsupported) == None
    ensures t in {Float32, Float64} ==>
      && (forall i :: CastByDataType(lib, Int(i), t) == Some(Float(i as real)))
      && (forall u :: CastByDataType(lib, Uint(u), t) == Some(Float(u as real)))
      && (forall x :: CastByDataType(lib, Float(x), t) == Some(Float(x)))
  {
    hide Narrowed;
  }

  // ---- readings ------------------------------------------------------------------------------------------

  /** A reading of bad quality passes unchanged. A good one keeps its tag and its raw value, and without a cast turns bad with the value
    * it had; otherwise it stays good and carries the cast, scaled if there is a scaling and the cast is a number. */
  lemma NormalizedAnswers(lib: Library, r: Reading, tag: TagSettings)
    ensures var n := Normalized(lib, r, tag);
      var cast := CastByDataType(lib, r.value, tag.dataType);
      && n.tagID == r.tagID
      && (!r.good ==> n == r)
      && (r.good ==> n.rawValue == Some(r.value) && n.good == cast.Some? && n.failed == (r.failed || cast.None?))
      && (r.good && cast.None? ==> n.value == r.value)
      && (r.good && cast.Some? && tag.scaling.None? ==> n.value == cast.value)
      && (r.good && cast.Some? && (cast.value.Text? || cast.value.Bool?) ==> n.value == cast.value)
  {
    hide CastByDataType, Scaled;
  }

  /** The scaled value, written out. */
  lemma ScaledValue(
    lib: Library, r: Reading, dataType: DataType, x: real,
    rawMin: real, rawMax: real, engMin: real, engMax: real, factor: real, offset: real)
    requires r.good && CastByDataType(lib, r.value, dataType).Some?
    requires NumericToFloat64(CastByDataType(lib, r.value, dataType).value) == Some(x)
    ensures var value := (scaling: Scaling) => Normalized(lib, r, TagSettings(dataType, Some(scaling))).value;
      && (rawMin != rawMax ==>
            value(Scaling(Some(rawMin), Some(rawMax), Some(engMin), Some(engMax), Some(factor), Some(offset)))
            == Float(((x - rawMin) * (engMax - engMin) / (rawMax - rawMin) + engMin) * factor + offset))
      && value(Scaling(Some(rawMin), Some(rawMin), Some(engMin), Some(engMax), Some(factor), Some(offset))) == Float(x * factor + offset)
      && value(Scaling(None, Some(rawMax), Some(engMin), Some(engMax), Some(factor), Some(offset))) == Float(x * factor + offset)
      && value(Scaling(Some(rawMin), None, Some(engMin), Some(engMax), Some(factor), Some(offset))) == Float(x * factor + offset)
      && value(Scaling(Some(rawMin), Some(rawMax), None, Some(engMax), Some(factor), Some(offset))) == Float(x * factor + offset)
      && value(Scaling(Some(rawMin), Some(rawMax), Some(engMin), None, Some(factor), Some(offset))) == Float(x * factor + offset)
      && value(Scaling(None, None, None, None, Some(factor), None)) == Float(x * factor)
      && value(Scaling(None, None, None, None, None, Some(offset))) == Float(x + offset)
      && value(Scaling(None, None, None, None, None, None)) == Float(x)
  {
    hide CastByDataType;
  }

  /** Readings are forwarded one by one, in order, each normalised for its own tag and only if that is known. */
  lemma {:induction false} ForwardedOneByOne(lib: Library, tags: map<Id, TagSettings>, front: seq<Reading>, r: Reading, back: seq<Reading>)
    ensures Forwarded(lib, tags, []) == []
    ensures Forwarded(lib, tags, front + [r] + back)
      == Forwarded(lib, tags, front) + (if r.tagID in tags then [Normalized(lib, r, tags[r.tagID])] else []) + Forwarded(lib, tags, back)
  {
    hide Normalized;
    var all := front + [r] + back;
    if back == [] {
      assert all[..|all| - 1] == front;
    } else {
      ForwardedOneByOne(lib, tags, front, r, back[..|back| - 1]);
      assert all[..|all| - 1] == front + [r] + back[..|back| - 1];
    }
  }

  /** The tag that is warned about is the one whose interpolation is skipped; any other complete interpolation takes bounds to bounds. */
  lemma WarnedIffSkipped(s: Scaling, dataType: DataType, x: real)
    ensures Degenerate(TagSettings(dataType, Some(s))) ==> ShouldInterpolate(s) && Interpolated(s, x) == x
    ensures !Degenerate(TagSettings(dataType, Some(s))) && ShouldInterpolate(s) ==>
      s.rawMin != s.rawMax && Interpolated(s, s.rawMin.value) == s.engMin.value && Interpolated(s, s.rawMax.value) == s.engMax.value
  {
    if ShouldInterpolate(s) && s.rawMin != s.rawMax {
      InterpolatesInterval(s, s.rawMin.value);
    }
  }
}
