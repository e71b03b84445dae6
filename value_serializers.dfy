/** The value codecs of ValueSerializers.kt: the choice of a serializer for a
    declared type, and the per-type `fromJsonValue` / `toJsonValue`. */
module ValueSerializers {
  import opened Values

  /** The serializer objects, plus the two serializers whose conversions are
      not part of this model (date formats and custom serializer classes). */
  datatype Serializer =
    | ByteSerializer
    | ShortSerializer
    | IntSerializer
    | LongSerializer
    | FloatSerializer
    | DoubleSerializer
    | BooleanSerializer
    | StringSerializer
    | Foreign(foreign: ForeignSerializer)

  function KindSerializer(k: Kind): Option<Serializer> {
    match k
    case ByteKind => Some(ByteSerializer)
    case ShortKind => Some(ShortSerializer)
    case IntKind => Some(IntSerializer)
    case LongKind => Some(LongSerializer)
    case FloatKind => Some(FloatSerializer)
    case DoubleKind => Some(DoubleSerializer)
    case BooleanKind => Some(BooleanSerializer)
    case CharKind => None
  }

  /** `v` is a (non-null) instance of the declared type `t`; a String-typed
      slot may also hold null. */
  predicate InstanceOf(v: Value, t: Type) {
    match t
    case Primitive(k) => OfKind(v, k)
    case Boxed(k) => OfKind(v, k)
    case StringType => v.Str? || v.Null?
    case _ => false
  }

  predicate OfKind(v: Value, k: Kind) {
    match k
    case ByteKind => v.Byte?
    case ShortKind => v.Short?
    case IntKind => v.Int?
    case LongKind => v.Long?
    case FloatKind => v.Float?
    case DoubleKind => v.Double?
    case BooleanKind => v.Bool?
    case CharKind => false
  }

  /** The values a serializer's `toJsonValue` takes (its type parameter). */
  predicate OfSerializerType(s: Serializer, v: Value) {
    match s
    case ByteSerializer => v.Byte?
    case ShortSerializer => v.Short?
    case IntSerializer => v.Int?
    case LongSerializer => v.Long?
    case FloatSerializer => v.Float?
    case DoubleSerializer => v.Double?
    case BooleanSerializer => v.Bool?
    case StringSerializer => v.Str? || v.Null?
    case Foreign(_) => false
  }

  /** `serializerForType`: Byte, Short, Int, Long, Float, Double and Boolean,
      primitive or boxed, and String get their serializer; nothing else does,
      `char` and `Character` included.
      The serializer chosen turns every input it accepts into a value of
      the declared type. */
  function SerializerForType(t: Type): (r: Option<Serializer>)
    ensures r.Some? <==> IsPrimitiveOrString(t) && !IsChar(t)
    ensures r.Some? ==> !r.value.Foreign?
    ensures r.Some? ==> forall v :: FromJsonValue(r.value, v).Ok? ==> InstanceOf(FromJsonValue(r.value, v).value, t)
  {
    match t
    case Primitive(k) => KindSerializer(k)
    case Boxed(k) => KindSerializer(k)
    case StringType => Some(StringSerializer)
    case _ => None
  }

  /** `serializerForBasicType`: asserts that the type is primitive or String,
      and then `!!` throws for the one primitive without a serializer, `char`. */
  function SerializerForBasicType(t: Type): (r: Result<Serializer>)
    requires IsPrimitiveOrString(t)
    ensures r.Ok? <==> !IsChar(t)
    ensures r.Ok? ==> SerializerForType(t) == Some(r.value)
    ensures r.Err? ==> r.error == NullPointer
  {
    match SerializerForType(t)
    case Some(s) => Ok(s)
    case None => Err(NullPointer)
  }

  predicate IsNumber(v: Value) {
    v.Byte? || v.Short? || v.Int? || v.Long? || v.Float? || v.Double?
  }

  predicate IsIntegral(v: Value) {
    v.Byte? || v.Short? || v.Int? || v.Long?
  }

  function IntegralValue(v: Value): int
    requires IsIntegral(v)
  {
    match v
    case Byte(n) => n
    case Short(n) => n
    case Int(n) => n
    case Long(n) => n
  }

  function RealValue(v: Value): real
    requires IsNumber(v)
  {
    if IsIntegral(v) then IntegralValue(v) as real else if v.Float? then v.f else v.d
  }

  /** `expectNumber`: a non-number is rejected, a number passes unchanged. */
  function ExpectNumber(v: Value): (r: Result<Value>)
    ensures r.Ok? <==> IsNumber(v)
    ensures r.Ok? ==> r.value == v
    ensures r.Err? ==> r.error == ExpectedNumber(v)
  {
    if IsNumber(v) then Ok(v) else Err(ExpectedNumber(v))
  }

  // JVM numeric conversions (`Number.toByte()` and friends)

  /** Keeps the low `8` bits, read as two's complement. */
  function WrapInt8(x: int): (r: Int8)
    ensures (x - r) % 0x100 == 0
    ensures -0x80 <= x < 0x80 ==> r == x
  {
    (x + 0x80) % 0x100 - 0x80
  }

  function WrapInt16(x: int): (r: Int16)
    ensures (x - r) % 0x1_0000 == 0
    ensures -0x8000 <= x < 0x8000 ==> r == x
  {
    (x + 0x8000) % 0x1_0000 - 0x8000
  }

  function WrapInt32(x: int): (r: Int32)
    ensures (x - r) % 0x1_0000_0000 == 0
    ensures -0x8000_0000 <= x < 0x8000_0000 ==> r == x
  {
    (x + 0x8000_0000) % 0x1_0000_0000 - 0x8000_0000
  }

  /** Rounds toward zero, as a floating-point to integer cast does. */
  function Truncate(r: real): (n: int)
    ensures 0.0 <= r ==> 0 <= n && n as real <= r < n as real + 1.0
    ensures r <= 0.0 ==> n <= 0 && n as real - 1.0 < r <= n as real
  {
    if r >= 0.0 then r.Floor else -((-r).Floor)
  }

  /** A floating-point to `int` cast: truncation, saturating at the bounds. */
  function SaturateInt32(x: int): (r: Int32)
    ensures -0x8000_0000 <= x < 0x8000_0000 ==> r == x
    ensures x < -0x8000_0000 ==> r == -0x8000_0000
    ensures 0x8000_0000 <= x ==> r == 0x7FFF_FFFF
  {
    if x < -0x8000_0000 then -0x8000_0000 else if x >= 0x8000_0000 then 0x7FFF_FFFF else x
  }

  function SaturateInt64(x: int): (r: Int64)
    ensures -0x8000_0000_0000_0000 <= x < 0x8000_0000_0000_0000 ==> r == x
    ensures x < -0x8000_0000_0000_0000 ==> r == -0x8000_0000_0000_0000
    ensures 0x8000_0000_0000_0000 <= x ==> r == 0x7FFF_FFFF_FFFF_FFFF
  {
    if x < -0x8000_0000_0000_0000 then -0x8000_0000_0000_0000
    else if x >= 0x8000_0000_0000_0000 then 0x7FFF_FFFF_FFFF_FFFF
    else x
  }

  /** `Number.toInt()`: integers keep their low 32 bits; floating-point values
      are truncated toward zero and saturate. */
  function NumberToInt(v: Value): Int32
    requires IsNumber(v)
  {
    if IsIntegral(v) then WrapInt32(IntegralValue(v)) else SaturateInt32(Truncate(RealValue(v)))
  }

  /** `Number.toShort()` / `Number.toByte()`: floating-point values go through
      `int` first. */
  function NumberToShort(v: Value): Int16
    requires IsNumber(v)
  {
    if IsIntegral(v) then WrapInt16(IntegralValue(v)) else WrapInt16(NumberToInt(v))
  }

  function NumberToByte(v: Value): Int8
    requires IsNumber(v)
  {
    if IsIntegral(v) then WrapInt8(IntegralValue(v)) else WrapInt8(NumberToInt(v))
  }

  function NumberToLong(v: Value): Int64
    requires IsNumber(v)
  {
    if IsIntegral(v) then IntegralValue(v) else SaturateInt64(Truncate(RealValue(v)))
  }

  /** `fromJsonValue` of every serializer. The numeric ones reject anything
      but a number, Boolean anything but a boolean, String anything but a
      string or null; a foreign serializer's conversion is left symbolic. */
  function FromJsonValue(s: Serializer, v: Value): (r: Result<Value>)
    ensures r.Ok? && !s.Foreign? ==> OfSerializerType(s, r.value)
    ensures s.Foreign? ==> r == Ok(Converted(s.foreign, v))
    ensures s in {ByteSerializer, ShortSerializer, IntSerializer, LongSerializer, FloatSerializer, DoubleSerializer} ==>
              (r.Ok? <==> IsNumber(v)) && (r.Err? ==> r.error == ExpectedNumber(v))
    ensures s == BooleanSerializer ==> (if v.Bool? then r == Ok(v) else r == Err(ExpectedBoolean(v)))
    ensures s == StringSerializer ==> (if v.Str? || v.Null? then r == Ok(v) else r == Err(ExpectedString(v)))
  {
    match s
    case ByteSerializer =>
      var n :- ExpectNumber(v);
      Ok(Byte(NumberToByte(n)))
    case ShortSerializer =>
      var n :- ExpectNumber(v);
      Ok(Short(NumberToShort(n)))
    case IntSerializer =>
      var n :- ExpectNumber(v);
      Ok(Int(NumberToInt(n)))
    case LongSerializer =>
      var n :- ExpectNumber(v);
      Ok(Long(NumberToLong(n)))
    case FloatSerializer =>
      var n :- ExpectNumber(v);
      Ok(Float(RealValue(n)))
    case DoubleSerializer =>
      var n :- ExpectNumber(v);
      Ok(Double(RealValue(n)))
    case BooleanSerializer =>
      if v.Bool? then Ok(v) else Err(ExpectedBoolean(v))
    case StringSerializer =>
      if v.Str? || v.Null? then Ok(v) else Err(ExpectedString(v))
    case Foreign(f) =>
      Ok(Converted(f, v))
  }

  /** `toJsonValue` of the primitive serializers: the identity. */
  function ToJsonValue(s: Serializer, v: Value): Value
    requires OfSerializerType(s, v)
  {
    v
  }

  /** Decoding what a primitive serializer encoded gives the value back. */
  lemma RoundTrip(s: Serializer, v: Value)
    requires OfSerializerType(s, v)
    ensures FromJsonValue(s, ToJsonValue(s, v)) == Ok(v)
  {
  }

  /** The integral decoders narrow like a JVM cast: the result agrees with
      the input modulo two to the width, and equals it when it fits. */
  lemma IntegralNarrowing(v: Value)
    requires IsIntegral(v)
    ensures FromJsonValue(ByteSerializer, v).Ok? && (IntegralValue(v) - FromJsonValue(ByteSerializer, v).value.i8) % 0x100 == 0
    ensures FromJsonValue(ShortSerializer, v).Ok? && (IntegralValue(v) - FromJsonValue(ShortSerializer, v).value.i16) % 0x1_0000 == 0
    ensures FromJsonValue(IntSerializer, v).Ok? && (IntegralValue(v) - FromJsonValue(IntSerializer, v).value.i32) % 0x1_0000_0000 == 0
    ensures FromJsonValue(LongSerializer, v) == Ok(Long(IntegralValue(v)))
  {
  }

  /** A JSON integer that fits the target width is decoded exactly. */
  lemma LongTokenDecodesExactly(n: Int64)
    ensures -0x80 <= n < 0x80 ==> FromJsonValue(ByteSerializer, Long(n)) == Ok(Byte(n))
    ensures -0x8000 <= n < 0x8000 ==> FromJsonValue(ShortSerializer, Long(n)) == Ok(Short(n))
    ensures -0x8000_0000 <= n < 0x8000_0000 ==> FromJsonValue(IntSerializer, Long(n)) == Ok(Int(n))
  {
  }

  /** A JSON floating-point number decoded as an integer is truncated toward
      zero; in range, the result is within one of the input. */
  lemma DoubleTokenTruncates(r: real)
    requires -2147483648.0 <= r < 2147483648.0
    ensures FromJsonValue(IntSerializer, Double(r)).Ok?
    ensures var n := FromJsonValue(IntSerializer, Double(r)).value.i32;
            (0.0 <= r ==> n as real <= r < n as real + 1.0) && (r <= 0.0 ==> n as real - 1.0 < r <= n as real)
  {
  }
}
