/** The data shared by every part of the deserializer: JVM-level types and
    runtime values, the lexer's tokens, and the one error category that every
    failure surfaces as (JKidException, MalformedJSONException and
    IllegalArgumentException in the Kotlin code). */
module Values {

  /** Fixed-width JVM integers. */
  type Int8 = x: int | -0x80 <= x < 0x80
  type Int16 = x: int | -0x8000 <= x < 0x8000
  type Int32 = x: int | -0x8000_0000 <= x < 0x8000_0000
  type Int64 = x: int | -0x8000_0000_0000_0000 <= x < 0x8000_0000_0000_0000

  /** A class is identified by its qualified name (the KClass identity). */
  type ClassId = string

  datatype Option<+T> = None | Some(value: T) {
    function GetOr(default: T): T {
      if Some? then value else default
    }
  }

  /** The JVM primitive kinds. */
  datatype Kind = ByteKind | ShortKind | IntKind | LongKind | FloatKind | DoubleKind | BooleanKind | CharKind

  /** A declared (Java reflection) type: `param.type.javaType`. */
  datatype Type =
    | Primitive(kind: Kind)   // a JVM primitive class, e.g. `int` for a non-null Kotlin Int
    | Boxed(kind: Kind)       // its object class, e.g. java.lang.Integer for `Int?` or `List<Int>` elements
    | StringType              // java.lang.String
    | ListOf(element: Type)   // a parameterized java.util.List<E>
    | RawList                 // java.util.List, or a class implementing it, without type arguments
    | ClassType(id: ClassId)  // any other class

  /** A `Class` object, as `@DeserializeInterface(targetClass)` gives one:
      any type but a parameterized one. A class implementing `List` is a raw
      list type. */
  type ClassObject = t: Type | !t.ListOf? witness StringType

  /** `char` or `java.lang.Character`: primitive, but without a serializer. */
  predicate IsChar(t: Type) {
    t == Primitive(CharKind) || t == Boxed(CharKind)
  }

  /** `List::class.java.isAssignableFrom(paramType.asJavaClass())` */
  predicate IsListLike(t: Type) {
    t.ListOf? || t.RawList?
  }

  /** `isPrimitiveOrString()`: a primitive (or its box) or String. */
  predicate IsPrimitiveOrString(t: Type) {
    t.Primitive? || t.Boxed? || t.StringType?
  }

  /** The Kotlin class of a non-list type (`paramClass.kotlin`): primitive and
      boxed variants share one KClass. */
  function ClassOf(t: Type): ClassId {
    match t
    case Primitive(k) => KindClass(k)
    case Boxed(k) => KindClass(k)
    case StringType => "kotlin.String"
    case ListOf(_) => "kotlin.collections.List"
    case RawList => "kotlin.collections.List"
    case ClassType(id) => id
  }

  function KindClass(k: Kind): ClassId {
    match k
    case ByteKind => "kotlin.Byte"
    case ShortKind => "kotlin.Short"
    case IntKind => "kotlin.Int"
    case LongKind => "kotlin.Long"
    case FloatKind => "kotlin.Float"
    case DoubleKind => "kotlin.Double"
    case BooleanKind => "kotlin.Boolean"
    case CharKind => "kotlin.Char"
  }

  /** A value converter that is not part of this model: a `@DateFormat`
      date serializer, or a `@CustomSerializer` class. */
  datatype ForeignSerializer = DateSerializer(format: string) | CustomSerializer(name: string)

  /** A runtime value (`Any?`). Floating-point numbers are represented by
      their exact value. */
  datatype Value =
    | Null
    | Bool(b: bool)
    | Str(s: string)
    | Byte(i8: Int8)
    | Short(i16: Int16)
    | Int(i32: Int32)
    | Long(i64: Int64)
    | Float(f: real)
    | Double(d: real)
    | Converted(via: ForeignSerializer, input: Value)  // what a foreign serializer made of `input`
    | List(items: seq<Value>)
    | Instance(cls: ClassId, args: map<nat, Value>)   // a constructed object: constructor argument by parameter index

  /** The values a token can carry (`token.value`). */
  predicate IsJsonScalar(v: Value) {
    v.Null? || v.Bool? || v.Str? || v.Long? || v.Double?
  }

  type JsonScalar = v: Value | IsJsonScalar(v) witness Null

  /** `value.javaClass` of a token value. */
  function RuntimeClass(v: JsonScalar): Type
    requires !v.Null?
  {
    match v
    case Bool(_) => Boxed(BooleanKind)
    case Str(_) => StringType
    case Long(_) => Boxed(LongKind)
    case Double(_) => Boxed(DoubleKind)
  }

  /** The lexer's tokens; the lexer itself is not part of this model. */
  datatype Token =
    | LBRACE | RBRACE | LBRACKET | RBRACKET | COMMA | COLON
    | StringValue(s: string)
    | LongValue(n: Int64)
    | DoubleValue(r: real)
    | BoolValue(b: bool)
    | NullValue

  /** `token is Token.ValueToken` */
  predicate IsValueToken(t: Token) {
    t.StringValue? || t.LongValue? || t.DoubleValue? || t.BoolValue? || t.NullValue?
  }

  /** `token.value` of a value token. */
  function ScalarOf(t: Token): (v: JsonScalar)
    requires IsValueToken(t)
  {
    match t
    case StringValue(s) => Str(s)
    case LongValue(n) => Long(n)
    case DoubleValue(r) => Double(r)
    case BoolValue(b) => Bool(b)
    case NullValue => Null
  }

  /** The token that carries a scalar (what a JSON writer emits for it). */
  function TokenOf(v: JsonScalar): (t: Token)
    ensures IsValueToken(t) && ScalarOf(t) == v
  {
    match v
    case Null => NullValue
    case Bool(b) => BoolValue(b)
    case Str(s) => StringValue(s)
    case Long(n) => LongValue(n)
    case Double(r) => DoubleValue(r)
  }

  /** Every failure of a deserialize call, with the data its message prints. */
  datatype Error =
    // Parser.kt
    | TokenExpected(token: Token)               // "$token expected"
    | TooManyTokens
    | UnexpectedToken(found: Token)
    | ExpectedComma
    | PrematureEnd                              // "Premature end of data"
    // Deserializer.kt
    | ArrayExpected                             // "An array expected, not a composite object"
    | UnsupportedParameterType
    | ObjectExpectedNotArray(t: Type)           // "Object of the type ... expected, not an array"
    | PrimitiveInObjectCollection
    | ObjectInPrimitiveCollection
    // ClassInfoCache.kt
    | NoPrimaryConstructor(cls: ClassId)
    | ParameterWithoutName(cls: ClassId)
    | ParameterNotFound(property: string, cls: ClassId)
    | NullForNonNullParameter(param: Option<string>)
    | TypeMismatch(param: Option<string>, declared: Type, actual: Type)
    | MissingValue(param: Option<string>)
    // ValueSerializers.kt
    | ExpectedNumber(was: Value)
    | ExpectedBoolean(was: Value)
    | ExpectedString(was: Value)
    | NullPointer                               // `serializerForType(type)!!` found no serializer

  datatype Result<+T> = Ok(value: T) | Err(error: Error) {
    predicate IsFailure() {
      Err?
    }

    function PropagateFailure<U>(): Result<U>
      requires Err?
    {
      Err(error)
    }

    function Extract(): T
      requires Ok?
    {
      value
    }
  }

  datatype Outcome = Pass | Fail(error: Error) {
    predicate IsFailure() {
      Fail?
    }

    function PropagateFailure(): Outcome
      requires Fail?
    {
      this
    }
  }
}
