# JKid deserialization, modelled in Dafny

This project models the deserialization half of JKid, a small Kotlin JSON
library that turns a JSON document into an instance of a Kotlin class by
reflection. It covers the four pieces that make up `deserialize(json, Book::class)`:

- **The parser** (`Parser.kt`). It is a recursive-descent driver over the
  lexer's tokens. It builds no tree. Instead it reports what it reads as
  calls on a `JsonObject` sink: `setSimpleProperty`, `createObject` and
  `createArray`. Each nested object or array gets a child sink of its own.
- **The seeds** (`Deserializer.kt`). These are the three `JsonObject` sinks:
  `ObjectSeed`, `ObjectListSeed` and `ValueListSeed`. They accumulate
  constructor arguments or list elements and finally `spawn` the value.
  `createSeedForType` picks the kind of seed from the declared type and
  from whether the JSON value is an array.
- **The class descriptors** (`ClassInfoCache.kt`). A `ClassInfo` maps JSON
  keys to constructor parameters, honouring `@JsonName`. It records
  `@DeserializeInterface` override classes and a value serializer per
  parameter. It checks arguments that have no serializer, and it checks
  that required parameters are present before construction.
  `ClassInfoCache` memoizes descriptors per class.
- **The value serializers** (`ValueSerializers.kt`). These are
  `serializerForType`, `serializerForBasicType`, `expectNumber` and the
  primitive and String serializers.

Modules:

| file | module | form |
|---|---|---|
| `values.dfy` | `Values` | types, runtime values, tokens, errors, `Result`/`Outcome`/`Option` |
| `value_serializers.dfy` | `ValueSerializers` | pure functions and lemmas |
| `class_info_cache.dfy` | `ClassInfoCache` | descriptor functions; the initializer loop as a method; the cache as a class |
| `parser.dfy` | `Parser` | specification functions; classes `TokenStream`, `EventSink` and `Parser`, whose methods are proved equal to those functions |
| `parser_properties.dfy` | `ParserProperties` | what the parser accepts and rejects, and which calls it makes |
| `parser_documents.dfy` | `ParserDocuments` | JSON documents as trees, their printed tokens and the calls that report them; the parser accepts exactly the printed documents and makes exactly their calls |
| `deserializer.dfy` | `Deserializer` | seeds, `createSeedForType`, sink calls and `spawn`; class `SeedForest` and method `Deserialize` |
| `deserializer_properties.dfy` | `DeserializerProperties` | what a spawn builds, that seeds keep their types, and how `deserialize` fails |
| `book_example.dfy` | `BookExample` | the `Book`/`Author`/`BirthOfDate` example, end to end |

Modelling choices:

- **Reflection is replaced by a `Registry`.** This maps a class name to a
  `ClassDecl`: an optional primary constructor (parameters with name, type,
  nullable and optional flags) and the declared member properties with
  their annotations.
- **A constructor parameter is identified by its index.**
- **The lexer is replaced by the token sequence it would produce.** The
  `TokenStream` class is a cursor over that sequence.
- **The sink tree seen by the parser is `EventSink`.** It logs the calls
  made on it and numbers sinks in creation order, the root being 0. The
  parser only ever looks at the child handle a sink returns, so the log is
  all of a sink that the parser can observe.
- **Seeds live in an arena (`SeedForest.seeds`).** A sink handle is an index
  into it, and a seed refers to its children by index. `deserialize`
  replays the logged calls into the arena in order and stops at the first
  that fails. A failing sink call therefore wins over a syntax error later
  in the document, exactly as when the calls interleave with the parse.
- **JVM integers are explicit.** `toByte`/`toShort`/`toInt` wrap to 8, 16 and
  32 bits. A floating-point value is truncated toward zero and saturates
  when converted to `int`/`long`.
- **Parser behaviour at end of input follows the code.** The library's
  documented behaviour is "Premature end of data" for any input that ends
  inside a structure. The code reports "COLON expected" when the input
  ends right after a member key, because `expect` reads the lexer directly
  rather than through `nextToken`. The model follows the code
  (`ParserProperties.EndOfInputError`).

## Model

| member | source | states |
|---|---|---|
| ValueSerializers.SerializerForType | src/main/kotlin/ValueSerializers.kt:14-25 | a serializer exists exactly for Byte, Short, Int, Long, Float, Double, Boolean (primitive or boxed) and String, so not for `char`/`Character`; it is never a date or custom one; whatever it decodes is an instance of the declared type |
| ValueSerializers.SerializerForBasicType | src/main/kotlin/ValueSerializers.kt:8-11 | on a primitive-or-String type (the `assert`), the serializer `serializerForType` picks; `char`/`Character` has none, and `!!` fails with a null-pointer error |
| ValueSerializers.ExpectNumber | src/main/kotlin/ValueSerializers.kt:39-42 | a number passes unchanged; anything else is rejected with "Expected number" carrying the value |
| ValueSerializers.WrapInt8 | src/main/kotlin/ValueSerializers.kt:44-47 | `toByte` keeps the value modulo 2^8 and leaves a value that fits unchanged |
| ValueSerializers.WrapInt16 | src/main/kotlin/ValueSerializers.kt:49-52 | `toShort` keeps the value modulo 2^16 and leaves a value that fits unchanged |
| ValueSerializers.WrapInt32 | src/main/kotlin/ValueSerializers.kt:54-57 | `toInt` keeps the value modulo 2^32 and leaves a value that fits unchanged |
| ValueSerializers.Truncate | src/main/kotlin/ValueSerializers.kt:54-57 | a floating-point value converted to an integer is rounded toward zero: a non-negative value becomes the largest integer not above it, a non-positive one the smallest integer not below it |
| ValueSerializers.SaturateInt32 | src/main/kotlin/ValueSerializers.kt:54-57 | a truncated value in the `int` range is unchanged; below it the result is `Int.MIN_VALUE`, above it `Int.MAX_VALUE` |
| ValueSerializers.SaturateInt64 | src/main/kotlin/ValueSerializers.kt:59-62 | a truncated value in the `long` range is unchanged; below it the result is `Long.MIN_VALUE`, above it `Long.MAX_VALUE` |
| ValueSerializers.FromJsonValue | src/main/kotlin/ValueSerializers.kt:44-90 | the numeric serializers accept exactly numbers and fail otherwise with "Expected number"; Boolean returns a boolean unchanged and fails otherwise with "Expected boolean"; String returns a string or null unchanged and fails otherwise with "Expected string"; every result of these has the serializer's type; a date or custom serializer's conversion is kept symbolic |
| ValueSerializers.RoundTrip | src/main/kotlin/ValueSerializers.kt:44-90 | `fromJsonValue(toJsonValue(v)) == v` for every primitive and String serializer and every value of its type |
| ValueSerializers.IntegralNarrowing | src/main/kotlin/ValueSerializers.kt:44-62 | on an integral input, Byte/Short/Int decoding succeeds and agrees with the input modulo 2^8/2^16/2^32; Long decoding is exact |
| ValueSerializers.LongTokenDecodesExactly | src/main/kotlin/ValueSerializers.kt:44-57 | a JSON integer that fits the target width decodes to itself as Byte, Short or Int |
| ValueSerializers.DoubleTokenTruncates | src/main/kotlin/ValueSerializers.kt:54-57 | a JSON floating-point number in the `int` range decodes as Int, truncated toward zero |
| ClassInfoCache.FindProperty | src/main/kotlin/deserialization/ClassInfoCache.kt:44 | none is found exactly when no declared property has the name; otherwise one with that name, taken from the declared properties |
| ClassInfoCache.CacheParameters | src/main/kotlin/deserialization/ClassInfoCache.kt:33-60 | after the first `n` parameters, every key maps to one of those parameters |
| ClassInfoCache.Describe | src/main/kotlin/deserialization/ClassInfoCache.kt:20-35 | no primary constructor fails with that error; otherwise the build fails exactly when some parameter has no name; a built descriptor carries the class and its constructor's parameters |
| ClassInfoCache.BuildClassInfo | src/main/kotlin/deserialization/ClassInfoCache.kt:20-60 | the initializer loop filling the three maps builds exactly `Describe` |
| ClassInfoCache.LastWithKey | src/main/kotlin/deserialization/ClassInfoCache.kt:44-46 | the last parameter whose key is `key`, or none exactly when no parameter has that key |
| ClassInfoCache.NamesMeaning | src/main/kotlin/deserialization/ClassInfoCache.kt:44-46 | the key map holds exactly the keys of parameters with a backing property, each mapped to the last parameter having it (later insertions overwrite) |
| ClassInfoCache.DeserializeAsMeaning | src/main/kotlin/deserialization/ClassInfoCache.kt:44-51 | the override map has the key map's keys and holds the `@DeserializeInterface` class of the property behind each key's parameter |
| ClassInfoCache.SerializersMeaning | src/main/kotlin/deserialization/ClassInfoCache.kt:54-59 | a parameter has a serializer exactly when it has a backing property and a preferred serializer, and then it is that one |
| ClassInfoCache.DescribeKeys | src/main/kotlin/deserialization/ClassInfoCache.kt:33-51 | on a built descriptor, a key is present iff some parameter has it, resolves to the last such parameter, and the override map has the same keys |
| ClassInfoCache.RenamedParameterKey | src/main/kotlin/deserialization/ClassInfoCache.kt:45-46 | a parameter renamed by `@JsonName(k)` is reachable through `k` and through no other key |
| ClassInfoCache.SkippedParameter | src/main/kotlin/deserialization/ClassInfoCache.kt:44 | a parameter without a backing property gets no key and no serializer |
| ClassInfoCache.SerializerPreference | src/main/kotlin/deserialization/ClassInfoCache.kt:54-59 | the recorded serializer is the custom serializer, else the date serializer, else the type's default serializer (none for `char`), else none |
| ClassInfoCache.GetConstructorParameter | src/main/kotlin/deserialization/ClassInfoCache.kt:62-64 | succeeds exactly for a key in the key map, with its parameter; otherwise fails with "Constructor parameter … is not found" naming key and class |
| ClassInfoCache.KeyLookup | src/main/kotlin/deserialization/ClassInfoCache.kt:62-64 | on a built descriptor, a key resolves to the last parameter whose key it is, and fails exactly when no parameter has that key |
| ClassInfoCache.OverrideClass | src/main/kotlin/deserialization/ClassInfoCache.kt:48-51 | on a built descriptor, `getDeserializeClass(key)` is the `@DeserializeInterface` of the property behind the key's parameter |
| ClassInfoCache.ValidateArgumentType | src/main/kotlin/deserialization/ClassInfoCache.kt:77-87 | passes exactly when a null goes to a nullable parameter or a non-null value's runtime class is the declared type; otherwise fails with the null or the type-mismatch error |
| ClassInfoCache.DeserializeConstructorArgument | src/main/kotlin/deserialization/ClassInfoCache.kt:69-75 | with a serializer the result is its decode; without one the value is returned unchanged if it passes the type check, else the check's error |
| ClassInfoCache.FirstMissing | src/main/kotlin/deserialization/ClassInfoCache.kt:96-102 | the first parameter whose argument is absent or null and which is neither optional nor nullable, or none exactly when there is no such parameter |
| ClassInfoCache.Instantiate | src/main/kotlin/deserialization/ClassInfoCache.kt:90-93 | fails exactly when some parameter is absent or null while neither optional nor nullable, with "Missing value" naming the first such parameter; otherwise the instance of the class built from exactly the given arguments |
| ClassInfoCache.EnsureAllParametersPresent | src/main/kotlin/deserialization/ClassInfoCache.kt:96-102 | the check loop passes exactly when no parameter is absent or null while neither optional nor nullable |
| ClassInfoCache.CreateInstance | src/main/kotlin/deserialization/ClassInfoCache.kt:90-93 | the check loop followed by the constructor call gives exactly `Instantiate`: the first missing parameter's error, or the instance |
| ClassInfoCache.ClassInfoCache.constructor | src/main/kotlin/deserialization/ClassInfoCache.kt:12-13 | the cache starts empty |
| ClassInfoCache.ClassInfoCache.Get | src/main/kotlin/deserialization/ClassInfoCache.kt:15-17 | returns the class's descriptor (or the build error); a hit returns the stored entry and builds nothing; a miss builds once and stores a successful result; entries are never removed or replaced |
| ClassInfoCache.GetTwice | src/main/kotlin/deserialization/ClassInfoCache.kt:15-17 | two requests for a class in a row return the same result; when it is a descriptor, the two requests built at most once between them |
| Parser.ParseSpec | src/main/kotlin/deserialization/Parser.kt:9-16 | an input that is empty or does not start with `{` fails with "LBRACE expected" and no call; every call goes to a sink that exists when it is made |
| Parser.ObjectBody | src/main/kotlin/deserialization/Parser.kt:18-28 | an object body only moves the cursor forward within the tokens and never removes sinks |
| Parser.ArrayBody | src/main/kotlin/deserialization/Parser.kt:30-34 | an array body only moves the cursor forward within the tokens and never removes sinks |
| Parser.LoopHead | src/main/kotlin/deserialization/Parser.kt:39-45 | the top of the loop moves the cursor forward and consumes at least one token before it hands one to the body |
| Parser.CommaSep | src/main/kotlin/deserialization/Parser.kt:36-51 | the loop only moves the cursor forward within the tokens and never removes sinks |
| Parser.BodySpec | src/main/kotlin/deserialization/Parser.kt:19-32 | a member or element body only moves the cursor forward within the tokens and never removes sinks |
| Parser.PropertyValue | src/main/kotlin/deserialization/Parser.kt:53-71 | a value only moves the cursor forward within the tokens and never removes sinks |
| Parser.ObjectBodyNumbered | src/main/kotlin/deserialization/Parser.kt:18-28 | an object body creates one sink per create call, calls only existing sinks, and calls only its own sink or sinks it created |
| Parser.ArrayBodyNumbered | src/main/kotlin/deserialization/Parser.kt:30-34 | the same sink numbering for an array body |
| Parser.CommaSepNumbered | src/main/kotlin/deserialization/Parser.kt:36-51 | the same sink numbering for the comma-separated loop |
| Parser.BodyNumbered | src/main/kotlin/deserialization/Parser.kt:19-32 | the same sink numbering for one member or element |
| Parser.PropertyValueNumbered | src/main/kotlin/deserialization/Parser.kt:53-71 | the same sink numbering for one value: `{` and `[` make the next sink and parse into it |
| Parser.TokenStream.constructor | src/main/kotlin/deserialization/Parser.kt:7 | the lexer starts at the first token of the input |
| Parser.TokenStream.NextToken | src/main/kotlin/deserialization/Parser.kt:13 | `lexer.nextToken()`: the next token and one step forward, or null at the end without moving |
| Parser.EventSink.SetSimpleProperty | src/main/kotlin/deserialization/Deserializer.kt:31 | logs the call and creates no sink |
| Parser.EventSink.CreateObject | src/main/kotlin/deserialization/Deserializer.kt:33 | logs the call and returns a new sink, the next number |
| Parser.EventSink.CreateArray | src/main/kotlin/deserialization/Deserializer.kt:35 | logs the call and returns a new sink, the next number |
| Parser.Parser.constructor | src/main/kotlin/deserialization/Parser.kt:5-7 | a new parser reads a fresh lexer from the first token and reports to the given root sink |
| Parser.Parser.Parse | src/main/kotlin/deserialization/Parser.kt:9-16 | the outcome, cursor and calls made are those of `ParseSpec` |
| Parser.Parser.ParseObjectBody | src/main/kotlin/deserialization/Parser.kt:18-28 | outcome, cursor and calls are those of `ObjectBody` |
| Parser.Parser.ParseArrayBody | src/main/kotlin/deserialization/Parser.kt:30-34 | outcome, cursor and calls are those of `ArrayBody` |
| Parser.Parser.ParseCommaSeparated | src/main/kotlin/deserialization/Parser.kt:36-51 | the `while (true)` loop's outcome, cursor and calls are those of `CommaSep` |
| Parser.Parser.NextElementToken | src/main/kotlin/deserialization/Parser.kt:39-45 | reads as `LoopHead` says: stop token, comma check, token for the body |
| Parser.Parser.ParseBody | src/main/kotlin/deserialization/Parser.kt:19-32 | the lambda of either body, as `BodySpec` |
| Parser.Parser.ParseMember | src/main/kotlin/deserialization/Parser.kt:19-27 | key, colon and value, as `BodySpec` for a member |
| Parser.Parser.ParsePropertyValue | src/main/kotlin/deserialization/Parser.kt:53-71 | as `PropertyValue`: a scalar call, or a child sink filled by the nested body, or "Unexpected token" |
| Parser.Parser.Expect | src/main/kotlin/deserialization/Parser.kt:73-77 | reads one token if there is one, and passes iff it is the expected token, else "`token` expected" |
| Parser.Parser.NextToken | src/main/kotlin/deserialization/Parser.kt:79 | the next token and one step forward, or "Premature end of data" at the end |
| ParserProperties.CommaSepStable | src/main/kotlin/deserialization/Parser.kt:36-51 | a successful list gives the same result on any tokens that agree on the ones it consumed |
| ParserProperties.CommaSepTurnStable | src/main/kotlin/deserialization/Parser.kt:36-51 | the same for one turn of the loop |
| ParserProperties.LoopHeadStable | src/main/kotlin/deserialization/Parser.kt:39-45 | the same for the loop head |
| ParserProperties.BodyStable | src/main/kotlin/deserialization/Parser.kt:19-32 | the same for a member or element |
| ParserProperties.PropertyValueStable | src/main/kotlin/deserialization/Parser.kt:53-71 | the same for a value |
| ParserProperties.ParseConsumesAll | src/main/kotlin/deserialization/Parser.kt:9-16 | an accepted document starts with `{`, has at least two tokens and leaves none unread |
| ParserProperties.TrailingTokensRejected | src/main/kotlin/deserialization/Parser.kt:13-15 | any token after a complete root object gives "Too many tokens", after the same calls as without it |
| ParserProperties.CommaSepTruncated | src/main/kotlin/deserialization/Parser.kt:36-51 | cutting a successful list's tokens before its end gives an end-of-input error |
| ParserProperties.BodyTruncated | src/main/kotlin/deserialization/Parser.kt:19-32 | the same for a member or element |
| ParserProperties.PropertyValueTruncated | src/main/kotlin/deserialization/Parser.kt:53-71 | the same for a value |
| ParserProperties.PrematureEndOfData | src/main/kotlin/deserialization/Parser.kt:79 | every proper non-empty prefix of an accepted document is rejected with "Premature end of data" (or "COLON expected" right after a key) |
| ParserProperties.RootMustBeObject | src/main/kotlin/deserialization/Parser.kt:10 | an accepted input starts with `{`; one that starts with anything else fails with "LBRACE expected" before any call |
| ParserProperties.MemberKeyErrors | src/main/kotlin/deserialization/Parser.kt:20-25 | a member key that is not a string gives "Unexpected token"; a key not followed by `:` gives "COLON expected"; neither makes a call |
| ParserProperties.MissingComma | src/main/kotlin/deserialization/Parser.kt:42-44 | after a member or element, a token other than a comma or the stop token gives "Expected comma" |
| ParserProperties.TrailingCommaRejected | src/main/kotlin/deserialization/Parser.kt:41-47 | a comma followed by `}` or `]` hands that token to the body, which rejects it as unexpected, with no call |
| ParserProperties.TrailingCommaExample | src/main/kotlin/deserialization/Parser.kt:41-47 | `{"title": "X",}` fails with "Unexpected token" after reporting `title` |
| ParserProperties.EmptyStructures | src/main/kotlin/deserialization/Parser.kt:53-66 | `{}` and `[]` create their child sink and make no call on it |
| ParserProperties.ArrayElementsNamed | src/main/kotlin/deserialization/Parser.kt:30-33 | every call an array body makes on the array's own sink carries the array's property name |
| ParserProperties.ParseEventsInOrder | src/main/kotlin/deserialization/Parser.kt:53-66 | every call of a parse goes to the root or to a sink made by an earlier call, and new sinks are numbered 1, 2, … in creation order (which calls, in which order, is `ParserDocuments.ParseMeaning`) |
| ParserDocuments.ValueParses | src/main/kotlin/deserialization/Parser.kt:53-71 | on the tokens of a printed value, `parsePropertyValue` passes, reads exactly those tokens, gives one new sink to each nested object or array and makes exactly that value's calls in document order |
| ParserDocuments.ObjectParses | src/main/kotlin/deserialization/Parser.kt:58-61 | a printed object value is one `createObject` on the current sink, then its members reported to the new sink |
| ParserDocuments.ArrayParses | src/main/kotlin/deserialization/Parser.kt:63-66 | a printed array value is one `createArray` on the current sink, then its items reported to the new sink under the array's property name |
| ParserDocuments.MembersParse | src/main/kotlin/deserialization/Parser.kt:18-28 | on printed members, the member loop reads up to and including the closing `}` and reports each member, in order, under its key |
| ParserDocuments.ItemsParse | src/main/kotlin/deserialization/Parser.kt:30-34 | on printed items, the element loop reads up to and including the closing `]` and reports each item, in order |
| ParserDocuments.ParseDocument | src/main/kotlin/deserialization/Parser.kt:9-16 | a printed document is accepted and read to its end; the root is sink 0 and the calls are exactly the document's, in document order |
| ParserDocuments.ValueRead | src/main/kotlin/deserialization/Parser.kt:53-71 | a value `parsePropertyValue` accepts is a printed value, read to its last token, and the calls made are exactly that value's |
| ParserDocuments.MembersRead | src/main/kotlin/deserialization/Parser.kt:18-28 | a member loop that succeeds has read printed members and their `}`, and made exactly their calls |
| ParserDocuments.ItemsRead | src/main/kotlin/deserialization/Parser.kt:30-34 | an element loop that succeeds has read printed items and their `]`, and made exactly their calls |
| ParserDocuments.ParseReadsDocument | src/main/kotlin/deserialization/Parser.kt:9-16 | a token sequence `parse` accepts is the printing of a document, and the calls made are that document's |
| ParserDocuments.ParseMeaning | src/main/kotlin/deserialization/Parser.kt:9-79 | `parse` accepts exactly the printed documents, and on each it makes exactly the calls that report it in document order |
| Deserializer.Put | src/main/kotlin/deserialization/Deserializer.kt:97 | `seedArguments[param] = seed` on a linked map: the new entry is present, no entry is invented, and every other parameter's entry is kept |
| Deserializer.PutDistinct | src/main/kotlin/deserialization/Deserializer.kt:97 | the map keeps one entry per parameter |
| Deserializer.NewObjectSeed | src/main/kotlin/deserialization/Deserializer.kt:70-78 | an object seed fails exactly when its class cannot be described, with that error; otherwise it holds the descriptor and nothing yet |
| Deserializer.SeedForType | src/main/kotlin/deserialization/Deserializer.kt:51-67 | a list type with an object is "An array expected"; a non-list type with an array is "Object of the type … expected"; a raw list, or a class implementing `List`, is unsupported; a parameterized list gets a seed unless its element type is `char`/`Character`, which fails at the `!!` of `serializerForBasicType`; a non-list type gets an object seed for its class; the seed is of the kind for the type, empty, and a value-list seed has the element type's serializer |
| Deserializer.StoreSimple | src/main/kotlin/deserialization/Deserializer.kt:83-129 | an object seed fails iff the key has no parameter or the argument does not decode, else stores the decoded value under the parameter; an object-list seed rejects a scalar; a value-list seed appends the decoded value or fails with the decode error; children never change |
| Deserializer.CreateComposite | src/main/kotlin/deserialization/Deserializer.kt:89-133 | an object seed fails iff the key has no parameter (with "Constructor parameter … is not found") or no seed fits the key's type (with `createSeedForType`'s error for the `@DeserializeInterface` class or the declared type), else records the child under the parameter; an object-list seed appends the child or fails with `createSeedForType`'s error for its element type; a value-list seed rejects a composite value |
| Deserializer.Apply | src/main/kotlin/deserialization/Deserializer.kt:43-47 | one sink call changes only its own seed, and a create adds exactly one seed |
| Deserializer.ApplyAll | src/main/kotlin/deserialization/Deserializer.kt:20-28 | the calls of a parse, in order: one new seed per create |
| Deserializer.PutBetween | src/main/kotlin/deserialization/Deserializer.kt:97 | recording a child keeps every child index in range |
| Deserializer.CreateKeepsWf | src/main/kotlin/deserialization/Deserializer.kt:89-133 | creating a child keeps every child after its parent and one entry per parameter |
| Deserializer.ApplyKeepsWf | src/main/kotlin/deserialization/Deserializer.kt:43-47 | a sink call keeps the seeds well formed |
| Deserializer.ApplyAllKeepsWf | src/main/kotlin/deserialization/Deserializer.kt:20-28 | a replay keeps the seeds well formed |
| Deserializer.Grow | src/main/kotlin/deserialization/Deserializer.kt:22-25 | the seeds after the parse's calls are well formed, with one seed per create besides the root |
| Deserializer.SeedForest.constructor | src/main/kotlin/deserialization/Deserializer.kt:70-73 | a forest sharing the given cache, with no seed yet |
| Deserializer.SeedForest.MakeObjectSeed | src/main/kotlin/deserialization/Deserializer.kt:70-75 | the object seed as `NewObjectSeed`, its descriptor taken from the cache |
| Deserializer.SeedForest.PlantRoot | src/main/kotlin/deserialization/Deserializer.kt:22 | the root seed becomes sink 0, or the descriptor's error leaves the forest empty |
| Deserializer.SeedForest.CreateSeedForType | src/main/kotlin/deserialization/Deserializer.kt:51-67 | returns exactly `SeedForType` |
| Deserializer.SeedForest.SetSimpleProperty | src/main/kotlin/deserialization/Deserializer.kt:83-129 | updates seed `h` in place as `Apply` says; a rejected call changes nothing |
| Deserializer.SeedForest.CreateCompositeProperty | src/main/kotlin/deserialization/Deserializer.kt:89-133 | records the child in seed `h` and adds it at the end, returning its handle, or changes nothing and fails |
| Deserializer.SeedForest.Dispatch | src/main/kotlin/deserialization/Deserializer.kt:43-47 | `createObject` and `createArray` are `createCompositeProperty` without and with a list, as `Apply` |
| Deserializer.SeedForest.Replay | src/main/kotlin/deserialization/Deserializer.kt:25 | applies the calls in order and stops at the first failure, as `ApplyAll` |
| Deserializer.Deserialize | src/main/kotlin/deserialization/Deserializer.kt:20-28 | cache, root seed, parse and spawn compose to `DeserializeSpec` |
| DeserializerProperties.SpawnArgumentsOk | src/main/kotlin/deserialization/Deserializer.kt:80-81 | spawning the recorded children succeeds exactly when each child spawns |
| DeserializerProperties.SpawnArgumentsFirstError | src/main/kotlin/deserialization/Deserializer.kt:80-81 | a failure is that of the first child, in recording order, that fails |
| DeserializerProperties.SpawnArgumentsKeys | src/main/kotlin/deserialization/Deserializer.kt:80-81 | the spawned arguments are keyed by exactly the recorded parameters |
| DeserializerProperties.SpawnArgumentsValues | src/main/kotlin/deserialization/Deserializer.kt:80-81 | each recorded parameter gets its child's spawned value |
| DeserializerProperties.SpawnedInstance | src/main/kotlin/deserialization/Deserializer.kt:80-101 | a spawned object seed is an instance of its class whose arguments are the simple values and the spawned children, children winning on a shared parameter; when every child spawns, the result is `Instantiate` on exactly those arguments (so it succeeds unless a parameter is missing, and then fails with that parameter's "Missing value"); otherwise it is the first failing child's error |
| DeserializerProperties.SpawnElementsMeaning | src/main/kotlin/deserialization/Deserializer.kt:117 | `elements.map { it.spawn() }` succeeds iff every element does, giving their values in order, else the first failing element's error |
| DeserializerProperties.SpawnElementsValues | src/main/kotlin/deserialization/Deserializer.kt:117 | the success half: all elements spawn, in order and one value each |
| DeserializerProperties.SpawnElementsFirstError | src/main/kotlin/deserialization/Deserializer.kt:117 | the failure half: the error of the first failing element |
| DeserializerProperties.SpawnedList | src/main/kotlin/deserialization/Deserializer.kt:104-135 | a value-list seed spawns exactly its values; an object-list seed spawns one value per child, in order, or the first child's failure |
| DeserializerProperties.ApplyKeepsShapes | src/main/kotlin/deserialization/Deserializer.kt:83-133 | a sink call never changes a seed's kind, descriptor or element type |
| DeserializerProperties.ApplyAllKeepsShapes | src/main/kotlin/deserialization/Deserializer.kt:20-28 | nor does a replay, which only adds seeds |
| DeserializerProperties.TypedAfter | src/main/kotlin/deserialization/Deserializer.kt:104-135 | seeds that keep their shapes stay typed when only the changed and the new ones need checking |
| DeserializerProperties.ApplyKeepsTyped | src/main/kotlin/deserialization/Deserializer.kt:83-133 | a sink call keeps list children of their element type and list values of their element type |
| DeserializerProperties.SetKeepsTyped | src/main/kotlin/deserialization/Deserializer.kt:127-129 | a value appended to a value-list seed is an instance of its element type |
| DeserializerProperties.CreateKeepsTyped | src/main/kotlin/deserialization/Deserializer.kt:114-115 | a child appended to an object-list seed is a seed for its element type |
| DeserializerProperties.ApplyAllKeepsTyped | src/main/kotlin/deserialization/Deserializer.kt:20-28 | a replay keeps the seeds typed |
| DeserializerProperties.SpawnFits | src/main/kotlin/deserialization/Deserializer.kt:51-67 | what a seed made for a type spawns has that type's shape: an instance of its class, or a list of items of the element type |
| DeserializerProperties.DecodeAll | src/main/kotlin/deserialization/Deserializer.kt:127-129 | a run of scalars decodes iff each decodes, one value per scalar, in order |
| DeserializerProperties.ValuesInOrder | src/main/kotlin/deserialization/Deserializer.kt:124-135 | scalars reported to a value-list seed are decoded and appended in arrival order, one per call, or fail with a decode error; no other seed changes |
| DeserializerProperties.ValueStep | src/main/kotlin/deserialization/Deserializer.kt:127-129 | the first scalar of such a run: appended when it decodes, else the replay fails |
| DeserializerProperties.LaterValueReplaces | src/main/kotlin/deserialization/Deserializer.kt:83-87 | a repeated key overwrites the earlier value of its parameter |
| DeserializerProperties.ChildTypeFollowsOverride | src/main/kotlin/deserialization/Deserializer.kt:89-98 | a nested structure under a key is grown for the property's `@DeserializeInterface` class when there is one, else for the parameter's declared type |
| DeserializerProperties.ListOverrideRejected | src/main/kotlin/deserialization/Deserializer.kt:51-57 | a `@DeserializeInterface` class implementing `List` takes the list branch: under an object value it is "An array expected", under an array value an unsupported parameter type |
| DeserializerProperties.DeserializeYieldsTarget | src/main/kotlin/deserialization/Deserializer.kt:20-28 | a result is an instance of the target class; an undescribable target class fails with its descriptor error |
| DeserializerProperties.GrowTyped | src/main/kotlin/deserialization/Deserializer.kt:22-25 | the seeds grown from a typed root stay typed |
| DeserializerProperties.DeserializeNeedsObject | src/main/kotlin/deserialization/Deserializer.kt:22-25 | once the target class is describable, a document that is empty or does not start with `{` is rejected with "LBRACE expected" |
| DeserializerProperties.DeserializeDocuments | src/main/kotlin/deserialization/Deserializer.kt:20-28 | a failing sink call's error wins over any later syntax error; when every call succeeds, a printed document is replayed as exactly its own calls and yields the root's spawn, and any other input fails with the parser's syntax error |
| BookExample.DescribeBirthOfDate | src/test/kotlin/deserialization/BookExample.kt:8 | the descriptor of `BirthOfDate`: keys `month` and `year`, both with the String serializer |
| BookExample.DescribeAuthor | src/test/kotlin/deserialization/BookExample.kt:9-13 | the descriptor of `Author`: `name` is reached through `nameOfAuthor` only; the nested class and the list have no serializer |
| BookExample.DescribeBook | src/test/kotlin/deserialization/BookExample.kt:15 | the descriptor of `Book`: keys `title`, `publisher` and `author` |
| BookExample.DocumentParses | src/test/kotlin/deserialization/BookExample.kt:19 | the example document parses completely, making ten sink calls in document order on four sinks |
| BookExample.CallsReplay | src/test/kotlin/deserialization/BookExample.kt:8-19 | the ten calls replayed on a `Book` root seed build the four seeds (book, author, country list, date of birth) |
| BookExample.BookSpawns | src/test/kotlin/deserialization/BookExample.kt:8-15 | the root seed spawns `Book("Catch-22", "Acon", Author("J. Heller", BirthOfDate("4", "1998"), ["Korea", "US"]))` |
| BookExample.BookDeserializes | src/test/kotlin/deserialization/BookExample.kt:19-20 | `deserialize<Book>(json)` on the example returns that `Book` |

## Left out

- The lexer is not part of this model. `Lexer` and `Token` are given as the token sequence the lexer would produce; string escapes and number lexing are not modelled.
- Reflection (`primaryConstructor`, `declaredMemberProperties`, `findAnnotation`, `javaType`, `isPrimitiveOrString`, `asJavaClass`) is replaced by the explicit `Registry` of class declarations and the `Type` datatype.
- ClassInfoCache.Instantiate: `constructor.callBy` is modelled as building an `Instance` record of the arguments; its own failures (for example, a null passed to a non-null parameter that is optional) are not modelled, because they happen inside the JVM's reflection.
- ValueSerializers.FromJsonValue: Float and Double decoding produce the exact real value; IEEE rounding to single or double precision is not modelled.
- ValueSerializers.FromJsonValue: the date serializer and custom serializers (`getSerializer`, `serializerForDateType`, `DateSerializer`) are used but not executed; a `Foreign` serializer returns a symbolic `Converted` value, because `SimpleDateFormat` and user serializer classes are not part of this model.
- `toJsonValue` is modelled only for the primitive and String serializers (the identity), as needed for the round trip.
- The `ValueSerializer` interface and the annotation classes (`JsonName`, `DeserializeInterface`, `DateFormat`, `CustomSerializer`) are represented as fields of the class declaration.
- The `Reader`/`StringReader` plumbing and the reified `deserialize` overloads (`Deserializer.kt:12-18`) are left out: the entry point takes the token sequence and the target class.
- `main` and `println` in `BookExample.kt` are left out; the example is modelled as a lemma about its document.
- The parse and the sink calls are modelled as a log that is then replayed. The model claims that this equals the interleaved execution. That rests on the parser never looking at a sink beyond the child handle it returns.
- Seeds are values in an arena, not objects. The model does not capture object identity or aliasing between seeds; no seed is ever shared in the source either.
- The cache is a plain map without synchronization; concurrency is not modelled.
- `JKidException`, `MalformedJSONException` and `IllegalArgumentException` are modelled as one error type with one constructor per message; the exception classes themselves are not distinguished.
