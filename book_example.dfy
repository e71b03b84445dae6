/** The book example end to end: the three data classes, the document, the
    sink calls its parse makes and the instance `deserialize<Book>` builds. */
module BookExample {
  import opened Values
  import opened ValueSerializers
  import opened ClassInfoCache
  import opened Parser
  import opened Deserializer

  // ---------------------------------------------------------------------
  // The classes

  function Param(name: string, t: Type): ParamDecl {
    ParamDecl(Some(name), t, false, false)
  }

  function Property(name: string): PropertyDecl {
    PropertyDecl(name, None, None, None, None)
  }

  /** `data class BirthOfDate(val month: String, val year: String)` */
  const BirthOfDateParams := [Param("month", StringType), Param("year", StringType)]
  const BirthOfDateDecl := ClassDecl(Some(BirthOfDateParams), [Property("month"), Property("year")])

  /** `data class Author(@JsonName("nameOfAuthor") val name: String,
      val birthOfDate: BirthOfDate, val publishedCountry: List<String>)` */
  const AuthorParams := [Param("name", StringType), Param("birthOfDate", ClassType("BirthOfDate")),
                         Param("publishedCountry", ListOf(StringType))]
  const AuthorDecl := ClassDecl(Some(AuthorParams),
                                [Property("name").(jsonName := Some("nameOfAuthor")), Property("birthOfDate"),
                                 Property("publishedCountry")])

  /** `data class Book(val title: String, val publisher: String, val author: Author)` */
  const BookParams := [Param("title", StringType), Param("publisher", StringType), Param("author", ClassType("Author"))]
  const BookDecl := ClassDecl(Some(BookParams), [Property("title"), Property("publisher"), Property("author")])

  function Classes(cls: ClassId): ClassDecl {
    if cls == "Book" then BookDecl
    else if cls == "Author" then AuthorDecl
    else if cls == "BirthOfDate" then BirthOfDateDecl
    else ClassDecl(None, [])
  }

  // ---------------------------------------------------------------------
  // The document

  /** The book's own tokens: `{`, its first two members, `"author": {` and the final `}`. */
  predicate BookTokens(ts: seq<Token>) {
    && |ts| == 37
    && ts[0] == LBRACE
    && ts[1] == StringValue("publisher")
    && ts[2] == COLON
    && ts[3] == StringValue("Acon")
    && ts[4] == COMMA
    && ts[5] == StringValue("title")
    && ts[6] == COLON
    && ts[7] == StringValue("Catch-22")
    && ts[8] == COMMA
    && ts[9] == StringValue("author")
    && ts[10] == COLON
    && ts[11] == LBRACE
    && ts[36] == RBRACE
  }

  /** The author's own tokens, around its nested list and object. */
  predicate AuthorTokens(ts: seq<Token>) {
    && |ts| == 37
    && ts[12] == StringValue("nameOfAuthor")
    && ts[13] == COLON
    && ts[14] == StringValue("J. Heller")
    && ts[15] == COMMA
    && ts[16] == StringValue("publishedCountry")
    && ts[17] == COLON
    && ts[18] == LBRACKET
    && ts[23] == COMMA
    && ts[24] == StringValue("birthOfDate")
    && ts[25] == COLON
    && ts[26] == LBRACE
    && ts[35] == RBRACE
  }

  /** The tokens of `"Korea", "US"]`. */
  predicate CountriesTokens(ts: seq<Token>) {
    && |ts| == 37
    && ts[19] == StringValue("Korea")
    && ts[20] == COMMA
    && ts[21] == StringValue("US")
    && ts[22] == RBRACKET
  }

  /** The tokens of `"month": "4", "year": "1998"}`. */
  predicate DateTokens(ts: seq<Token>) {
    && |ts| == 37
    && ts[27] == StringValue("month")
    && ts[28] == COLON
    && ts[29] == StringValue("4")
    && ts[30] == COMMA
    && ts[31] == StringValue("year")
    && ts[32] == COLON
    && ts[33] == StringValue("1998")
    && ts[34] == RBRACE
  }

  /** The document, `{"publisher": "Acon", "title": "Catch-22", "author":
      {"nameOfAuthor": "J. Heller", "publishedCountry": ["Korea", "US"],
      "birthOfDate": {"month": "4", "year": "1998"}}}`, as the lexer
      tokenizes it: 37 tokens. */
  predicate IsDocument(ts: seq<Token>) {
    BookTokens(ts) && AuthorTokens(ts) && CountriesTokens(ts) && DateTokens(ts)
  }

  /** The sink calls: sink 0 is the book, 1 the author, 2 the country list
      and 3 the date of birth. */
  const Calls: seq<Event> := [
    SetSimple(0, "publisher", Str("Acon")),
    SetSimple(0, "title", Str("Catch-22")),
    CreateObject(0, "author"),
    SetSimple(1, "nameOfAuthor", Str("J. Heller")),
    CreateArray(1, "publishedCountry"),
    SetSimple(2, "publishedCountry", Str("Korea")),
    SetSimple(2, "publishedCountry", Str("US")),
    CreateObject(1, "birthOfDate"),
    SetSimple(3, "month", Str("4")),
    SetSimple(3, "year", Str("1998"))]

  /** The date of birth after its first member. */
  lemma DateTail(ts: seq<Token>)
    requires DateTokens(ts)
    ensures CommaSep(ts, 30, RBRACE, 3, MemberBody, true, 4) == Step(Pass, 35, 4, [Calls[9]])
  {
    assert CommaSep(ts, 34, RBRACE, 3, MemberBody, true, 4) == Step(Pass, 35, 4, []);
    assert BodySpec(ts, 32, 3, MemberBody, ts[31], 4) == Step(Pass, 34, 4, [Calls[9]]);
  }

  /** The innermost object, `{"month": "4", "year": "1998"}`. */
  lemma DateParses(ts: seq<Token>)
    requires DateTokens(ts)
    ensures ObjectBody(ts, 27, 3, 4) == Step(Pass, 35, 4, Calls[8..])
  {
    DateTail(ts);
    assert BodySpec(ts, 28, 3, MemberBody, ts[27], 4) == Step(Pass, 30, 4, [Calls[8]]);
    assert [Calls[8]] + [Calls[9]] == Calls[8..];
  }

  /** The country list after its first element. */
  lemma CountriesTail(ts: seq<Token>)
    requires CountriesTokens(ts)
    ensures CommaSep(ts, 20, RBRACKET, 2, ElementBody("publishedCountry"), true, 3) == Step(Pass, 23, 3, [Calls[6]])
  {
    assert CommaSep(ts, 22, RBRACKET, 2, ElementBody("publishedCountry"), true, 3) == Step(Pass, 23, 3, []);
    assert BodySpec(ts, 22, 2, ElementBody("publishedCountry"), ts[21], 3) == Step(Pass, 22, 3, [Calls[6]]);
  }

  /** The country list, `["Korea", "US"]`. */
  lemma CountriesParse(ts: seq<Token>)
    requires CountriesTokens(ts)
    ensures ArrayBody(ts, 19, 2, "publishedCountry", 3) == Step(Pass, 23, 3, Calls[5..7])
  {
    CountriesTail(ts);
    assert BodySpec(ts, 20, 2, ElementBody("publishedCountry"), ts[19], 3) == Step(Pass, 20, 3, [Calls[5]]);
    assert [Calls[5]] + [Calls[6]] == Calls[5..7];
  }

  /** The author's member `"birthOfDate": {...}`. */
  lemma DateMember(ts: seq<Token>)
    requires AuthorTokens(ts) && DateTokens(ts)
    ensures BodySpec(ts, 25, 1, MemberBody, ts[24], 3) == Step(Pass, 35, 4, Calls[7..])
  {
    DateParses(ts);
    assert [Calls[7]] + Calls[8..] == Calls[7..];
    assert PropertyValue(ts, 27, 1, "birthOfDate", LBRACE, 3) == Step(Pass, 35, 4, Calls[7..]);
  }

  /** The author's last member and its closing brace. */
  lemma DateMemberParses(ts: seq<Token>)
    requires AuthorTokens(ts) && DateTokens(ts)
    ensures CommaSep(ts, 23, RBRACE, 1, MemberBody, true, 3) == Step(Pass, 36, 4, Calls[7..])
  {
    DateMember(ts);
    assert CommaSep(ts, 35, RBRACE, 1, MemberBody, true, 4) == Step(Pass, 36, 4, []);
  }

  /** The author's member `"publishedCountry": [...]`. */
  lemma CountriesMember(ts: seq<Token>)
    requires AuthorTokens(ts) && CountriesTokens(ts)
    ensures BodySpec(ts, 17, 1, MemberBody, ts[16], 2) == Step(Pass, 23, 3, Calls[4..7])
  {
    CountriesParse(ts);
    assert [Calls[4]] + Calls[5..7] == Calls[4..7];
    assert PropertyValue(ts, 19, 1, "publishedCountry", LBRACKET, 2) == Step(Pass, 23, 3, Calls[4..7]);
  }

  /** The author after its first member. */
  lemma AuthorTail(ts: seq<Token>)
    requires AuthorTokens(ts) && CountriesTokens(ts) && DateTokens(ts)
    ensures CommaSep(ts, 15, RBRACE, 1, MemberBody, true, 2) == Step(Pass, 36, 4, Calls[4..])
  {
    CountriesMember(ts);
    DateMemberParses(ts);
    assert Calls[4..7] + Calls[7..] == Calls[4..];
  }

  /** The author's first member, `"nameOfAuthor": "J. Heller"`. */
  lemma AuthorName(ts: seq<Token>)
    requires AuthorTokens(ts)
    ensures LoopHead(ts, 12, RBRACE, false) == Head(Ok(Some(ts[12])), 13)
    ensures BodySpec(ts, 13, 1, MemberBody, ts[12], 2) == Step(Pass, 15, 2, [Calls[3]])
  {
  }

  /** The author object. */
  lemma AuthorParses(ts: seq<Token>)
    requires AuthorTokens(ts) && CountriesTokens(ts) && DateTokens(ts)
    ensures ObjectBody(ts, 12, 1, 2) == Step(Pass, 36, 4, Calls[3..])
  {
    AuthorTail(ts);
    AuthorName(ts);
    assert [Calls[3]] + Calls[4..] == Calls[3..];
  }

  /** The book's member `"author": {...}`. */
  lemma AuthorMember(ts: seq<Token>)
    requires IsDocument(ts)
    ensures BodySpec(ts, 10, 0, MemberBody, ts[9], 1) == Step(Pass, 36, 4, Calls[2..])
  {
    AuthorParses(ts);
    assert [Calls[2]] + Calls[3..] == Calls[2..];
    assert PropertyValue(ts, 12, 0, "author", LBRACE, 1) == Step(Pass, 36, 4, Calls[2..]);
  }

  /** The book after its second member. */
  lemma BookTail(ts: seq<Token>)
    requires IsDocument(ts)
    ensures CommaSep(ts, 8, RBRACE, 0, MemberBody, true, 1) == Step(Pass, 37, 4, Calls[2..])
  {
    AuthorMember(ts);
    assert CommaSep(ts, 36, RBRACE, 0, MemberBody, true, 4) == Step(Pass, 37, 4, []);
  }

  /** The book's members `"publisher": "Acon"` and `"title": "Catch-22"`. */
  lemma BookTitle(ts: seq<Token>)
    requires BookTokens(ts)
    ensures LoopHead(ts, 1, RBRACE, false) == Head(Ok(Some(ts[1])), 2)
    ensures BodySpec(ts, 2, 0, MemberBody, ts[1], 1) == Step(Pass, 4, 1, [Calls[0]])
    ensures LoopHead(ts, 4, RBRACE, true) == Head(Ok(Some(ts[5])), 6)
    ensures BodySpec(ts, 6, 0, MemberBody, ts[5], 1) == Step(Pass, 8, 1, [Calls[1]])
  {
  }

  /** The book after its first member. */
  lemma BookMembers(ts: seq<Token>)
    requires IsDocument(ts)
    ensures CommaSep(ts, 4, RBRACE, 0, MemberBody, true, 1) == Step(Pass, 37, 4, Calls[1..])
  {
    BookTail(ts);
    BookTitle(ts);
  }

  /** The book's body, from its first member to the closing brace. */
  lemma BookBody(ts: seq<Token>)
    requires IsDocument(ts)
    ensures ObjectBody(ts, 1, 0, 1) == Step(Pass, 37, 4, Calls)
  {
    BookMembers(ts);
    BookTitle(ts);
    assert [Calls[0]] + Calls[1..] == Calls;
  }

  /** The whole document parses, making the ten sink calls in order. */
  lemma DocumentParses(ts: seq<Token>)
    requires IsDocument(ts)
    ensures ParseSpec(ts) == Step(Pass, |ts|, 4, Calls)
  {
    BookBody(ts);
  }

  // ---------------------------------------------------------------------
  // The descriptors

  const BirthOfDateInfo: ClassInfo :=
    ClassInfo("BirthOfDate", BirthOfDateParams, map["month" := 0, "year" := 1],
              map[0 := StringSerializer, 1 := StringSerializer], map["month" := None, "year" := None])

  /** `name` is reached through `nameOfAuthor` only; the list and the
      nested class have no value serializer. */
  const AuthorInfo: ClassInfo :=
    ClassInfo("Author", AuthorParams, map["nameOfAuthor" := 0, "birthOfDate" := 1, "publishedCountry" := 2],
              map[0 := StringSerializer],
              map["nameOfAuthor" := None, "birthOfDate" := None, "publishedCountry" := None])

  const BookInfo: ClassInfo :=
    ClassInfo("Book", BookParams, map["title" := 0, "publisher" := 1, "author" := 2],
              map[0 := StringSerializer, 1 := StringSerializer], map["title" := None, "publisher" := None, "author" := None])

  lemma BirthOfDateTables()
    ensures CacheParameters(BirthOfDateDecl.properties, BirthOfDateParams, 2)
            == Tables(BirthOfDateInfo.jsonNameToParam, BirthOfDateInfo.paramToSerializer, BirthOfDateInfo.jsonNameToDeserializeClass)
  {
    var props := BirthOfDateDecl.properties;
    assert FindProperty(props, "month") == Some(props[0]);
    assert FindProperty(props, "year") == Some(props[1]);
    assert CacheParameters(props, BirthOfDateParams, 1) == Tables(map["month" := 0], map[0 := StringSerializer], map["month" := None]);
  }

  lemma BirthOfDateNamed()
    ensures forall i :: 0 <= i < |BirthOfDateParams| ==> BirthOfDateParams[i].name.Some?
  {
    forall i | 0 <= i < |BirthOfDateParams|
      ensures BirthOfDateParams[i].name.Some?
    {
      if i == 0 {} else {}
    }
  }

  lemma DescribeBirthOfDate()
    ensures Describe("BirthOfDate", Classes("BirthOfDate")) == Ok(BirthOfDateInfo)
  {
    BirthOfDateTables();
    BirthOfDateNamed();
    assert Classes("BirthOfDate") == BirthOfDateDecl;
  }

  lemma AuthorTables1()
    ensures CacheParameters(AuthorDecl.properties, AuthorParams, 1)
            == Tables(map["nameOfAuthor" := 0], map[0 := StringSerializer], map["nameOfAuthor" := None])
  {
    var props := AuthorDecl.properties;
    assert FindProperty(props, "name") == Some(props[0]);
  }

  lemma AuthorTables2()
    ensures CacheParameters(AuthorDecl.properties, AuthorParams, 2)
            == Tables(map["nameOfAuthor" := 0, "birthOfDate" := 1], map[0 := StringSerializer],
                      map["nameOfAuthor" := None, "birthOfDate" := None])
  {
    AuthorTables1();
    assert FindProperty(AuthorDecl.properties, "birthOfDate") == Some(AuthorDecl.properties[1]);
  }

  lemma AuthorTables()
    ensures CacheParameters(AuthorDecl.properties, AuthorParams, 3)
            == Tables(AuthorInfo.jsonNameToParam, AuthorInfo.paramToSerializer, AuthorInfo.jsonNameToDeserializeClass)
  {
    AuthorTables2();
    assert FindProperty(AuthorDecl.properties, "publishedCountry") == Some(AuthorDecl.properties[2]);
  }

  lemma AuthorNamed()
    ensures forall i :: 0 <= i < |AuthorParams| ==> AuthorParams[i].name.Some?
  {
    forall i | 0 <= i < |AuthorParams|
      ensures AuthorParams[i].name.Some?
    {
      if i == 0 {} else if i == 1 {} else {}
    }
  }

  lemma DescribeAuthor()
    ensures Describe("Author", Classes("Author")) == Ok(AuthorInfo)
  {
    AuthorTables();
    AuthorNamed();
    assert Classes("Author") == AuthorDecl;
  }

  lemma BookTables1()
    ensures CacheParameters(BookDecl.properties, BookParams, 1)
            == Tables(map["title" := 0], map[0 := StringSerializer], map["title" := None])
  {
    var props := BookDecl.properties;
    assert FindProperty(props, "title") == Some(props[0]);
  }

  lemma BookTables2()
    ensures CacheParameters(BookDecl.properties, BookParams, 2)
            == Tables(map["title" := 0, "publisher" := 1], map[0 := StringSerializer, 1 := StringSerializer],
                      map["title" := None, "publisher" := None])
  {
    BookTables1();
    assert FindProperty(BookDecl.properties, "publisher") == Some(BookDecl.properties[1]);
  }

  lemma BookTables()
    ensures CacheParameters(BookDecl.properties, BookParams, 3)
            == Tables(BookInfo.jsonNameToParam, BookInfo.paramToSerializer, BookInfo.jsonNameToDeserializeClass)
  {
    BookTables2();
    assert FindProperty(BookDecl.properties, "author") == Some(BookDecl.properties[2]);
  }

  lemma BookNamed()
    ensures forall i :: 0 <= i < |BookParams| ==> BookParams[i].name.Some?
  {
    forall i | 0 <= i < |BookParams|
      ensures BookParams[i].name.Some?
    {
      if i == 0 {} else if i == 1 {} else {}
    }
  }

  lemma DescribeBook()
    ensures Describe("Book", Classes("Book")) == Ok(BookInfo)
  {
    BookTables();
    BookNamed();
    assert Classes("Book") == BookDecl;
  }

  // ---------------------------------------------------------------------
  // The seeds, call by call

  const BookValues := map[1 := Str("Acon"), 0 := Str("Catch-22")]
  const AuthorValues := map[0 := Str("J. Heller")]
  const DateValues := map[0 := Str("4"), 1 := Str("1998")]

  const BookSeed := ObjectSeed(BookInfo, BookValues, [Entry(2, 1)])
  const AuthorSeed := ObjectSeed(AuthorInfo, AuthorValues, [Entry(2, 2), Entry(1, 3)])
  const CountriesSeed := ValueListSeed(StringType, StringSerializer, [Str("Korea"), Str("US")])
  const DateSeed := ObjectSeed(BirthOfDateInfo, DateValues, [])

  /** The seeds before the first sink call, and after each one. */
  const Arena0: seq<Seed> := [ObjectSeed(BookInfo, map[], [])]
  const Arena1 := Arena0[0 := ObjectSeed(BookInfo, map[1 := Str("Acon")], [])]
  const Arena2 := Arena1[0 := ObjectSeed(BookInfo, BookValues, [])]
  const Arena3 := Arena2[0 := BookSeed] + [ObjectSeed(AuthorInfo, map[], [])]
  const Arena4 := Arena3[1 := ObjectSeed(AuthorInfo, AuthorValues, [])]
  const Arena5 := Arena4[1 := ObjectSeed(AuthorInfo, AuthorValues, [Entry(2, 2)])] + [ValueListSeed(StringType, StringSerializer, [])]
  const Arena6 := Arena5[2 := ValueListSeed(StringType, StringSerializer, [Str("Korea")])]
  const Arena7 := Arena6[2 := CountriesSeed]
  const Arena8 := Arena7[1 := AuthorSeed] + [ObjectSeed(BirthOfDateInfo, map[], [])]
  const Arena9 := Arena8[3 := ObjectSeed(BirthOfDateInfo, map[0 := Str("4")], [])]
  const Arena10 := Arena9[3 := DateSeed]

  /** A string stored under a key of an object seed whose parameter has the
      string serializer. */
  lemma StoreString(info: ClassInfo, vals: map<nat, Value>, kids: seq<Entry>, key: string, v: string)
    requires key in info.jsonNameToParam
    requires info.jsonNameToParam[key] in info.paramToSerializer
    requires info.paramToSerializer[info.jsonNameToParam[key]] == StringSerializer
    ensures StoreSimple(ObjectSeed(info, vals, kids), key, Str(v))
            == Ok(ObjectSeed(info, vals[info.jsonNameToParam[key] := Str(v)], kids))
  {
  }

  /** A scalar sink call, given what the seed makes of it. */
  lemma ApplySet(reg: Registry, seeds: seq<Seed>, h: nat, name: string, v: JsonScalar, s: Seed)
    requires h < |seeds| && StoreSimple(seeds[h], name, v) == Ok(s)
    ensures Apply(reg, seeds, SetSimple(h, name, v)) == Ok(seeds[h := s])
  {
  }

  /** A create sink call, given what the seed makes of it. */
  lemma ApplyCreate(reg: Registry, seeds: seq<Seed>, h: nat, name: string, isList: bool, parent: Seed, child: Seed)
    requires h < |seeds| && CreateComposite(reg, seeds[h], name, isList, |seeds|) == Ok((parent, child))
    ensures Apply(reg, seeds, if isList then CreateArray(h, name) else CreateObject(h, name)) == Ok(seeds[h := parent] + [child])
  {
  }

  lemma Call0()
    ensures Apply(Classes, Arena0, Calls[0]) == Ok(Arena1)
  {
    StoreString(BookInfo, map[], [], "publisher", "Acon");
    ApplySet(Classes, Arena0, 0, "publisher", Str("Acon"), ObjectSeed(BookInfo, map[1 := Str("Acon")], []));
  }

  lemma Call1()
    ensures Apply(Classes, Arena1, Calls[1]) == Ok(Arena2)
  {
    StoreString(BookInfo, map[1 := Str("Acon")], [], "title", "Catch-22");
    ApplySet(Classes, Arena1, 0, "title", Str("Catch-22"), ObjectSeed(BookInfo, BookValues, []));
  }

  lemma AuthorChild()
    ensures SeedForType(Classes, ClassType("Author"), false) == Ok(ObjectSeed(AuthorInfo, map[], []))
  {
    DescribeAuthor();
  }

  lemma AuthorCreated()
    ensures CreateComposite(Classes, ObjectSeed(BookInfo, BookValues, []), "author", false, 1)
            == Ok((BookSeed, ObjectSeed(AuthorInfo, map[], [])))
  {
    AuthorChild();
    assert GetConstructorParameter(BookInfo, "author") == Ok(2);
    assert CompositeType(BookInfo, "author", 2) == ClassType("Author");
  }

  lemma Call2()
    ensures Apply(Classes, Arena2, Calls[2]) == Ok(Arena3)
  {
    AuthorCreated();
    assert Arena2[0] == ObjectSeed(BookInfo, BookValues, []) && |Arena2| == 1;
    ApplyCreate(Classes, Arena2, 0, "author", false, BookSeed, ObjectSeed(AuthorInfo, map[], []));
  }

  lemma Call3()
    ensures Apply(Classes, Arena3, Calls[3]) == Ok(Arena4)
  {
    StoreString(AuthorInfo, map[], [], "nameOfAuthor", "J. Heller");
    ApplySet(Classes, Arena3, 1, "nameOfAuthor", Str("J. Heller"), ObjectSeed(AuthorInfo, AuthorValues, []));
  }

  lemma CountriesCreated()
    ensures CreateComposite(Classes, ObjectSeed(AuthorInfo, AuthorValues, []), "publishedCountry", true, 2)
            == Ok((ObjectSeed(AuthorInfo, AuthorValues, [Entry(2, 2)]), ValueListSeed(StringType, StringSerializer, [])))
  {
    assert GetConstructorParameter(AuthorInfo, "publishedCountry") == Ok(2);
    assert CompositeType(AuthorInfo, "publishedCountry", 2) == ListOf(StringType);
    assert SeedForType(Classes, ListOf(StringType), true) == Ok(ValueListSeed(StringType, StringSerializer, []));
  }

  lemma Call4()
    ensures Apply(Classes, Arena4, Calls[4]) == Ok(Arena5)
  {
    CountriesCreated();
    assert Arena4[1] == ObjectSeed(AuthorInfo, AuthorValues, []) && |Arena4| == 2;
    ApplyCreate(Classes, Arena4, 1, "publishedCountry", true, ObjectSeed(AuthorInfo, AuthorValues, [Entry(2, 2)]),
                ValueListSeed(StringType, StringSerializer, []));
  }

  lemma Call5()
    ensures Apply(Classes, Arena5, Calls[5]) == Ok(Arena6)
  {
    assert [] + [Str("Korea")] == [Str("Korea")];
    ApplySet(Classes, Arena5, 2, "publishedCountry", Str("Korea"), ValueListSeed(StringType, StringSerializer, [Str("Korea")]));
  }

  lemma Call6()
    ensures Apply(Classes, Arena6, Calls[6]) == Ok(Arena7)
  {
    assert [Str("Korea")] + [Str("US")] == [Str("Korea"), Str("US")];
    ApplySet(Classes, Arena6, 2, "publishedCountry", Str("US"), CountriesSeed);
  }

  lemma DateChild()
    ensures SeedForType(Classes, ClassType("BirthOfDate"), false) == Ok(ObjectSeed(BirthOfDateInfo, map[], []))
  {
    DescribeBirthOfDate();
  }

  lemma DateCreated()
    ensures CreateComposite(Classes, ObjectSeed(AuthorInfo, AuthorValues, [Entry(2, 2)]), "birthOfDate", false, 3)
            == Ok((AuthorSeed, ObjectSeed(BirthOfDateInfo, map[], [])))
  {
    DateChild();
    assert GetConstructorParameter(AuthorInfo, "birthOfDate") == Ok(1);
    assert CompositeType(AuthorInfo, "birthOfDate", 1) == ClassType("BirthOfDate");
    assert Put([Entry(2, 2)], 1, 3) == [Entry(2, 2), Entry(1, 3)];
  }

  lemma Call7()
    ensures Apply(Classes, Arena7, Calls[7]) == Ok(Arena8)
  {
    DateCreated();
    assert Arena7[1] == ObjectSeed(AuthorInfo, AuthorValues, [Entry(2, 2)]) && |Arena7| == 3;
    ApplyCreate(Classes, Arena7, 1, "birthOfDate", false, AuthorSeed, ObjectSeed(BirthOfDateInfo, map[], []));
  }

  lemma Call8()
    ensures Apply(Classes, Arena8, Calls[8]) == Ok(Arena9)
  {
    StoreString(BirthOfDateInfo, map[], [], "month", "4");
    ApplySet(Classes, Arena8, 3, "month", Str("4"), ObjectSeed(BirthOfDateInfo, map[0 := Str("4")], []));
  }

  lemma Call9()
    ensures Apply(Classes, Arena9, Calls[9]) == Ok(Arena10)
  {
    StoreString(BirthOfDateInfo, map[0 := Str("4")], [], "year", "1998");
    ApplySet(Classes, Arena9, 3, "year", Str("1998"), DateSeed);
  }

  // ---------------------------------------------------------------------
  // The replay

  lemma Replay9()
    ensures Handles(Calls[9..], |Arena9|) && ApplyAll(Classes, Arena9, Calls[9..]) == Ok(Arena10)
  {
    Call9();
    assert Calls[9..] == [Calls[9]];
    assert [Calls[9]][1..] == [];
  }

  lemma Replay8()
    ensures Handles(Calls[8..], |Arena8|) && ApplyAll(Classes, Arena8, Calls[8..]) == Ok(Arena10)
  {
    Call8();
    Replay9();
    assert Calls[8..][0] == Calls[8] && Calls[8..][1..] == Calls[9..];
    ApplyAllCons(Classes, Arena8, Arena9, Arena10, Calls[8..]);
  }

  lemma Replay7()
    ensures Handles(Calls[7..], |Arena7|) && ApplyAll(Classes, Arena7, Calls[7..]) == Ok(Arena10)
  {
    Call7();
    Replay8();
    assert Calls[7..][0] == Calls[7] && Calls[7..][1..] == Calls[8..];
    ApplyAllCons(Classes, Arena7, Arena8, Arena10, Calls[7..]);
  }

  lemma Replay6()
    ensures Handles(Calls[6..], |Arena6|) && ApplyAll(Classes, Arena6, Calls[6..]) == Ok(Arena10)
  {
    Call6();
    Replay7();
    assert Calls[6..][0] == Calls[6] && Calls[6..][1..] == Calls[7..];
    ApplyAllCons(Classes, Arena6, Arena7, Arena10, Calls[6..]);
  }

  lemma Replay5()
    ensures Handles(Calls[5..], |Arena5|) && ApplyAll(Classes, Arena5, Calls[5..]) == Ok(Arena10)
  {
    Call5();
    Replay6();
    assert Calls[5..][0] == Calls[5] && Calls[5..][1..] == Calls[6..];
    ApplyAllCons(Classes, Arena5, Arena6, Arena10, Calls[5..]);
  }

  lemma Replay4()
    ensures Handles(Calls[4..], |Arena4|) && ApplyAll(Classes, Arena4, Calls[4..]) == Ok(Arena10)
  {
    Call4();
    Replay5();
    assert Calls[4..][0] == Calls[4] && Calls[4..][1..] == Calls[5..];
    ApplyAllCons(Classes, Arena4, Arena5, Arena10, Calls[4..]);
  }

  lemma Replay3()
    ensures Handles(Calls[3..], |Arena3|) && ApplyAll(Classes, Arena3, Calls[3..]) == Ok(Arena10)
  {
    Call3();
    Replay4();
    assert Calls[3..][0] == Calls[3] && Calls[3..][1..] == Calls[4..];
    ApplyAllCons(Classes, Arena3, Arena4, Arena10, Calls[3..]);
  }

  lemma Replay2()
    ensures Handles(Calls[2..], |Arena2|) && ApplyAll(Classes, Arena2, Calls[2..]) == Ok(Arena10)
  {
    Call2();
    Replay3();
    assert Calls[2..][0] == Calls[2] && Calls[2..][1..] == Calls[3..];
    ApplyAllCons(Classes, Arena2, Arena3, Arena10, Calls[2..]);
  }

  lemma Replay1()
    ensures Handles(Calls[1..], |Arena1|) && ApplyAll(Classes, Arena1, Calls[1..]) == Ok(Arena10)
  {
    Call1();
    Replay2();
    assert Calls[1..][0] == Calls[1] && Calls[1..][1..] == Calls[2..];
    ApplyAllCons(Classes, Arena1, Arena2, Arena10, Calls[1..]);
  }

  lemma Replay0()
    ensures Handles(Calls[0..], |Arena0|) && ApplyAll(Classes, Arena0, Calls[0..]) == Ok(Arena10)
  {
    Call0();
    Replay1();
    assert Calls[0..][0] == Calls[0] && Calls[0..][1..] == Calls[1..];
    ApplyAllCons(Classes, Arena0, Arena1, Arena10, Calls[0..]);
  }

  // ---------------------------------------------------------------------
  // Spawning

  const DateValue := Instance("BirthOfDate", DateValues)
  const CountriesValue := List([Str("Korea"), Str("US")])
  const AuthorValue := Instance("Author", map[0 := Str("J. Heller"), 1 := DateValue, 2 := CountriesValue])

  /** `Book(title = "Catch-22", publisher = "Acon", author = Author(name =
      "J. Heller", birthOfDate = BirthOfDate(month = "4", year = "1998"),
      publishedCountry = listOf("Korea", "US")))` */
  const BookValue := Instance("Book", map[0 := Str("Catch-22"), 1 := Str("Acon"), 2 := AuthorValue])

  lemma ArenaContents()
    ensures Arena10 == [BookSeed, AuthorSeed, CountriesSeed, DateSeed]
  {
  }

  lemma DateInstance()
    ensures Instantiate(BirthOfDateInfo, DateValues + map[]) == Ok(DateValue)
  {
    assert DateValues + map[] == DateValues;
    assert FirstMissing(BirthOfDateParams, DateValues, 0) == None;
  }

  lemma DateSpawns()
    requires Wf(Arena10)
    ensures Spawn(Arena10, 3) == Ok(DateValue)
  {
    ArenaContents();
    DateInstance();
    assert SpawnArguments(Arena10, 3, []) == Ok(map[]);
  }

  lemma CountriesSpawn()
    requires Wf(Arena10)
    ensures Spawn(Arena10, 2) == Ok(CountriesValue)
  {
    ArenaContents();
  }

  lemma AuthorLastArgument()
    requires Wf(Arena10)
    ensures SpawnArguments(Arena10, 1, [Entry(1, 3)]) == Ok(map[1 := DateValue])
  {
    DateSpawns();
    assert [Entry(1, 3)][1..] == [];
  }

  lemma AuthorArguments()
    requires Wf(Arena10)
    ensures SpawnArguments(Arena10, 1, AuthorSeed.seedArguments) == Ok(map[1 := DateValue, 2 := CountriesValue])
  {
    AuthorLastArgument();
    CountriesSpawn();
    assert AuthorSeed.seedArguments[1..] == [Entry(1, 3)];
  }

  lemma AuthorArgs()
    ensures AuthorValues + map[1 := DateValue, 2 := CountriesValue] == AuthorValue.args
  {
  }

  lemma AuthorInstance()
    ensures Instantiate(AuthorInfo, AuthorValues + map[1 := DateValue, 2 := CountriesValue]) == Ok(AuthorValue)
  {
    AuthorArgs();
  }

  lemma AuthorSpawns()
    requires Wf(Arena10)
    ensures Spawn(Arena10, 1) == Ok(AuthorValue)
  {
    ArenaContents();
    AuthorArguments();
    AuthorInstance();
  }

  lemma BookArguments()
    requires Wf(Arena10)
    ensures SpawnArguments(Arena10, 0, BookSeed.seedArguments) == Ok(map[2 := AuthorValue])
  {
    AuthorSpawns();
    assert BookSeed.seedArguments[1..] == [];
  }

  lemma BookArgs()
    ensures BookValues + map[2 := AuthorValue] == BookValue.args
  {
  }

  lemma BookInstance()
    ensures Instantiate(BookInfo, BookValues + map[2 := AuthorValue]) == Ok(BookValue)
  {
    BookArgs();
  }

  lemma BookSpawns()
    requires Wf(Arena10)
    ensures Spawn(Arena10, 0) == Ok(BookValue)
  {
    ArenaContents();
    BookArguments();
    BookInstance();
  }

  // ---------------------------------------------------------------------
  // End to end

  lemma BookRoot()
    ensures NewObjectSeed(Classes, "Book") == Ok(ObjectSeed(BookInfo, map[], []))
  {
    DescribeBook();
  }

  /** The ten sink calls grow the book's root seed into the four seeds above. */
  lemma CallsReplay()
    ensures Handles(Calls, 1) && ApplyAll(Classes, [ObjectSeed(BookInfo, map[], [])], Calls) == Ok(Arena10)
  {
    Replay0();
    assert Calls[0..] == Calls;
  }

  lemma RootWf()
    ensures Wf([ObjectSeed(BookInfo, map[], [])])
  {
  }

  lemma BookGrows(ts: seq<Token>)
    requires IsDocument(ts)
    ensures Wf([ObjectSeed(BookInfo, map[], [])]) && Grow(Classes, ObjectSeed(BookInfo, map[], []), ts) == Ok(Arena10)
  {
    RootWf();
    DocumentParses(ts);
    CallsReplay();
  }

  /** `deserialize<Book>(json)` builds the book the document describes: the
      members in any order, the renamed author name, the nested date of
      birth and the list of countries. */
  lemma BookDeserializes(ts: seq<Token>)
    requires IsDocument(ts)
    ensures DeserializeSpec(Classes, ts, "Book") == Ok(BookValue)
  {
    BookRoot();
    BookGrows(ts);
    DocumentParses(ts);
    BookSpawns();
  }
}
