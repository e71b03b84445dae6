/** The calls Parser.kt makes, measured against an independent reference:
    JSON documents as trees, the tokens a writer prints for a tree, and the
    sink calls that report a tree in document order (a pre-order walk, each
    nested object or array numbered when it is first met). The parser
    accepts exactly the printed trees, and on each it makes exactly that
    tree's calls. */
module ParserDocuments {
  import opened Values
  import opened Parser

  // ---------------------------------------------------------------------
  // Documents

  /** A JSON value: a scalar, an object with its members in document order,
      or an array with its items in document order. */
  datatype Json = Scalar(value: JsonScalar) | Object(members: Members) | Array(items: Items)
  datatype Members = NoMembers | Member(key: string, value: Json, rest: Members)
  datatype Items = NoItems | Item(value: Json, rest: Items)

  // ---------------------------------------------------------------------
  // Printing

  /** The tokens of `j`, as a writer prints them. */
  function Tokens(j: Json): (r: seq<Token>)
    ensures |r| > 0 && (IsValueToken(r[0]) || r[0] == LBRACE || r[0] == LBRACKET)
  {
    match j
    case Scalar(v) => [TokenOf(v)]
    case Object(ms) => [LBRACE] + MembersTokens(ms, false)
    case Array(items) => [LBRACKET] + ItemsTokens(items, false)
  }

  /** The members of an object and its closing `}`; `comma` says whether a
      member has been printed before them. */
  function MembersTokens(ms: Members, comma: bool): seq<Token> {
    match ms
    case NoMembers => [RBRACE]
    case Member(key, v, rest) =>
      (if comma then [COMMA] else []) + [StringValue(key), COLON] + Tokens(v) + MembersTokens(rest, true)
  }

  /** The items of an array and its closing `]`. */
  function ItemsTokens(items: Items, comma: bool): seq<Token> {
    match items
    case NoItems => [RBRACKET]
    case Item(v, rest) => (if comma then [COMMA] else []) + Tokens(v) + ItemsTokens(rest, true)
  }

  // ---------------------------------------------------------------------
  // The calls that report a document

  /** The number of objects and arrays in `j`, each of which gets a sink. */
  function Count(j: Json): nat {
    match j
    case Scalar(_) => 0
    case Object(ms) => 1 + MembersCount(ms)
    case Array(items) => 1 + ItemsCount(items)
  }

  function MembersCount(ms: Members): nat {
    match ms
    case NoMembers => 0
    case Member(_, v, rest) => Count(v) + MembersCount(rest)
  }

  function ItemsCount(items: Items): nat {
    match items
    case NoItems => 0
    case Item(v, rest) => Count(v) + ItemsCount(rest)
  }

  /** The calls that report `j` as property `name` of sink `obj`, when
      `next` is the number the next new sink gets: a scalar is one simple
      property; an object or array is a create on `obj`, and then its
      contents reported to the new sink. */
  function Events(j: Json, obj: nat, name: string, next: nat): seq<Event> {
    match j
    case Scalar(v) => [SetSimple(obj, name, v)]
    case Object(ms) => [CreateObject(obj, name)] + MembersEvents(ms, next, next + 1)
    case Array(items) => [CreateArray(obj, name)] + ItemsEvents(items, next, name, next + 1)
  }

  /** The members of an object, one after the other, each under its key. */
  function MembersEvents(ms: Members, obj: nat, next: nat): seq<Event> {
    match ms
    case NoMembers => []
    case Member(key, v, rest) => Events(v, obj, key, next) + MembersEvents(rest, obj, next + Count(v))
  }

  /** The items of an array, one after the other, each under the array's
      own property name. */
  function ItemsEvents(items: Items, obj: nat, name: string, next: nat): seq<Event> {
    match items
    case NoItems => []
    case Item(v, rest) => Events(v, obj, name, next) + ItemsEvents(rest, obj, name, next + Count(v))
  }

  /** One member's calls, then the calls of the members after it. */
  lemma MemberEvents(key: string, v: Json, rest: Members, obj: nat, next: nat)
    ensures MembersEvents(Member(key, v, rest), obj, next) == Events(v, obj, key, next) + MembersEvents(rest, obj, next + Count(v))
  {
  }

  /** One item's calls, then the calls of the items after it. */
  lemma ItemEvents(v: Json, rest: Items, obj: nat, name: string, next: nat)
    ensures ItemsEvents(Item(v, rest), obj, name, next) == Events(v, obj, name, next) + ItemsEvents(rest, obj, name, next + Count(v))
  {
  }

  /** The number the next new sink gets once `v` has been reported. */
  lemma SinksAfter(v: Json, sinks: nat) returns (after: nat)
    ensures after == sinks + Count(v)
  {
    after := sinks + Count(v);
  }

  // ---------------------------------------------------------------------
  // Tokens at a position

  /** `ts` holds the tokens `t` from `pos` on. */
  predicate At(ts: seq<Token>, pos: nat, t: seq<Token>) {
    pos + |t| <= |ts| && forall k :: 0 <= k < |t| ==> ts[pos + k] == t[k]
  }

  lemma AtSplit(ts: seq<Token>, pos: nat, a: seq<Token>, b: seq<Token>)
    requires At(ts, pos, a + b)
    ensures At(ts, pos, a) && At(ts, pos + |a|, b)
  {
    forall k | 0 <= k < |a|
      ensures ts[pos + k] == a[k]
    {
      assert ts[pos + k] == (a + b)[k];
    }
    forall k | 0 <= k < |b|
      ensures ts[pos + |a| + k] == b[k]
    {
      assert ts[pos + (|a| + k)] == (a + b)[|a| + k];
    }
  }

  lemma SliceJoin(ts: seq<Token>, a: nat, b: nat, c: nat)
    requires a <= b <= c <= |ts|
    ensures ts[a..c] == ts[a..b] + ts[b..c]
  {
  }

  /** The tokens of a member, taken apart. */
  lemma AtMember(ts: seq<Token>, pos: nat, p: nat, key: string, v: Json, rest: Members, comma: bool) returns (mid: nat)
    requires At(ts, pos, MembersTokens(Member(key, v, rest), comma)) && p == pos + if comma then 1 else 0
    ensures comma ==> ts[pos] == COMMA
    ensures ts[p] == StringValue(key) && ts[p + 1] == COLON
    ensures mid == p + 2 + |Tokens(v)| && At(ts, p + 2, Tokens(v)) && At(ts, mid, MembersTokens(rest, true))
    ensures pos + |MembersTokens(Member(key, v, rest), comma)| == mid + |MembersTokens(rest, true)|
  {
    mid := p + 2 + |Tokens(v)|;
    var c: seq<Token> := if comma then [COMMA] else [];
    var head := c + [StringValue(key), COLON];
    AtSplit(ts, pos, head + Tokens(v), MembersTokens(rest, true));
    AtSplit(ts, pos, head, Tokens(v));
    assert ts[pos + |c|] == head[|c|];
    assert ts[pos + (|c| + 1)] == head[|c| + 1];
    if comma {
      assert ts[pos + 0] == head[0];
    }
  }

  /** The tokens of an item, taken apart. */
  lemma AtItem(ts: seq<Token>, pos: nat, q: nat, v: Json, rest: Items, comma: bool) returns (mid: nat)
    requires At(ts, pos, ItemsTokens(Item(v, rest), comma)) && q == pos + if comma then 1 else 0
    ensures comma ==> ts[pos] == COMMA
    ensures mid == q + |Tokens(v)| && At(ts, q, Tokens(v)) && At(ts, mid, ItemsTokens(rest, true))
    ensures pos + |ItemsTokens(Item(v, rest), comma)| == mid + |ItemsTokens(rest, true)|
  {
    mid := q + |Tokens(v)|;
    var c: seq<Token> := if comma then [COMMA] else [];
    AtSplit(ts, pos, c + Tokens(v), ItemsTokens(rest, true));
    AtSplit(ts, pos, c, Tokens(v));
    if comma {
      assert ts[pos + 0] == c[0];
    }
  }

  /** The first token at a position. */
  lemma AtFirst(ts: seq<Token>, pos: nat, t: seq<Token>)
    requires At(ts, pos, t) && |t| > 0
    ensures pos < |ts| && ts[pos] == t[0]
  {
    assert ts[pos + 0] == t[0];
  }

  // ---------------------------------------------------------------------
  // One step of the parser at a time

  /** The loop head on the stop token ends the loop. */
  lemma CommaSepStops(ts: seq<Token>, pos: nat, stop: Token, obj: nat, body: Body, comma: bool, sinks: nat)
    requires pos < |ts| && obj < sinks && ts[pos] == stop
    ensures CommaSep(ts, pos, stop, obj, body, comma, sinks) == Step(Pass, pos + 1, sinks, [])
  {
  }

  /** The loop head hands `ts[q]` to the body, `q` being after the comma
      when one is expected. */
  lemma LoopHeadYields(ts: seq<Token>, pos: nat, q: nat, stop: Token, comma: bool)
    requires q == pos + (if comma then 1 else 0) && q < |ts| && ts[q] != stop
    requires comma ==> ts[pos] == COMMA && COMMA != stop
    ensures LoopHead(ts, pos, stop, comma) == Head(Ok(Some(ts[q])), q + 1)
  {
  }

  /** One turn of the loop: the body on the token the head yields, then the
      rest of the loop, now expecting commas. */
  lemma CommaSepTurn(ts: seq<Token>, pos: nat, stop: Token, obj: nat, body: Body, comma: bool, sinks: nat)
    requires pos <= |ts| && obj < sinks
    requires LoopHead(ts, pos, stop, comma).next.Ok? && LoopHead(ts, pos, stop, comma).next.value.Some?
    ensures var h := LoopHead(ts, pos, stop, comma);
            var b := BodySpec(ts, h.pos, obj, body, h.next.value.value, sinks);
            CommaSep(ts, pos, stop, obj, body, comma, sinks)
            == if b.outcome.Fail? then b else Then(b.events, CommaSep(ts, b.pos, stop, obj, body, true, b.sinks))
  {
  }

  /** A member body on a string key followed by `:` parses the value. */
  lemma MemberBodyValue(ts: seq<Token>, pos: nat, obj: nat, key: string, sinks: nat)
    requires pos + 1 < |ts| && ts[pos] == COLON && obj < sinks
    ensures BodySpec(ts, pos, obj, MemberBody, StringValue(key), sinks) == PropertyValue(ts, pos + 2, obj, key, ts[pos + 1], sinks)
  {
  }

  /** `{` as a value: a create, then the object's body on the new sink. */
  lemma PropertyValueObject(ts: seq<Token>, pos: nat, obj: nat, name: string, sinks: nat)
    requires pos <= |ts| && obj < sinks
    ensures PropertyValue(ts, pos, obj, name, LBRACE, sinks)
            == Then([CreateObject(obj, name)], CommaSep(ts, pos, RBRACE, sinks, MemberBody, false, sinks + 1))
  {
  }

  /** `[` as a value: a create, then the array's body on the new sink. */
  lemma PropertyValueArray(ts: seq<Token>, pos: nat, obj: nat, name: string, sinks: nat)
    requires pos <= |ts| && obj < sinks
    ensures PropertyValue(ts, pos, obj, name, LBRACKET, sinks)
            == Then([CreateArray(obj, name)], CommaSep(ts, pos, RBRACKET, sinks, ElementBody(name), false, sinks + 1))
  {
  }

  // ---------------------------------------------------------------------
  // A printed document parses into its own calls

  /** A scalar value is one simple property. */
  lemma ScalarParses(ts: seq<Token>, pos: nat, v: JsonScalar, obj: nat, name: string, sinks: nat)
    requires obj < sinks && At(ts, pos, Tokens(Scalar(v)))
    ensures PropertyValue(ts, pos + 1, obj, name, ts[pos], sinks)
            == Step(Pass, pos + 1, sinks, Events(Scalar(v), obj, name, sinks))
  {
    AtFirst(ts, pos, Tokens(Scalar(v)));
  }

  /** The closing `}` or `]` ends the loop. */
  lemma CloseParses(ts: seq<Token>, pos: nat, stop: Token, obj: nat, body: Body, comma: bool, sinks: nat)
    requires obj < sinks && At(ts, pos, [stop])
    ensures CommaSep(ts, pos, stop, obj, body, comma, sinks) == Step(Pass, pos + 1, sinks, [])
  {
    AtFirst(ts, pos, [stop]);
    CommaSepStops(ts, pos, stop, obj, body, comma, sinks);
  }

  /** One turn of the member loop on `key :` and a value that parses,
      followed by a rest of the loop that parses. */
  lemma MemberStep(ts: seq<Token>, pos: nat, p: nat, key: string, obj: nat, comma: bool, sinks: nat,
                   end: nat, after: nat, events: seq<Event>, rest: Step)
    requires obj < sinks && p == pos + (if comma then 1 else 0) && p + 2 < |ts| && end <= |ts| && obj < after
    requires (comma ==> ts[pos] == COMMA) && ts[p] == StringValue(key) && ts[p + 1] == COLON
    requires PropertyValue(ts, p + 2 + 1, obj, key, ts[p + 2], sinks) == Step(Pass, end, after, events)
    requires CommaSep(ts, end, RBRACE, obj, MemberBody, true, after) == rest
    ensures CommaSep(ts, pos, RBRACE, obj, MemberBody, comma, sinks) == Then(events, rest)
  {
    LoopHeadYields(ts, pos, p, RBRACE, comma);
    CommaSepTurn(ts, pos, RBRACE, obj, MemberBody, comma, sinks);
    MemberBodyValue(ts, p + 1, obj, key, sinks);
  }

  /** One turn of the element loop on a value that parses, followed by a
      rest of the loop that parses. */
  lemma ItemStep(ts: seq<Token>, pos: nat, q: nat, obj: nat, name: string, comma: bool, sinks: nat,
                 end: nat, after: nat, events: seq<Event>, rest: Step)
    requires obj < sinks && q == pos + (if comma then 1 else 0) && q < |ts| && end <= |ts| && obj < after
    requires (comma ==> ts[pos] == COMMA) && ts[q] != RBRACKET
    requires PropertyValue(ts, q + 1, obj, name, ts[q], sinks) == Step(Pass, end, after, events)
    requires CommaSep(ts, end, RBRACKET, obj, ElementBody(name), true, after) == rest
    ensures CommaSep(ts, pos, RBRACKET, obj, ElementBody(name), comma, sinks) == Then(events, rest)
  {
    LoopHeadYields(ts, pos, q, RBRACKET, comma);
    CommaSepTurn(ts, pos, RBRACKET, obj, ElementBody(name), comma, sinks);
  }

  /** The turn of the member loop on a printed member `key : v`. */
  lemma MemberTurn(ts: seq<Token>, pos: nat, p: nat, mid: nat, key: string, v: Json, rest: Members,
                   obj: nat, comma: bool, sinks: nat, after: nat)
    requires obj < sinks && p == pos + (if comma then 1 else 0) && p + 2 < |ts| && mid <= |ts|
    requires mid == p + 2 + |Tokens(v)| && after == sinks + Count(v)
    requires (comma ==> ts[pos] == COMMA) && ts[p] == StringValue(key) && ts[p + 1] == COLON
    requires PropertyValue(ts, p + 2 + 1, obj, key, ts[p + 2], sinks)
             == Step(Pass, p + 2 + |Tokens(v)|, sinks + Count(v), Events(v, obj, key, sinks))
    requires CommaSep(ts, mid, RBRACE, obj, MemberBody, true, after)
             == Step(Pass, mid + |MembersTokens(rest, true)|, after + MembersCount(rest), MembersEvents(rest, obj, after))
    ensures CommaSep(ts, pos, RBRACE, obj, MemberBody, comma, sinks)
            == Then(Events(v, obj, key, sinks),
                    Step(Pass, mid + |MembersTokens(rest, true)|, after + MembersCount(rest), MembersEvents(rest, obj, after)))
  {
    MemberStep(ts, pos, p, key, obj, comma, sinks, mid, after, Events(v, obj, key, sinks),
               CommaSep(ts, mid, RBRACE, obj, MemberBody, true, after));
  }

  /** The turn of the element loop on a printed item `v`. */
  lemma ItemTurn(ts: seq<Token>, pos: nat, q: nat, mid: nat, v: Json, rest: Items,
                 obj: nat, name: string, comma: bool, sinks: nat, after: nat)
    requires obj < sinks && q == pos + (if comma then 1 else 0) && q < |ts| && mid <= |ts|
    requires mid == q + |Tokens(v)| && after == sinks + Count(v)
    requires (comma ==> ts[pos] == COMMA) && ts[q] != RBRACKET
    requires PropertyValue(ts, q + 1, obj, name, ts[q], sinks)
             == Step(Pass, q + |Tokens(v)|, sinks + Count(v), Events(v, obj, name, sinks))
    requires CommaSep(ts, mid, RBRACKET, obj, ElementBody(name), true, after)
             == Step(Pass, mid + |ItemsTokens(rest, true)|, after + ItemsCount(rest), ItemsEvents(rest, obj, name, after))
    ensures CommaSep(ts, pos, RBRACKET, obj, ElementBody(name), comma, sinks)
            == Then(Events(v, obj, name, sinks),
                    Step(Pass, mid + |ItemsTokens(rest, true)|, after + ItemsCount(rest), ItemsEvents(rest, obj, name, after)))
  {
    ItemStep(ts, pos, q, obj, name, comma, sinks, mid, after, Events(v, obj, name, sinks),
             CommaSep(ts, mid, RBRACKET, obj, ElementBody(name), true, after));
  }

  /** A member turn's result, read as the result for the whole member list. */
  lemma MemberResult(ts: seq<Token>, pos: nat, mid: nat, key: string, v: Json, rest: Members,
                     obj: nat, comma: bool, sinks: nat, after: nat)
    requires pos <= |ts| && obj < sinks && after == sinks + Count(v)
    requires pos + |MembersTokens(Member(key, v, rest), comma)| == mid + |MembersTokens(rest, true)|
    requires CommaSep(ts, pos, RBRACE, obj, MemberBody, comma, sinks)
             == Then(Events(v, obj, key, sinks),
                     Step(Pass, mid + |MembersTokens(rest, true)|, after + MembersCount(rest), MembersEvents(rest, obj, after)))
    ensures var ms := Member(key, v, rest);
            CommaSep(ts, pos, RBRACE, obj, MemberBody, comma, sinks)
            == Step(Pass, pos + |MembersTokens(ms, comma)|, sinks + MembersCount(ms), MembersEvents(ms, obj, sinks))
  {
    MemberEvents(key, v, rest, obj, sinks);
  }

  /** An item turn's result, read as the result for the whole item list. */
  lemma ItemResult(ts: seq<Token>, pos: nat, mid: nat, v: Json, rest: Items,
                   obj: nat, name: string, comma: bool, sinks: nat, after: nat)
    requires pos <= |ts| && obj < sinks && after == sinks + Count(v)
    requires pos + |ItemsTokens(Item(v, rest), comma)| == mid + |ItemsTokens(rest, true)|
    requires CommaSep(ts, pos, RBRACKET, obj, ElementBody(name), comma, sinks)
             == Then(Events(v, obj, name, sinks),
                     Step(Pass, mid + |ItemsTokens(rest, true)|, after + ItemsCount(rest), ItemsEvents(rest, obj, name, after)))
    ensures var items := Item(v, rest);
            CommaSep(ts, pos, RBRACKET, obj, ElementBody(name), comma, sinks)
            == Step(Pass, pos + |ItemsTokens(items, comma)|, sinks + ItemsCount(items), ItemsEvents(items, obj, name, sinks))
  {
    ItemEvents(v, rest, obj, name, sinks);
  }

  /** `parsePropertyValue` on a printed value reads exactly its tokens and
      makes exactly its calls, numbering its sinks from `sinks` on. */
  lemma {:induction false} ValueParses(ts: seq<Token>, pos: nat, j: Json, obj: nat, name: string, sinks: nat)
    requires obj < sinks && At(ts, pos, Tokens(j))
    decreases j, 4
    ensures PropertyValue(ts, pos + 1, obj, name, ts[pos], sinks)
            == Step(Pass, pos + |Tokens(j)|, sinks + Count(j), Events(j, obj, name, sinks))
  {
    match j
    case Scalar(v) => ScalarParses(ts, pos, v, obj, name, sinks);
    case Object(ms) => ObjectParses(ts, pos, ms, obj, name, sinks);
    case Array(items) => ArrayParses(ts, pos, items, obj, name, sinks);
  }

  /** A printed object value: the create, then its members on the new sink. */
  lemma {:induction false} ObjectParses(ts: seq<Token>, pos: nat, ms: Members, obj: nat, name: string, sinks: nat)
    requires obj < sinks && At(ts, pos, Tokens(Object(ms)))
    decreases ms, 3
    ensures PropertyValue(ts, pos + 1, obj, name, ts[pos], sinks)
            == Step(Pass, pos + |Tokens(Object(ms))|, sinks + Count(Object(ms)), Events(Object(ms), obj, name, sinks))
  {
    AtSplit(ts, pos, [LBRACE], MembersTokens(ms, false));
    AtFirst(ts, pos, Tokens(Object(ms)));
    PropertyValueObject(ts, pos + 1, obj, name, sinks);
    MembersParse(ts, pos + 1, ms, sinks, false, sinks + 1);
  }

  /** A printed array value: the create, then its items on the new sink. */
  lemma {:induction false} ArrayParses(ts: seq<Token>, pos: nat, items: Items, obj: nat, name: string, sinks: nat)
    requires obj < sinks && At(ts, pos, Tokens(Array(items)))
    decreases items, 3
    ensures PropertyValue(ts, pos + 1, obj, name, ts[pos], sinks)
            == Step(Pass, pos + |Tokens(Array(items))|, sinks + Count(Array(items)), Events(Array(items), obj, name, sinks))
  {
    AtSplit(ts, pos, [LBRACKET], ItemsTokens(items, false));
    AtFirst(ts, pos, Tokens(Array(items)));
    PropertyValueArray(ts, pos + 1, obj, name, sinks);
    ItemsParse(ts, pos + 1, items, sinks, name, false, sinks + 1);
  }

  /** The member loop on printed members reads up to and including the
      closing `}` and reports each member in order. */
  lemma {:induction false} MembersParse(ts: seq<Token>, pos: nat, ms: Members, obj: nat, comma: bool, sinks: nat)
    requires obj < sinks && At(ts, pos, MembersTokens(ms, comma))
    decreases ms, 2
    ensures CommaSep(ts, pos, RBRACE, obj, MemberBody, comma, sinks)
            == Step(Pass, pos + |MembersTokens(ms, comma)|, sinks + MembersCount(ms), MembersEvents(ms, obj, sinks))
  {
    match ms
    case NoMembers => CloseParses(ts, pos, RBRACE, obj, MemberBody, comma, sinks);
    case Member(key, v, rest) => MemberCaseParses(ts, pos, key, v, rest, obj, comma, sinks);
  }

  /** A printed member list that is not empty. */
  lemma {:induction false} MemberCaseParses(ts: seq<Token>, pos: nat, key: string, v: Json, rest: Members,
                                            obj: nat, comma: bool, sinks: nat)
    requires obj < sinks && At(ts, pos, MembersTokens(Member(key, v, rest), comma))
    decreases Member(key, v, rest), 1
    ensures var ms := Member(key, v, rest);
            CommaSep(ts, pos, RBRACE, obj, MemberBody, comma, sinks)
            == Step(Pass, pos + |MembersTokens(ms, comma)|, sinks + MembersCount(ms), MembersEvents(ms, obj, sinks))
  {
    var p := pos + if comma then 1 else 0;
    var mid := AtMember(ts, pos, p, key, v, rest, comma);
    var after := SinksAfter(v, sinks);
    MemberParses(ts, pos, p, mid, key, v, rest, obj, comma, sinks, after);
    MemberResult(ts, pos, mid, key, v, rest, obj, comma, sinks, after);
  }

  /** One printed member and the members after it. */
  lemma {:induction false} MemberParses(ts: seq<Token>, pos: nat, p: nat, mid: nat, key: string, v: Json, rest: Members,
                                        obj: nat, comma: bool, sinks: nat, after: nat)
    requires obj < sinks && p == pos + (if comma then 1 else 0) && p + 1 < |ts|
    requires mid == p + 2 + |Tokens(v)| && after == sinks + Count(v)
    requires (comma ==> ts[pos] == COMMA) && ts[p] == StringValue(key) && ts[p + 1] == COLON
    requires At(ts, p + 2, Tokens(v)) && At(ts, mid, MembersTokens(rest, true))
    decreases Member(key, v, rest), 0
    ensures CommaSep(ts, pos, RBRACE, obj, MemberBody, comma, sinks)
            == Then(Events(v, obj, key, sinks),
                    Step(Pass, mid + |MembersTokens(rest, true)|, after + MembersCount(rest), MembersEvents(rest, obj, after)))
  {
    ValueParses(ts, p + 2, v, obj, key, sinks);
    MembersParse(ts, mid, rest, obj, true, after);
    MemberTurn(ts, pos, p, mid, key, v, rest, obj, comma, sinks, after);
  }

  /** The element loop on printed items reads up to and including the
      closing `]` and reports each item in order, under the array's name. */
  lemma {:induction false} ItemsParse(ts: seq<Token>, pos: nat, items: Items, obj: nat, name: string, comma: bool, sinks: nat)
    requires obj < sinks && At(ts, pos, ItemsTokens(items, comma))
    decreases items, 2
    ensures CommaSep(ts, pos, RBRACKET, obj, ElementBody(name), comma, sinks)
            == Step(Pass, pos + |ItemsTokens(items, comma)|, sinks + ItemsCount(items), ItemsEvents(items, obj, name, sinks))
  {
    match items
    case NoItems => CloseParses(ts, pos, RBRACKET, obj, ElementBody(name), comma, sinks);
    case Item(v, rest) => ItemCaseParses(ts, pos, v, rest, obj, name, comma, sinks);
  }

  /** A printed item list that is not empty. */
  lemma {:induction false} ItemCaseParses(ts: seq<Token>, pos: nat, v: Json, rest: Items,
                                          obj: nat, name: string, comma: bool, sinks: nat)
    requires obj < sinks && At(ts, pos, ItemsTokens(Item(v, rest), comma))
    decreases Item(v, rest), 1
    ensures var items := Item(v, rest);
            CommaSep(ts, pos, RBRACKET, obj, ElementBody(name), comma, sinks)
            == Step(Pass, pos + |ItemsTokens(items, comma)|, sinks + ItemsCount(items), ItemsEvents(items, obj, name, sinks))
  {
    var q := pos + if comma then 1 else 0;
    var mid := AtItem(ts, pos, q, v, rest, comma);
    AtFirst(ts, q, Tokens(v));
    var after := SinksAfter(v, sinks);
    ItemParses(ts, pos, q, mid, v, rest, obj, name, comma, sinks, after);
    ItemResult(ts, pos, mid, v, rest, obj, name, comma, sinks, after);
  }

  /** One printed item and the items after it. */
  lemma {:induction false} ItemParses(ts: seq<Token>, pos: nat, q: nat, mid: nat, v: Json, rest: Items,
                                      obj: nat, name: string, comma: bool, sinks: nat, after: nat)
    requires obj < sinks && q == pos + (if comma then 1 else 0) && q < |ts|
    requires mid == q + |Tokens(v)| && after == sinks + Count(v)
    requires (comma ==> ts[pos] == COMMA) && ts[q] != RBRACKET
    requires At(ts, q, Tokens(v)) && At(ts, mid, ItemsTokens(rest, true))
    decreases Item(v, rest), 0
    ensures CommaSep(ts, pos, RBRACKET, obj, ElementBody(name), comma, sinks)
            == Then(Events(v, obj, name, sinks),
                    Step(Pass, mid + |ItemsTokens(rest, true)|, after + ItemsCount(rest), ItemsEvents(rest, obj, name, after)))
  {
    ValueParses(ts, q, v, obj, name, sinks);
    ItemsParse(ts, mid, rest, obj, name, true, after);
    ItemTurn(ts, pos, q, mid, v, rest, obj, name, comma, sinks, after);
  }

  /** A printed document is accepted, read to its end, and reported member by
      member in document order to the root sink 0, its nested objects and
      arrays getting sinks 1, 2, … in the order they open. */
  lemma ParseDocument(ms: Members)
    ensures var ts := Tokens(Object(ms));
            ParseSpec(ts) == Step(Pass, |ts|, 1 + MembersCount(ms), MembersEvents(ms, 0, 1))
  {
    var ts := Tokens(Object(ms));
    AtSplit(ts, 0, [LBRACE], MembersTokens(ms, false));
    MembersParse(ts, 1, ms, 0, false, 1);
  }

  // ---------------------------------------------------------------------
  // Every accepted token sequence is a printed document

  /** A value token is the printing of its own scalar. */
  lemma ValueTokenPrinted(t: Token)
    requires IsValueToken(t)
    ensures TokenOf(ScalarOf(t)) == t
  {
  }

  /** A value that `parsePropertyValue` accepts is a printed value, read to
      its end, and the calls made are that value's calls. */
  lemma {:induction false} ValueRead(ts: seq<Token>, pos: nat, obj: nat, name: string, token: Token, sinks: nat) returns (j: Json)
    requires pos <= |ts| && obj < sinks
    requires PropertyValue(ts, pos, obj, name, token, sinks).outcome.Pass?
    decreases |ts| - pos, 3
    ensures var r := PropertyValue(ts, pos, obj, name, token, sinks);
            && [token] + ts[pos..r.pos] == Tokens(j)
            && r.sinks == sinks + Count(j) && r.events == Events(j, obj, name, sinks)
  {
    if IsValueToken(token) {
      ValueTokenPrinted(token);
      j := Scalar(ScalarOf(token));
    } else if token == LBRACE {
      var ms := MembersRead(ts, pos, sinks, false, sinks + 1);
      j := Object(ms);
    } else {
      var items := ItemsRead(ts, pos, sinks, name, false, sinks + 1);
      j := Array(items);
    }
  }

  /** A loop that succeeds has not run out of tokens at its head. */
  lemma CommaSepPassed(ts: seq<Token>, pos: nat, stop: Token, obj: nat, body: Body, comma: bool, sinks: nat)
    requires pos <= |ts| && obj < sinks && CommaSep(ts, pos, stop, obj, body, comma, sinks).outcome.Pass?
    ensures pos < |ts|
  {
  }

  /** A member loop that succeeds without stopping at once ran its body on
      a string key, `:` and a value that parsed, and then went on. */
  lemma MemberOpens(ts: seq<Token>, pos: nat, p: nat, obj: nat, comma: bool, sinks: nat) returns (key: string, b: Step)
    requires pos < |ts| && obj < sinks && ts[pos] != RBRACE && p == pos + (if comma then 1 else 0)
    requires CommaSep(ts, pos, RBRACE, obj, MemberBody, comma, sinks).outcome.Pass?
    ensures (comma ==> ts[pos] == COMMA) && p + 2 < |ts| && ts[p] == StringValue(key) && ts[p + 1] == COLON
    ensures b == PropertyValue(ts, p + 2 + 1, obj, key, ts[p + 2], sinks) && b.outcome.Pass? && obj < b.sinks
    ensures CommaSep(ts, b.pos, RBRACE, obj, MemberBody, true, b.sinks).outcome.Pass?
    ensures CommaSep(ts, pos, RBRACE, obj, MemberBody, comma, sinks)
            == Then(b.events, CommaSep(ts, b.pos, RBRACE, obj, MemberBody, true, b.sinks))
  {
    CommaSepTurn(ts, pos, RBRACE, obj, MemberBody, comma, sinks);
    key := ts[p].s;
    b := PropertyValue(ts, p + 2 + 1, obj, key, ts[p + 2], sinks);
  }

  /** An element loop that succeeds without stopping at once ran its body
      on a value that parsed, and then went on. */
  lemma ItemOpens(ts: seq<Token>, pos: nat, q: nat, obj: nat, name: string, comma: bool, sinks: nat) returns (b: Step)
    requires pos < |ts| && obj < sinks && ts[pos] != RBRACKET && q == pos + (if comma then 1 else 0)
    requires CommaSep(ts, pos, RBRACKET, obj, ElementBody(name), comma, sinks).outcome.Pass?
    ensures (comma ==> ts[pos] == COMMA) && q < |ts|
    ensures b == PropertyValue(ts, q + 1, obj, name, ts[q], sinks) && b.outcome.Pass? && obj < b.sinks
    ensures CommaSep(ts, b.pos, RBRACKET, obj, ElementBody(name), true, b.sinks).outcome.Pass?
    ensures CommaSep(ts, pos, RBRACKET, obj, ElementBody(name), comma, sinks)
            == Then(b.events, CommaSep(ts, b.pos, RBRACKET, obj, ElementBody(name), true, b.sinks))
  {
    CommaSepTurn(ts, pos, RBRACKET, obj, ElementBody(name), comma, sinks);
    b := PropertyValue(ts, q + 1, obj, name, ts[q], sinks);
  }

  lemma SliceOne(ts: seq<Token>, pos: nat)
    requires pos < |ts|
    ensures ts[pos..pos + 1] == [ts[pos]]
  {
  }

  /** The tokens a member turn read: the comma when one is expected, the
      key, `:`, the value's tokens `vt` and what follows them, `rt`. */
  lemma MemberSlices(ts: seq<Token>, pos: nat, p: nat, key: string, comma: bool, end: nat, last: nat,
                     vt: seq<Token>, rt: seq<Token>)
    requires p == pos + (if comma then 1 else 0) && p + 3 <= end <= last <= |ts|
    requires (comma ==> ts[pos] == COMMA) && ts[p] == StringValue(key) && ts[p + 1] == COLON
    requires [ts[p + 2]] + ts[p + 2 + 1..end] == vt && ts[end..last] == rt
    ensures ts[pos..last] == (if comma then [COMMA] else []) + [StringValue(key), COLON] + vt + rt
  {
    var c: seq<Token> := if comma then [COMMA] else [];
    assert ts[pos..p + 2] == c + [StringValue(key), COLON];
    SliceJoin(ts, p + 2 + 1, end, last);
    SliceJoin(ts, p + 2, p + 2 + 1, last);
    SliceJoin(ts, pos, p + 2, last);
  }

  /** The tokens an element turn read: the comma when one is expected, the
      value's tokens `vt` and what follows them, `rt`. */
  lemma ItemSlices(ts: seq<Token>, pos: nat, q: nat, comma: bool, end: nat, last: nat, vt: seq<Token>, rt: seq<Token>)
    requires q == pos + (if comma then 1 else 0) && q + 1 <= end <= last <= |ts|
    requires comma ==> ts[pos] == COMMA
    requires [ts[q]] + ts[q + 1..end] == vt && ts[end..last] == rt
    ensures ts[pos..last] == (if comma then [COMMA] else []) + vt + rt
  {
    var c: seq<Token> := if comma then [COMMA] else [];
    assert ts[pos..q] == c;
    SliceJoin(ts, q + 1, end, last);
    SliceJoin(ts, q, q + 1, last);
    SliceJoin(ts, pos, q, last);
  }

  /** The tokens, sinks and calls of a member read as `key : v` followed by
      members `rest`, put together. */
  lemma MemberJoin(ts: seq<Token>, pos: nat, p: nat, key: string, v: Json, rest: Members, obj: nat, comma: bool,
                   sinks: nat, b: Step, r: Step)
    requires p == pos + (if comma then 1 else 0) && p + 3 <= b.pos <= r.pos <= |ts|
    requires (comma ==> ts[pos] == COMMA) && ts[p] == StringValue(key) && ts[p + 1] == COLON
    requires [ts[p + 2]] + ts[p + 2 + 1..b.pos] == Tokens(v) && b.sinks == sinks + Count(v) && b.events == Events(v, obj, key, sinks)
    requires ts[b.pos..r.pos] == MembersTokens(rest, true) && r.sinks == b.sinks + MembersCount(rest)
    requires r.events == MembersEvents(rest, obj, b.sinks)
    ensures var ms := Member(key, v, rest);
            && ts[pos..r.pos] == MembersTokens(ms, comma)
            && r.sinks == sinks + MembersCount(ms) && Then(b.events, r).events == MembersEvents(ms, obj, sinks)
  {
    MemberEvents(key, v, rest, obj, sinks);
    MemberSlices(ts, pos, p, key, comma, b.pos, r.pos, Tokens(v), MembersTokens(rest, true));
  }

  /** The tokens, sinks and calls of an item read as `v` followed by items
      `rest`, put together. */
  lemma ItemJoin(ts: seq<Token>, pos: nat, q: nat, v: Json, rest: Items, obj: nat, name: string, comma: bool,
                 sinks: nat, b: Step, r: Step)
    requires q == pos + (if comma then 1 else 0) && q + 1 <= b.pos <= r.pos <= |ts|
    requires comma ==> ts[pos] == COMMA
    requires [ts[q]] + ts[q + 1..b.pos] == Tokens(v) && b.sinks == sinks + Count(v) && b.events == Events(v, obj, name, sinks)
    requires ts[b.pos..r.pos] == ItemsTokens(rest, true) && r.sinks == b.sinks + ItemsCount(rest)
    requires r.events == ItemsEvents(rest, obj, name, b.sinks)
    ensures var items := Item(v, rest);
            && ts[pos..r.pos] == ItemsTokens(items, comma)
            && r.sinks == sinks + ItemsCount(items) && Then(b.events, r).events == ItemsEvents(items, obj, name, sinks)
  {
    ItemEvents(v, rest, obj, name, sinks);
    ItemSlices(ts, pos, q, comma, b.pos, r.pos, Tokens(v), ItemsTokens(rest, true));
  }

  /** A member loop that succeeds has read printed members and their `}`,
      and made their calls. */
  lemma {:induction false} MembersRead(ts: seq<Token>, pos: nat, obj: nat, comma: bool, sinks: nat) returns (ms: Members)
    requires pos <= |ts| && obj < sinks
    requires CommaSep(ts, pos, RBRACE, obj, MemberBody, comma, sinks).outcome.Pass?
    decreases |ts| - pos, 1
    ensures var r := CommaSep(ts, pos, RBRACE, obj, MemberBody, comma, sinks);
            && ts[pos..r.pos] == MembersTokens(ms, comma)
            && r.sinks == sinks + MembersCount(ms) && r.events == MembersEvents(ms, obj, sinks)
  {
    CommaSepPassed(ts, pos, RBRACE, obj, MemberBody, comma, sinks);
    if ts[pos] == RBRACE {
      CommaSepStops(ts, pos, RBRACE, obj, MemberBody, comma, sinks);
      SliceOne(ts, pos);
      ms := NoMembers;
    } else {
      ms := MemberRead(ts, pos, pos + if comma then 1 else 0, obj, comma, sinks);
    }
  }

  /** A member loop that succeeds on a member has read a printed member and
      the printed members after it. */
  lemma {:induction false} MemberRead(ts: seq<Token>, pos: nat, p: nat, obj: nat, comma: bool, sinks: nat) returns (ms: Members)
    requires pos < |ts| && obj < sinks && ts[pos] != RBRACE && p == pos + (if comma then 1 else 0)
    requires CommaSep(ts, pos, RBRACE, obj, MemberBody, comma, sinks).outcome.Pass?
    decreases |ts| - pos, 0
    ensures var r := CommaSep(ts, pos, RBRACE, obj, MemberBody, comma, sinks);
            && ts[pos..r.pos] == MembersTokens(ms, comma)
            && r.sinks == sinks + MembersCount(ms) && r.events == MembersEvents(ms, obj, sinks)
  {
    var key, b := MemberOpens(ts, pos, p, obj, comma, sinks);
    var v := ValueRead(ts, p + 2 + 1, obj, key, ts[p + 2], sinks);
    var rest := MembersRead(ts, b.pos, obj, true, b.sinks);
    MemberJoin(ts, pos, p, key, v, rest, obj, comma, sinks, b, CommaSep(ts, b.pos, RBRACE, obj, MemberBody, true, b.sinks));
    ms := Member(key, v, rest);
  }

  /** An element loop that succeeds has read printed items and their `]`,
      and made their calls. */
  lemma {:induction false} ItemsRead(ts: seq<Token>, pos: nat, obj: nat, name: string, comma: bool, sinks: nat) returns (items: Items)
    requires pos <= |ts| && obj < sinks
    requires CommaSep(ts, pos, RBRACKET, obj, ElementBody(name), comma, sinks).outcome.Pass?
    decreases |ts| - pos, 1
    ensures var r := CommaSep(ts, pos, RBRACKET, obj, ElementBody(name), comma, sinks);
            && ts[pos..r.pos] == ItemsTokens(items, comma)
            && r.sinks == sinks + ItemsCount(items) && r.events == ItemsEvents(items, obj, name, sinks)
  {
    CommaSepPassed(ts, pos, RBRACKET, obj, ElementBody(name), comma, sinks);
    if ts[pos] == RBRACKET {
      CommaSepStops(ts, pos, RBRACKET, obj, ElementBody(name), comma, sinks);
      SliceOne(ts, pos);
      items := NoItems;
    } else {
      items := ItemRead(ts, pos, pos + if comma then 1 else 0, obj, name, comma, sinks);
    }
  }

  /** An element loop that succeeds on an item has read a printed item and
      the printed items after it. */
  lemma {:induction false} ItemRead(ts: seq<Token>, pos: nat, q: nat, obj: nat, name: string, comma: bool, sinks: nat)
    returns (items: Items)
    requires pos < |ts| && obj < sinks && ts[pos] != RBRACKET && q == pos + (if comma then 1 else 0)
    requires CommaSep(ts, pos, RBRACKET, obj, ElementBody(name), comma, sinks).outcome.Pass?
    decreases |ts| - pos, 0
    ensures var r := CommaSep(ts, pos, RBRACKET, obj, ElementBody(name), comma, sinks);
            && ts[pos..r.pos] == ItemsTokens(items, comma)
            && r.sinks == sinks + ItemsCount(items) && r.events == ItemsEvents(items, obj, name, sinks)
  {
    var b := ItemOpens(ts, pos, q, obj, name, comma, sinks);
    var v := ValueRead(ts, q + 1, obj, name, ts[q], sinks);
    var rest := ItemsRead(ts, b.pos, obj, name, true, b.sinks);
    ItemJoin(ts, pos, q, v, rest, obj, name, comma, sinks, b, CommaSep(ts, b.pos, RBRACKET, obj, ElementBody(name), true, b.sinks));
    items := Item(v, rest);
  }

  /** A token sequence the parser accepts is a printed document, and the
      calls are that document's. */
  lemma ParseReadsDocument(ts: seq<Token>) returns (ms: Members)
    requires ParseSpec(ts).outcome.Pass?
    ensures ts == Tokens(Object(ms))
    ensures ParseSpec(ts) == Step(Pass, |ts|, 1 + MembersCount(ms), MembersEvents(ms, 0, 1))
  {
    ms := MembersRead(ts, 1, 0, false, 1);
    assert ts == [ts[0]] + ts[1..|ts|];
  }

  /** `parse` accepts exactly the printed documents, and on each it makes
      exactly the calls that report that document in order. */
  lemma ParseMeaning(ts: seq<Token>)
    ensures ParseSpec(ts).outcome.Pass? <==> exists ms :: ts == Tokens(Object(ms))
    ensures forall ms :: ts == Tokens(Object(ms)) ==> ParseSpec(ts).events == MembersEvents(ms, 0, 1)
  {
    if ParseSpec(ts).outcome.Pass? {
      var ms := ParseReadsDocument(ts);
    }
    forall ms | ts == Tokens(Object(ms))
      ensures ParseSpec(ts).outcome.Pass? && ParseSpec(ts).events == MembersEvents(ms, 0, 1)
    {
      ParseDocument(ms);
    }
  }
}
