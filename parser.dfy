/** Parser.kt: a recursive-descent driver over the lexer's tokens that
    builds no tree but reports what it reads to a `JsonObject` sink.

    The lexer is replaced by a cursor over a token sequence, and the sink by
    a log of the calls made on it: the parser never looks at what a sink does
    with a call, only at the child sink it gets back, so the log and the
    handles it hands out are all a sink is to the parser. Each method of the
    `Parser` class is proved equal to a pure recursive-descent function of
    the tokens (ParseSpec and the functions below it). */
module Parser {
  import opened Values

  // ---------------------------------------------------------------------
  // Sink events

  /** A call on a `JsonObject` sink; sinks are numbered by creation, the root
      being sink 0. */
  datatype Event =
    | SetSimple(sink: nat, name: string, value: JsonScalar)   // setSimpleProperty(name, value)
    | CreateObject(sink: nat, name: string)                   // createObject(name)
    | CreateArray(sink: nat, name: string)                    // createArray(name)

  predicate IsCreate(e: Event) {
    e.CreateObject? || e.CreateArray?
  }

  /** How many child sinks a run of events creates. */
  function Creates(evs: seq<Event>): nat {
    if |evs| == 0 then 0 else (if IsCreate(evs[0]) then 1 else 0) + Creates(evs[1..])
  }

  /** Every event goes to a sink that exists when it is made, `n` sinks
      existing at the start and each create making one more. */
  predicate Handles(evs: seq<Event>, n: nat) {
    |evs| == 0 || (evs[0].sink < n && Handles(evs[1..], n + if IsCreate(evs[0]) then 1 else 0))
  }

  /** Every event goes to sink `obj` or to a sink numbered `lo` or later. */
  predicate Confined(evs: seq<Event>, obj: nat, lo: nat) {
    forall i :: 0 <= i < |evs| ==> evs[i].sink == obj || evs[i].sink >= lo
  }

  lemma {:induction false} CreatesAppend(a: seq<Event>, b: seq<Event>)
    ensures Creates(a + b) == Creates(a) + Creates(b)
  {
    if |a| == 0 {
      assert a + b == b;
    } else {
      assert (a + b)[0] == a[0] && (a + b)[1..] == a[1..] + b;
      CreatesAppend(a[1..], b);
    }
  }

  lemma {:induction false} HandlesAppend(a: seq<Event>, b: seq<Event>, n: nat)
    requires Handles(a, n) && Handles(b, n + Creates(a))
    ensures Handles(a + b, n)
  {
    if |a| == 0 {
      assert a + b == b;
    } else {
      assert (a + b)[1..] == a[1..] + b;
      HandlesAppend(a[1..], b, n + if IsCreate(a[0]) then 1 else 0);
    }
  }

  lemma ConfinedAppend(a: seq<Event>, b: seq<Event>, obj: nat, lo: nat, lo': nat)
    requires Confined(a, obj, lo) && Confined(b, obj, lo') && lo <= lo'
    ensures Confined(a + b, obj, lo)
  {
    forall i | 0 <= i < |a + b|
      ensures (a + b)[i].sink == obj || (a + b)[i].sink >= lo
    {
      if i >= |a| {
        assert (a + b)[i] == b[i - |a|];
      }
    }
  }

  // ---------------------------------------------------------------------
  // The recursive-descent specification

  /** What a parse step returns, where the cursor is left, how many sinks
      exist afterwards, and the sink calls it made. */
  datatype Step = Step(outcome: Outcome, pos: nat, sinks: nat, events: seq<Event>)

  /** The lambda `parseCommaSeparated` is given: an object member or an
      array element reported under the array's property name. */
  datatype Body = MemberBody | ElementBody(name: string)

  /** The events of `a` before those of `b`, ending where `b` ends. */
  function Then(a: seq<Event>, b: Step): Step {
    b.(events := a + b.events)
  }

  /** `parse`: the first token must be `{`, the root object's body follows,
      and no token may follow that. The root sink is sink 0. */
  function ParseSpec(ts: seq<Token>): (r: Step)
    ensures r.pos <= |ts|
    ensures |ts| == 0 || ts[0] != LBRACE ==> r == Step(Fail(TokenExpected(LBRACE)), if |ts| == 0 then 0 else 1, 1, [])
    ensures Handles(r.events, 1)
  {
    if |ts| == 0 then Step(Fail(TokenExpected(LBRACE)), 0, 1, [])
    else if ts[0] != LBRACE then Step(Fail(TokenExpected(LBRACE)), 1, 1, [])
    else
      ObjectBodyNumbered(ts, 1, 0, 1);
      var b := ObjectBody(ts, 1, 0, 1);
      if b.outcome.Fail? then b
      else if b.pos < |ts| then Step(Fail(TooManyTokens), b.pos + 1, b.sinks, b.events)
      else b
  }

  /** `parseObjectBody`: members up to `}`. */
  function ObjectBody(ts: seq<Token>, pos: nat, obj: nat, sinks: nat): (r: Step)
    requires pos <= |ts| && obj < sinks
    decreases |ts| - pos, 2
    ensures pos <= r.pos <= |ts|
    ensures sinks <= r.sinks
  {
    CommaSep(ts, pos, RBRACE, obj, MemberBody, false, sinks)
  }

  /** `parseArrayBody`: elements up to `]`, each reported under the array's
      property name. */
  function ArrayBody(ts: seq<Token>, pos: nat, obj: nat, name: string, sinks: nat): (r: Step)
    requires pos <= |ts| && obj < sinks
    decreases |ts| - pos, 2
    ensures pos <= r.pos <= |ts|
    ensures sinks <= r.sinks
  {
    CommaSep(ts, pos, RBRACKET, obj, ElementBody(name), false, sinks)
  }

  /** Where the top of the `parseCommaSeparated` loop leaves the cursor, and
      what it found: an error, the stop token (`None`), or the token the body
      is called on. */
  datatype Head = Head(next: Result<Option<Token>>, pos: nat)

  /** The top of the `parseCommaSeparated` loop: `nextToken()`; the stop token
      ends the list (even right after a comma is expected); otherwise, once a
      comma is expected, it must be a comma and the body gets the token after
      it. */
  function LoopHead(ts: seq<Token>, pos: nat, stop: Token, expectComma: bool): (h: Head)
    requires pos <= |ts|
    ensures pos <= h.pos <= |ts|
    ensures h.next.Ok? && h.next.value.Some? ==> pos < h.pos
  {
    if pos == |ts| then Head(Err(PrematureEnd), pos)
    else if ts[pos] == stop then Head(Ok(None), pos + 1)
    else if !expectComma then Head(Ok(Some(ts[pos])), pos + 1)
    else if ts[pos] != COMMA then Head(Err(ExpectedComma), pos + 1)
    else if pos + 1 == |ts| then Head(Err(PrematureEnd), pos + 1)
    else Head(Ok(Some(ts[pos + 1])), pos + 2)
  }

  /** `parseCommaSeparated`, from the top of its loop with the current
      `expectComma`: the body runs on each token the loop head yields, and
      the loop goes on, now expecting commas, until the head or the body
      fails or the stop token is read. */
  function CommaSep(ts: seq<Token>, pos: nat, stop: Token, obj: nat, body: Body, expectComma: bool, sinks: nat): (r: Step)
    requires pos <= |ts| && obj < sinks
    decreases |ts| - pos, 1
    ensures pos <= r.pos <= |ts|
    ensures sinks <= r.sinks
  {
    var h := LoopHead(ts, pos, stop, expectComma);
    match h.next
    case Err(e) => Step(Fail(e), h.pos, sinks, [])
    case Ok(None) => Step(Pass, h.pos, sinks, [])
    case Ok(Some(token)) =>
      var b := BodySpec(ts, h.pos, obj, body, token, sinks);
      if b.outcome.Fail? then b
      else
        var rest := CommaSep(ts, b.pos, stop, obj, body, true, b.sinks);
        Then(b.events, rest)
  }

  /** One call of the body lambda on `token`, the cursor being at `pos`. A
      member needs a string key, then `:` (read straight from the lexer, so
      that at the end of input it is reported as missing), then a value. */
  function BodySpec(ts: seq<Token>, pos: nat, obj: nat, body: Body, token: Token, sinks: nat): (r: Step)
    requires pos <= |ts| && obj < sinks
    decreases |ts| - pos, 4
    ensures pos <= r.pos <= |ts|
    ensures sinks <= r.sinks
  {
    match body
    case MemberBody =>
      if !token.StringValue? then Step(Fail(UnexpectedToken(token)), pos, sinks, [])
      else if pos == |ts| then Step(Fail(TokenExpected(COLON)), pos, sinks, [])
      else if ts[pos] != COLON then Step(Fail(TokenExpected(COLON)), pos + 1, sinks, [])
      else if pos + 1 == |ts| then Step(Fail(PrematureEnd), pos + 1, sinks, [])
      else PropertyValue(ts, pos + 2, obj, token.s, ts[pos + 1], sinks)
    case ElementBody(name) =>
      PropertyValue(ts, pos, obj, name, token, sinks)
  }

  /** `parsePropertyValue`: a value token is a simple property; `{` and `[`
      create a child sink (the next number) and parse its body into it;
      anything else is unexpected. */
  function PropertyValue(ts: seq<Token>, pos: nat, obj: nat, name: string, token: Token, sinks: nat): (r: Step)
    requires pos <= |ts| && obj < sinks
    decreases |ts| - pos, 3
    ensures pos <= r.pos <= |ts|
    ensures sinks <= r.sinks
  {
    if IsValueToken(token) then Step(Pass, pos, sinks, [SetSimple(obj, name, ScalarOf(token))])
    else if token == LBRACE then
      var b := ObjectBody(ts, pos, sinks, sinks + 1);
      Then([CreateObject(obj, name)], b)
    else if token == LBRACKET then
      var b := ArrayBody(ts, pos, sinks, name, sinks + 1);
      Then([CreateArray(obj, name)], b)
    else Step(Fail(UnexpectedToken(token)), pos, sinks, [])
  }

  /** Sink numbering of a step that started with `sinks` sinks, at sink
      `obj`: it creates one sink per create event, every event goes to a
      sink that already exists, and apart from `obj` only to sinks it
      created itself. */
  predicate Numbered(r: Step, obj: nat, sinks: nat) {
    r.sinks == sinks + Creates(r.events) && Handles(r.events, sinks) && Confined(r.events, obj, sinks)
  }

  lemma {:induction false} ObjectBodyNumbered(ts: seq<Token>, pos: nat, obj: nat, sinks: nat)
    requires pos <= |ts| && obj < sinks
    decreases |ts| - pos, 2
    ensures Numbered(ObjectBody(ts, pos, obj, sinks), obj, sinks)
  {
    CommaSepNumbered(ts, pos, RBRACE, obj, MemberBody, false, sinks);
  }

  lemma {:induction false} ArrayBodyNumbered(ts: seq<Token>, pos: nat, obj: nat, name: string, sinks: nat)
    requires pos <= |ts| && obj < sinks
    decreases |ts| - pos, 2
    ensures Numbered(ArrayBody(ts, pos, obj, name, sinks), obj, sinks)
  {
    CommaSepNumbered(ts, pos, RBRACKET, obj, ElementBody(name), false, sinks);
  }

  lemma {:induction false} CommaSepNumbered(ts: seq<Token>, pos: nat, stop: Token, obj: nat, body: Body, expectComma: bool, sinks: nat)
    requires pos <= |ts| && obj < sinks
    decreases |ts| - pos, 1
    ensures Numbered(CommaSep(ts, pos, stop, obj, body, expectComma, sinks), obj, sinks)
  {
    var h := LoopHead(ts, pos, stop, expectComma);
    if h.next.Ok? && h.next.value.Some? {
      var b := BodySpec(ts, h.pos, obj, body, h.next.value.value, sinks);
      BodyNumbered(ts, h.pos, obj, body, h.next.value.value, sinks);
      if b.outcome.Pass? {
        var rest := CommaSep(ts, b.pos, stop, obj, body, true, b.sinks);
        CommaSepNumbered(ts, b.pos, stop, obj, body, true, b.sinks);
        CreatesAppend(b.events, rest.events);
        HandlesAppend(b.events, rest.events, sinks);
        ConfinedAppend(b.events, rest.events, obj, sinks, b.sinks);
      }
    }
  }

  lemma {:induction false} BodyNumbered(ts: seq<Token>, pos: nat, obj: nat, body: Body, token: Token, sinks: nat)
    requires pos <= |ts| && obj < sinks
    decreases |ts| - pos, 4
    ensures Numbered(BodySpec(ts, pos, obj, body, token, sinks), obj, sinks)
  {
    match body
    case MemberBody =>
      if token.StringValue? && pos + 1 < |ts| && ts[pos] == COLON {
        PropertyValueNumbered(ts, pos + 2, obj, token.s, ts[pos + 1], sinks);
      }
    case ElementBody(name) =>
      PropertyValueNumbered(ts, pos, obj, name, token, sinks);
  }

  lemma {:induction false} PropertyValueNumbered(ts: seq<Token>, pos: nat, obj: nat, name: string, token: Token, sinks: nat)
    requires pos <= |ts| && obj < sinks
    decreases |ts| - pos, 3
    ensures Numbered(PropertyValue(ts, pos, obj, name, token, sinks), obj, sinks)
  {
    var r := PropertyValue(ts, pos, obj, name, token, sinks);
    if IsValueToken(token) {
      assert r.events == [SetSimple(obj, name, ScalarOf(token))];
      assert r.events[1..] == [];
    } else if token == LBRACE || token == LBRACKET {
      var b := if token == LBRACE then ObjectBody(ts, pos, sinks, sinks + 1) else ArrayBody(ts, pos, sinks, name, sinks + 1);
      if token == LBRACE {
        ObjectBodyNumbered(ts, pos, sinks, sinks + 1);
      } else {
        ArrayBodyNumbered(ts, pos, sinks, name, sinks + 1);
      }
      assert r.events[0].sink == obj && r.events[1..] == b.events && IsCreate(r.events[0]);
      assert Creates(r.events) == 1 + Creates(b.events);
    }
  }

  lemma AppendAssoc(a: seq<Event>, b: seq<Event>, c: seq<Event>)
    ensures a + (b + c) == (a + b) + c
  {
  }

  lemma AppendEmpty(a: seq<Event>)
    ensures a + [] == a
  {
  }

  // ---------------------------------------------------------------------
  // The imperative parser

  /** The lexer, as a cursor over the tokens it would produce. */
  class TokenStream {
    const tokens: seq<Token>
    var pos: nat

    constructor (tokens: seq<Token>)
      ensures this.tokens == tokens && pos == 0
    {
      this.tokens := tokens;
      pos := 0;
    }

    /** `Lexer.nextToken`: the next token, or none (and no move) at the end. */
    method NextToken() returns (t: Option<Token>)
      requires pos <= |tokens|
      modifies this
      ensures old(pos) < |tokens| ==> t == Some(tokens[old(pos)]) && pos == old(pos) + 1
      ensures old(pos) == |tokens| ==> t == None && pos == old(pos)
    {
      if pos == |tokens| {
        t := None;
      } else {
        t := Some(tokens[pos]);
        pos := pos + 1;
      }
    }
  }

  /** A `JsonObject` sink tree, as the log of the calls made on it. Sink 0
      is the root; `sinks` is how many sinks exist. */
  class EventSink {
    var events: seq<Event>
    var sinks: nat

    constructor ()
      ensures events == [] && sinks == 1
    {
      events := [];
      sinks := 1;
    }

    method SetSimpleProperty(obj: nat, propertyName: string, value: JsonScalar)
      modifies this
      ensures events == old(events) + [SetSimple(obj, propertyName, value)] && sinks == old(sinks)
    {
      events := events + [SetSimple(obj, propertyName, value)];
    }

    method CreateObject(obj: nat, propertyName: string) returns (child: nat)
      modifies this
      ensures child == old(sinks) && sinks == old(sinks) + 1
      ensures events == old(events) + [Event.CreateObject(obj, propertyName)]
    {
      events := events + [Event.CreateObject(obj, propertyName)];
      child := sinks;
      sinks := sinks + 1;
    }

    method CreateArray(obj: nat, propertyName: string) returns (child: nat)
      modifies this
      ensures child == old(sinks) && sinks == old(sinks) + 1
      ensures events == old(events) + [Event.CreateArray(obj, propertyName)]
    {
      events := events + [Event.CreateArray(obj, propertyName)];
      child := sinks;
      sinks := sinks + 1;
    }
  }

  /** `Parser(reader, rootObject)`: the lexer it reads and the sink tree it
      reports to, whose root is sink 0. */
  class Parser {
    const lexer: TokenStream
    const rootObject: EventSink

    ghost predicate Valid()
      reads this, lexer, rootObject
    {
      lexer.pos <= |lexer.tokens| && 1 <= rootObject.sinks
    }

    constructor (tokens: seq<Token>, rootObject: EventSink)
      requires rootObject.sinks == 1
      ensures Valid() && fresh(lexer)
      ensures lexer.tokens == tokens && lexer.pos == 0 && this.rootObject == rootObject
    {
      lexer := new TokenStream(tokens);
      this.rootObject := rootObject;
    }

    /** The parser's state has moved as step `s` says. */
    twostate predicate Did(s: Step)
      reads this, lexer, rootObject
    {
      lexer.pos == s.pos && rootObject.sinks == s.sinks && rootObject.events == old(rootObject.events) + s.events
    }

    /** `parse`, on a fresh parser. */
    method Parse() returns (r: Outcome)
      requires Valid() && lexer.pos == 0 && rootObject.sinks == 1
      modifies lexer, rootObject
      ensures Valid()
      ensures var s := ParseSpec(lexer.tokens); r == s.outcome && Did(s)
    {
      var e := Expect(LBRACE);
      if e.Fail? {
        return e;
      }
      r := ParseObjectBody(0);
      if r.Fail? {
        return;
      }
      var t := lexer.NextToken();
      if t.Some? {
        return Fail(TooManyTokens);
      }
    }

    method ParseObjectBody(jsonObject: nat) returns (r: Outcome)
      requires Valid() && jsonObject < rootObject.sinks
      modifies lexer, rootObject
      decreases |lexer.tokens| - lexer.pos, 2
      ensures Valid()
      ensures var s := ObjectBody(lexer.tokens, old(lexer.pos), jsonObject, old(rootObject.sinks));
              r == s.outcome && Did(s)
    {
      r := ParseCommaSeparated(RBRACE, jsonObject, MemberBody);
    }

    method ParseArrayBody(currentObject: nat, propName: string) returns (r: Outcome)
      requires Valid() && currentObject < rootObject.sinks
      modifies lexer, rootObject
      decreases |lexer.tokens| - lexer.pos, 2
      ensures Valid()
      ensures var s := ArrayBody(lexer.tokens, old(lexer.pos), currentObject, propName, old(rootObject.sinks));
              r == s.outcome && Did(s)
    {
      r := ParseCommaSeparated(RBRACKET, currentObject, ElementBody(propName));
    }

    /** `parseCommaSeparated`: the loop, with `body` standing for the lambda. */
    method ParseCommaSeparated(stopToken: Token, obj: nat, body: Body) returns (r: Outcome)
      requires Valid() && obj < rootObject.sinks
      modifies lexer, rootObject
      decreases |lexer.tokens| - lexer.pos, 1
      ensures Valid()
      ensures var s := CommaSep(lexer.tokens, old(lexer.pos), stopToken, obj, body, false, old(rootObject.sinks));
              r == s.outcome && Did(s)
    {
      ghost var ts, pos, sinks := lexer.tokens, lexer.pos, rootObject.sinks;
      ghost var whole := CommaSep(ts, pos, stopToken, obj, body, false, sinks);
      ghost var done: seq<Event> := [];
      var expectComma := false;
      while true
        invariant lexer.tokens == ts && lexer.pos == pos && rootObject.sinks == sinks
        invariant pos <= |ts| && obj < sinks && old(lexer.pos) <= pos
        invariant rootObject.events == old(rootObject.events) + done
        invariant var rest := CommaSep(ts, pos, stopToken, obj, body, expectComma, sinks);
                  whole.outcome == rest.outcome && whole.pos == rest.pos && whole.sinks == rest.sinks
                  && whole.events == done + rest.events
        decreases |ts| - pos
      {
        ghost var h := LoopHead(ts, pos, stopToken, expectComma);
        var token := NextElementToken(stopToken, expectComma);
        if token.Err? || token.value.None? {
          r := if token.Err? then Fail(token.error) else Pass;
          assert whole == Step(r, h.pos, sinks, done) by {
            assert CommaSep(ts, pos, stopToken, obj, body, expectComma, sinks) == Step(r, h.pos, sinks, []);
            AppendEmpty(done);
          }
          return;
        }
        ghost var b := BodySpec(ts, h.pos, obj, body, token.value.value, sinks);
        ghost var before := rootObject.events;
        r := ParseBody(obj, body, token.value.value);
        assert rootObject.events == old(rootObject.events) + (done + b.events) by {
          AppendAssoc(old(rootObject.events), done, b.events);
        }
        ghost var next := CommaSep(ts, b.pos, stopToken, obj, body, true, b.sinks);
        if r.Fail? {
          assert whole == Step(r, b.pos, b.sinks, done + b.events) by {
            assert CommaSep(ts, pos, stopToken, obj, body, expectComma, sinks) == b;
          }
          return;
        }
        assert whole.events == (done + b.events) + next.events && whole.outcome == next.outcome
               && whole.pos == next.pos && whole.sinks == next.sinks by {
          assert CommaSep(ts, pos, stopToken, obj, body, expectComma, sinks) == Then(b.events, next);
          AppendAssoc(done, b.events, next.events);
        }
        done, pos, sinks := done + b.events, b.pos, b.sinks;
        expectComma := true;
      }
    }

    /** The top of the `parseCommaSeparated` loop: `None` when the stop token
        is read, else the token to hand to the body. */
    method NextElementToken(stopToken: Token, expectComma: bool) returns (r: Result<Option<Token>>)
      requires Valid()
      modifies lexer
      ensures Valid()
      ensures var h := LoopHead(lexer.tokens, old(lexer.pos), stopToken, expectComma);
              r == h.next && lexer.pos == h.pos
    {
      var t := NextToken();
      if t.Err? {
        return Err(t.error);
      }
      if t.value == stopToken {
        return Ok(None);
      }
      if expectComma {
        if t.value != COMMA {
          return Err(ExpectedComma);
        }
        t := NextToken();
        if t.Err? {
          return Err(t.error);
        }
      }
      var token := t.value;
      return Ok(Some(token));
    }

    /** The lambda `parseCommaSeparated` calls on each member or element. */
    method ParseBody(obj: nat, body: Body, token: Token) returns (r: Outcome)
      requires Valid() && obj < rootObject.sinks
      modifies lexer, rootObject
      decreases |lexer.tokens| - lexer.pos, 5
      ensures Valid()
      ensures var s := BodySpec(lexer.tokens, old(lexer.pos), obj, body, token, old(rootObject.sinks));
              r == s.outcome && Did(s)
    {
      match body {
        case MemberBody =>
          r := ParseMember(obj, token);
        case ElementBody(propName) =>
          r := ParsePropertyValue(obj, propName, token);
      }
    }

    /** The lambda of `parseObjectBody`: key, colon, value. */
    method ParseMember(jsonObject: nat, token: Token) returns (r: Outcome)
      requires Valid() && jsonObject < rootObject.sinks
      modifies lexer, rootObject
      decreases |lexer.tokens| - lexer.pos, 4
      ensures Valid()
      ensures var s := BodySpec(lexer.tokens, old(lexer.pos), jsonObject, MemberBody, token, old(rootObject.sinks));
              r == s.outcome && Did(s)
    {
      if !token.StringValue? {
        return Fail(UnexpectedToken(token));
      }
      var propName := token.s;
      r := Expect(COLON);
      if r.Fail? {
        return;
      }
      var value := NextToken();
      if value.Err? {
        return Fail(value.error);
      }
      r := ParsePropertyValue(jsonObject, propName, value.value);
    }

    method ParsePropertyValue(currentObject: nat, propName: string, token: Token) returns (r: Outcome)
      requires Valid() && currentObject < rootObject.sinks
      modifies lexer, rootObject
      decreases |lexer.tokens| - lexer.pos, 3
      ensures Valid()
      ensures var s := PropertyValue(lexer.tokens, old(lexer.pos), currentObject, propName, token, old(rootObject.sinks));
              r == s.outcome && Did(s)
    {
      ghost var ts, pos0, events0 := lexer.tokens, lexer.pos, rootObject.events;
      if IsValueToken(token) {
        rootObject.SetSimpleProperty(currentObject, propName, ScalarOf(token));
        r := Pass;
      } else if token == LBRACE {
        var childObj := rootObject.CreateObject(currentObject, propName);
        ghost var b := ObjectBody(ts, pos0, childObj, childObj + 1);
        r := ParseObjectBody(childObj);
        assert rootObject.events == events0 + ([Event.CreateObject(currentObject, propName)] + b.events);
      } else if token == LBRACKET {
        var childObj := rootObject.CreateArray(currentObject, propName);
        ghost var b := ArrayBody(ts, pos0, childObj, propName, childObj + 1);
        r := ParseArrayBody(childObj, propName);
        assert rootObject.events == events0 + ([Event.CreateArray(currentObject, propName)] + b.events);
      } else {
        r := Fail(UnexpectedToken(token));
      }
    }

    /** `expect`: the next token read straight from the lexer must be `token`. */
    method Expect(token: Token) returns (r: Outcome)
      requires Valid()
      modifies lexer
      ensures Valid()
      ensures old(lexer.pos) < |lexer.tokens| ==> lexer.pos == old(lexer.pos) + 1
      ensures old(lexer.pos) == |lexer.tokens| ==> lexer.pos == old(lexer.pos)
      ensures r.Pass? <==> old(lexer.pos) < |lexer.tokens| && lexer.tokens[old(lexer.pos)] == token
      ensures r.Fail? ==> r.error == TokenExpected(token)
    {
      var t := lexer.NextToken();
      if t != Some(token) {
        return Fail(TokenExpected(token));
      }
      return Pass;
    }

    /** `nextToken`: the lexer's next token, the end of input being an error. */
    method NextToken() returns (r: Result<Token>)
      requires Valid()
      modifies lexer
      ensures Valid()
      ensures old(lexer.pos) < |lexer.tokens| ==> r == Ok(lexer.tokens[old(lexer.pos)]) && lexer.pos == old(lexer.pos) + 1
      ensures old(lexer.pos) == |lexer.tokens| ==> r == Err(PrematureEnd) && lexer.pos == old(lexer.pos)
    {
      var t := lexer.NextToken();
      if t.None? {
        return Err(PrematureEnd);
      }
      return Ok(t.value);
    }
  }
}
