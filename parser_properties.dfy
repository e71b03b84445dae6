/** What the recursive-descent parser of Parser.kt promises about the token
    sequences it accepts and rejects, and about the sink calls it makes,
    stated over the specification functions that the `Parser` class is
    proved to follow. */
module ParserProperties {
  import opened Values
  import opened Parser

  // ---------------------------------------------------------------------
  // A parse step reads exactly the tokens it consumes

  /** `ts` and `ts2` hold the same tokens from `from` up to `to`. */
  predicate Agree(ts: seq<Token>, ts2: seq<Token>, from: nat, to: nat) {
    from <= to <= |ts| && to <= |ts2| && forall i :: from <= i < to ==> ts[i] == ts2[i]
  }

  /** A successful comma-separated list depends only on the tokens it
      consumed: any token sequence that agrees on them gives the same step,
      whatever follows or is missing after them. */
  lemma {:induction false} CommaSepStable(ts: seq<Token>, ts2: seq<Token>, pos: nat, stop: Token, obj: nat, body: Body, expectComma: bool, sinks: nat)
    requires pos <= |ts| && pos <= |ts2| && obj < sinks
    requires CommaSep(ts, pos, stop, obj, body, expectComma, sinks).outcome.Pass?
    requires Agree(ts, ts2, pos, CommaSep(ts, pos, stop, obj, body, expectComma, sinks).pos)
    decreases |ts| - pos, 1
    ensures CommaSep(ts2, pos, stop, obj, body, expectComma, sinks) == CommaSep(ts, pos, stop, obj, body, expectComma, sinks)
  {
    var r := CommaSep(ts, pos, stop, obj, body, expectComma, sinks);
    var h := LoopHead(ts, pos, stop, expectComma);
    assert h.next.Ok? && h.pos <= r.pos;
    LoopHeadStable(ts, ts2, pos, stop, expectComma);
    if h.next.value.Some? {
      CommaSepTurnStable(ts, ts2, pos, stop, obj, body, expectComma, sinks);
    }
  }

  /** One turn of the loop that reaches the body, on agreeing tokens. */
  lemma {:induction false} CommaSepTurnStable(ts: seq<Token>, ts2: seq<Token>, pos: nat, stop: Token, obj: nat, body: Body, expectComma: bool, sinks: nat)
    requires pos <= |ts| && pos <= |ts2| && obj < sinks
    requires CommaSep(ts, pos, stop, obj, body, expectComma, sinks).outcome.Pass?
    requires Agree(ts, ts2, pos, CommaSep(ts, pos, stop, obj, body, expectComma, sinks).pos)
    requires LoopHead(ts2, pos, stop, expectComma) == LoopHead(ts, pos, stop, expectComma)
    requires LoopHead(ts, pos, stop, expectComma).next.Ok? && LoopHead(ts, pos, stop, expectComma).next.value.Some?
    decreases |ts| - pos, 0
    ensures CommaSep(ts2, pos, stop, obj, body, expectComma, sinks) == CommaSep(ts, pos, stop, obj, body, expectComma, sinks)
  {
    var h := LoopHead(ts, pos, stop, expectComma);
    var token := h.next.value.value;
    var b := BodySpec(ts, h.pos, obj, body, token, sinks);
    var rest := CommaSep(ts, b.pos, stop, obj, body, true, b.sinks);
    assert b.outcome.Pass? && rest.pos == CommaSep(ts, pos, stop, obj, body, expectComma, sinks).pos;
    BodyStable(ts, ts2, h.pos, obj, body, token, sinks);
    CommaSepStable(ts, ts2, b.pos, stop, obj, body, true, b.sinks);
  }

  /** The loop head of a list that does not fail there, on agreeing tokens. */
  lemma LoopHeadStable(ts: seq<Token>, ts2: seq<Token>, pos: nat, stop: Token, expectComma: bool)
    requires pos <= |ts| && pos <= |ts2|
    requires LoopHead(ts, pos, stop, expectComma).next.Ok?
    requires Agree(ts, ts2, pos, LoopHead(ts, pos, stop, expectComma).pos)
    ensures LoopHead(ts2, pos, stop, expectComma) == LoopHead(ts, pos, stop, expectComma)
  {
    assert ts2[pos] == ts[pos];
    if expectComma && ts[pos] != stop {
      assert ts2[pos + 1] == ts[pos + 1];
    }
  }

  lemma {:induction false} BodyStable(ts: seq<Token>, ts2: seq<Token>, pos: nat, obj: nat, body: Body, token: Token, sinks: nat)
    requires pos <= |ts| && pos <= |ts2| && obj < sinks
    requires BodySpec(ts, pos, obj, body, token, sinks).outcome.Pass?
    requires Agree(ts, ts2, pos, BodySpec(ts, pos, obj, body, token, sinks).pos)
    decreases |ts| - pos, 4
    ensures BodySpec(ts2, pos, obj, body, token, sinks) == BodySpec(ts, pos, obj, body, token, sinks)
  {
    match body
    case MemberBody =>
      PropertyValueStable(ts, ts2, pos + 2, obj, token.s, ts[pos + 1], sinks);
      assert ts2[pos] == ts[pos] && ts2[pos + 1] == ts[pos + 1];
    case ElementBody(name) =>
      PropertyValueStable(ts, ts2, pos, obj, name, token, sinks);
  }

  lemma {:induction false} PropertyValueStable(ts: seq<Token>, ts2: seq<Token>, pos: nat, obj: nat, name: string, token: Token, sinks: nat)
    requires pos <= |ts| && pos <= |ts2| && obj < sinks
    requires PropertyValue(ts, pos, obj, name, token, sinks).outcome.Pass?
    requires Agree(ts, ts2, pos, PropertyValue(ts, pos, obj, name, token, sinks).pos)
    decreases |ts| - pos, 3
    ensures PropertyValue(ts2, pos, obj, name, token, sinks) == PropertyValue(ts, pos, obj, name, token, sinks)
  {
    if token == LBRACE {
      CommaSepStable(ts, ts2, pos, RBRACE, sinks, MemberBody, false, sinks + 1);
    } else if token == LBRACKET {
      CommaSepStable(ts, ts2, pos, RBRACKET, sinks, ElementBody(name), false, sinks + 1);
    }
  }

  /** A document that parses leaves no token unread. */
  lemma ParseConsumesAll(ts: seq<Token>)
    requires ParseSpec(ts).outcome.Pass?
    ensures ParseSpec(ts).pos == |ts| && |ts| >= 2 && ts[0] == LBRACE
  {
    var h := LoopHead(ts, 1, RBRACE, false);
    assert h.next.Ok? && h.pos <= ObjectBody(ts, 1, 0, 1).pos;
  }

  /** "Too many tokens": whatever follows a complete root object is
      rejected, after the sink has received every call of the object. */
  lemma TrailingTokensRejected(ts: seq<Token>, extra: seq<Token>)
    requires ParseSpec(ts).outcome.Pass? && |extra| > 0
    ensures ParseSpec(ts + extra).outcome == Fail(TooManyTokens)
    ensures ParseSpec(ts + extra).events == ParseSpec(ts).events
  {
    var ts2 := ts + extra;
    assert ts2[0] == LBRACE;
    CommaSepStable(ts, ts2, 1, RBRACE, 0, MemberBody, false, 1);
  }

  // ---------------------------------------------------------------------
  // Running out of tokens

  /** The errors raised when the input ends inside a structure: "Premature
      end of data" from `nextToken`, or, when the input ends right after a
      member's key, "COLON expected" from `expect`, which reads the lexer
      directly. */
  predicate EndOfInputError(o: Outcome) {
    o == Fail(PrematureEnd) || o == Fail(TokenExpected(COLON))
  }

  /** Cutting the tokens of a successful list anywhere before its end makes
      it fail with an end-of-input error. */
  lemma {:induction false} CommaSepTruncated(ts: seq<Token>, k: nat, pos: nat, stop: Token, obj: nat, body: Body, expectComma: bool, sinks: nat)
    requires pos <= k <= |ts| && obj < sinks
    requires CommaSep(ts, pos, stop, obj, body, expectComma, sinks).outcome.Pass?
    requires k < CommaSep(ts, pos, stop, obj, body, expectComma, sinks).pos
    decreases |ts| - pos, 1
    ensures EndOfInputError(CommaSep(ts[..k], pos, stop, obj, body, expectComma, sinks).outcome)
  {
    var cut := ts[..k];
    var h := LoopHead(ts, pos, stop, expectComma);
    if pos == k {
      assert LoopHead(cut, pos, stop, expectComma).next == Err(PrematureEnd);
    } else if expectComma && pos + 1 == k {
      assert cut[pos] == ts[pos] == COMMA;
      assert LoopHead(cut, pos, stop, expectComma).next == Err(PrematureEnd);
    } else {
      assert Agree(ts, cut, pos, h.pos);
      assert LoopHead(cut, pos, stop, expectComma) == h;
      var token := h.next.value.value;
      var b := BodySpec(ts, h.pos, obj, body, token, sinks);
      if k < b.pos {
        BodyTruncated(ts, k, h.pos, obj, body, token, sinks);
      } else {
        assert Agree(ts, cut, h.pos, b.pos);
        BodyStable(ts, cut, h.pos, obj, body, token, sinks);
        CommaSepTruncated(ts, k, b.pos, stop, obj, body, true, b.sinks);
      }
    }
  }

  lemma {:induction false} BodyTruncated(ts: seq<Token>, k: nat, pos: nat, obj: nat, body: Body, token: Token, sinks: nat)
    requires pos <= k <= |ts| && obj < sinks
    requires BodySpec(ts, pos, obj, body, token, sinks).outcome.Pass?
    requires k < BodySpec(ts, pos, obj, body, token, sinks).pos
    decreases |ts| - pos, 4
    ensures EndOfInputError(BodySpec(ts[..k], pos, obj, body, token, sinks).outcome)
  {
    var cut := ts[..k];
    match body
    case MemberBody =>
      if pos < k {
        assert cut[pos] == ts[pos];
        if pos + 1 < k {
          assert cut[pos + 1] == ts[pos + 1];
          PropertyValueTruncated(ts, k, pos + 2, obj, token.s, ts[pos + 1], sinks);
        }
      }
    case ElementBody(name) =>
      PropertyValueTruncated(ts, k, pos, obj, name, token, sinks);
  }

  lemma {:induction false} PropertyValueTruncated(ts: seq<Token>, k: nat, pos: nat, obj: nat, name: string, token: Token, sinks: nat)
    requires pos <= k <= |ts| && obj < sinks
    requires PropertyValue(ts, pos, obj, name, token, sinks).outcome.Pass?
    requires k < PropertyValue(ts, pos, obj, name, token, sinks).pos
    decreases |ts| - pos, 3
    ensures EndOfInputError(PropertyValue(ts[..k], pos, obj, name, token, sinks).outcome)
  {
    if token == LBRACE {
      CommaSepTruncated(ts, k, pos, RBRACE, sinks, MemberBody, false, sinks + 1);
    } else if token == LBRACKET {
      CommaSepTruncated(ts, k, pos, RBRACKET, sinks, ElementBody(name), false, sinks + 1);
    }
  }

  /** "Premature end of data": every proper, non-empty prefix of a document
      that parses is rejected with an end-of-input error. */
  lemma PrematureEndOfData(ts: seq<Token>, k: nat)
    requires ParseSpec(ts).outcome.Pass? && 1 <= k < |ts|
    ensures EndOfInputError(ParseSpec(ts[..k]).outcome)
  {
    assert ts[..k][0] == LBRACE;
    CommaSepTruncated(ts, k, 1, RBRACE, 0, MemberBody, false, 1);
  }

  // ---------------------------------------------------------------------
  // Structural errors

  /** The root must be an object: without a leading `{` the input is
      rejected with "LBRACE expected" before any sink call. */
  lemma RootMustBeObject(ts: seq<Token>)
    ensures ParseSpec(ts).outcome.Pass? ==> |ts| > 0 && ts[0] == LBRACE
    ensures |ts| > 0 && ts[0] != LBRACE ==> ParseSpec(ts).outcome == Fail(TokenExpected(LBRACE)) && ParseSpec(ts).events == []
  {
  }

  /** In an object, a member must start with a string key (first member or
      after a comma), and the key must be followed by `:`. */
  lemma MemberKeyErrors(ts: seq<Token>, pos: nat, obj: nat, expectComma: bool, sinks: nat)
    requires pos < |ts| && obj < sinks && ts[pos] != RBRACE
    requires expectComma ==> ts[pos] == COMMA && pos + 1 < |ts|
    ensures var key := ts[if expectComma then pos + 1 else pos];
            var r := CommaSep(ts, pos, RBRACE, obj, MemberBody, expectComma, sinks);
            && (!key.StringValue? ==> r.outcome == Fail(UnexpectedToken(key)) && r.events == [])
            && (var at := if expectComma then pos + 2 else pos + 1;
                key.StringValue? && at < |ts| && ts[at] != COLON ==> r.outcome == Fail(TokenExpected(COLON)) && r.events == [])
  {
  }

  /** After a member or element, only a comma or the closing token may
      follow: anything else is "Expected comma". */
  lemma MissingComma(ts: seq<Token>, pos: nat, stop: Token, obj: nat, body: Body, sinks: nat)
    requires pos < |ts| && obj < sinks && ts[pos] != stop && ts[pos] != COMMA
    ensures CommaSep(ts, pos, stop, obj, body, true, sinks) == Step(Fail(ExpectedComma), pos + 1, sinks, [])
  {
  }

  /** No trailing comma: a comma directly followed by the closing token hands
      that token to the body, which rejects it as unexpected, in objects and
      in arrays alike. */
  lemma TrailingCommaRejected(ts: seq<Token>, pos: nat, stop: Token, obj: nat, body: Body, sinks: nat)
    requires pos + 1 < |ts| && obj < sinks && ts[pos] == COMMA && ts[pos + 1] == stop
    requires stop == RBRACE || stop == RBRACKET
    requires body.MemberBody? <==> stop == RBRACE
    ensures CommaSep(ts, pos, stop, obj, body, true, sinks).outcome == Fail(UnexpectedToken(stop))
    ensures CommaSep(ts, pos, stop, obj, body, true, sinks).events == []
  {
    assert BodySpec(ts, pos + 2, obj, body, stop, sinks) == Step(Fail(UnexpectedToken(stop)), pos + 2, sinks, []) by {
      if body.ElementBody? {
        assert PropertyValue(ts, pos + 2, obj, body.name, stop, sinks) == Step(Fail(UnexpectedToken(stop)), pos + 2, sinks, []);
      }
    }
  }

  /** The object `{"title": "X",}`: the trailing comma is a structural error,
      not a dropped separator, and the member before it has already been
      reported to the root sink. */
  lemma TrailingCommaExample()
    ensures var r := ParseSpec([LBRACE, StringValue("title"), COLON, StringValue("X"), COMMA, RBRACE]);
            r.outcome == Fail(UnexpectedToken(RBRACE)) && r.events == [SetSimple(0, "title", Str("X"))]
  {
    var ts := [LBRACE, StringValue("title"), COLON, StringValue("X"), COMMA, RBRACE];
    TrailingCommaRejected(ts, 4, RBRACE, 0, MemberBody, 1);
    assert BodySpec(ts, 2, 0, MemberBody, ts[1], 1) == Step(Pass, 4, 1, [SetSimple(0, "title", Str("X"))]);
  }

  // ---------------------------------------------------------------------
  // Sink calls

  /** Empty structures: `{}` and `[]` create their child sink and make no
      call on it. */
  lemma EmptyStructures(ts: seq<Token>, pos: nat, obj: nat, name: string, sinks: nat)
    requires pos < |ts| && obj < sinks
    ensures ts[pos] == RBRACE ==>
              PropertyValue(ts, pos, obj, name, LBRACE, sinks) == Step(Pass, pos + 1, sinks + 1, [CreateObject(obj, name)])
    ensures ts[pos] == RBRACKET ==>
              PropertyValue(ts, pos, obj, name, LBRACKET, sinks) == Step(Pass, pos + 1, sinks + 1, [CreateArray(obj, name)])
  {
    if ts[pos] == RBRACE {
      assert ObjectBody(ts, pos, sinks, sinks + 1) == Step(Pass, pos + 1, sinks + 1, []);
    }
    if ts[pos] == RBRACKET {
      assert ArrayBody(ts, pos, sinks, name, sinks + 1) == Step(Pass, pos + 1, sinks + 1, []);
    }
  }

  /** Every call that a step makes on sink `obj` itself is about `name`. */
  predicate NamedOn(evs: seq<Event>, obj: nat, name: string) {
    forall i :: 0 <= i < |evs| && evs[i].sink == obj ==> evs[i].name == name
  }

  /** Every element of an array is reported on the array's own child sink
      under the array's property name; nested structures go to sinks of
      their own. */
  lemma {:induction false} ArrayElementsNamed(ts: seq<Token>, pos: nat, stop: Token, obj: nat, name: string, expectComma: bool, sinks: nat)
    requires pos <= |ts| && obj < sinks
    decreases |ts| - pos
    ensures NamedOn(CommaSep(ts, pos, stop, obj, ElementBody(name), expectComma, sinks).events, obj, name)
  {
    var h := LoopHead(ts, pos, stop, expectComma);
    if h.next.Ok? && h.next.value.Some? {
      var token := h.next.value.value;
      var b := BodySpec(ts, h.pos, obj, ElementBody(name), token, sinks);
      assert NamedOn(b.events, obj, name) by {
        assert b == PropertyValue(ts, h.pos, obj, name, token, sinks);
        if token == LBRACE {
          ObjectBodyNumbered(ts, h.pos, sinks, sinks + 1);
          assert b.events == [CreateObject(obj, name)] + ObjectBody(ts, h.pos, sinks, sinks + 1).events;
        } else if token == LBRACKET {
          ArrayBodyNumbered(ts, h.pos, sinks, name, sinks + 1);
          assert b.events == [CreateArray(obj, name)] + ArrayBody(ts, h.pos, sinks, name, sinks + 1).events;
        }
      }
      if b.outcome.Pass? {
        var rest := CommaSep(ts, b.pos, stop, obj, ElementBody(name), true, b.sinks);
        ArrayElementsNamed(ts, b.pos, stop, obj, name, true, b.sinks);
        assert NamedOn(b.events + rest.events, obj, name) by {
          forall i | 0 <= i < |b.events + rest.events| && (b.events + rest.events)[i].sink == obj
            ensures (b.events + rest.events)[i].name == name
          {
            if i >= |b.events| {
              assert (b.events + rest.events)[i] == rest.events[i - |b.events|];
            }
          }
        }
      }
    }
  }

  /** Document order: every call of a parse goes to the root sink or to a
      sink created by an earlier call, and the child sinks are numbered in
      the order their `{` or `[` appears. */
  lemma ParseEventsInOrder(ts: seq<Token>)
    ensures Numbered(ParseSpec(ts), 0, 1)
  {
    if |ts| > 0 && ts[0] == LBRACE {
      ObjectBodyNumbered(ts, 1, 0, 1);
    }
  }
}
