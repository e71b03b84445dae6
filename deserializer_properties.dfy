/** Properties of the seeds: what a spawn builds from what a seed recorded,
    that a seed only ever spawns a value of the shape its type calls for, and
    what `deserialize` returns or rejects. */
module DeserializerProperties {
  import opened Values
  import opened ValueSerializers
  import opened ClassInfoCache
  import opened Parser
  import ParserProperties
  import opened ParserDocuments
  import opened Deserializer

  // ---------------------------------------------------------------------
  // Spawning

  /** The parameters an object seed has recorded child seeds for. */
  function SeedParams(kids: seq<Entry>): set<nat> {
    set k | 0 <= k < |kids| :: kids[k].param
  }

  /** `seedArguments.mapValues { it.value.spawn() }` succeeds exactly when
      every recorded child spawns. */
  lemma {:induction false} SpawnArgumentsOk(seeds: seq<Seed>, i: nat, kids: seq<Entry>)
    requires Wf(seeds) && i < |seeds|
    requires forall k :: 0 <= k < |kids| ==> i < kids[k].seed < |seeds|
    decreases |kids|
    ensures SpawnArguments(seeds, i, kids).Ok? <==> forall k :: 0 <= k < |kids| ==> Spawn(seeds, kids[k].seed).Ok?
  {
    if |kids| > 0 {
      SpawnArgumentsOk(seeds, i, kids[1..]);
      assert forall k :: 1 <= k < |kids| ==> kids[1..][k - 1] == kids[k];
    }
  }

  /** The children spawn in recording order: the error is that of the first
      child that fails. */
  lemma {:induction false} SpawnArgumentsFirstError(seeds: seq<Seed>, i: nat, kids: seq<Entry>)
    requires Wf(seeds) && i < |seeds|
    requires forall k :: 0 <= k < |kids| ==> i < kids[k].seed < |seeds|
    requires SpawnArguments(seeds, i, kids).Err?
    decreases |kids|
    ensures exists j :: 0 <= j < |kids| && Spawn(seeds, kids[j].seed) == Err(SpawnArguments(seeds, i, kids).error)
                        && forall k :: 0 <= k < j ==> Spawn(seeds, kids[k].seed).Ok?
  {
    var r := SpawnArguments(seeds, i, kids);
    if Spawn(seeds, kids[0].seed).Err? {
      assert Spawn(seeds, kids[0].seed) == Err(r.error);
    } else {
      var rest := kids[1..];
      assert SpawnArguments(seeds, i, rest).Err? && SpawnArguments(seeds, i, rest).error == r.error;
      SpawnArgumentsFirstError(seeds, i, rest);
      var j :| 0 <= j < |rest| && Spawn(seeds, rest[j].seed) == Err(r.error)
               && forall k :: 0 <= k < j ==> Spawn(seeds, rest[k].seed).Ok?;
      FirstChildFailureShifts(seeds, kids, j, r.error);
    }
  }

  /** `FirstFailureShifts`, for the children of an object seed. */
  lemma FirstChildFailureShifts(seeds: seq<Seed>, kids: seq<Entry>, j: nat, e: Error)
    requires Wf(seeds) && j + 1 < |kids| && forall k :: 0 <= k < |kids| ==> kids[k].seed < |seeds|
    requires Spawn(seeds, kids[0].seed).Ok?
    requires Spawn(seeds, kids[1..][j].seed) == Err(e) && forall k :: 0 <= k < j ==> Spawn(seeds, kids[1..][k].seed).Ok?
    ensures exists j' :: 0 <= j' < |kids| && Spawn(seeds, kids[j'].seed) == Err(e)
                         && forall k :: 0 <= k < j' ==> Spawn(seeds, kids[k].seed).Ok?
  {
    assert forall k :: 1 <= k <= j ==> kids[k] == kids[1..][k - 1];
    assert Spawn(seeds, kids[j + 1].seed) == Err(e);
  }

  /** Once every child spawns, the recorded parameters are the keys. */
  lemma {:induction false} SpawnArgumentsKeys(seeds: seq<Seed>, i: nat, kids: seq<Entry>)
    requires Wf(seeds) && i < |seeds|
    requires forall k :: 0 <= k < |kids| ==> i < kids[k].seed < |seeds|
    requires SpawnArguments(seeds, i, kids).Ok?
    decreases |kids|
    ensures SpawnArguments(seeds, i, kids).value.Keys == SeedParams(kids)
  {
    if |kids| > 0 {
      var rest := kids[1..];
      SpawnArgumentsKeys(seeds, i, rest);
      forall p | p in SeedParams(kids)
        ensures p in {kids[0].param} + SeedParams(rest)
      {
        var k :| 0 <= k < |kids| && kids[k].param == p;
        if k > 0 {
          assert rest[k - 1].param == p;
        }
      }
      forall p | p in SeedParams(rest)
        ensures p in SeedParams(kids)
      {
        var k :| 0 <= k < |rest| && rest[k].param == p;
        assert kids[k + 1].param == p;
      }
    }
  }

  /** Once every child spawns, every recorded parameter maps to its own
      child's value. */
  lemma {:induction false} SpawnArgumentsValues(seeds: seq<Seed>, i: nat, kids: seq<Entry>)
    requires Wf(seeds) && i < |seeds| && DistinctParams(kids)
    requires forall k :: 0 <= k < |kids| ==> i < kids[k].seed < |seeds|
    requires SpawnArguments(seeds, i, kids).Ok?
    decreases |kids|
    ensures var args := SpawnArguments(seeds, i, kids).value;
            forall k :: 0 <= k < |kids| ==> kids[k].param in args && Spawn(seeds, kids[k].seed) == Ok(args[kids[k].param])
  {
    if |kids| > 0 {
      var rest := kids[1..];
      SpawnArgumentsValues(seeds, i, rest);
      SpawnArgumentsKeys(seeds, i, rest);
      var args := SpawnArguments(seeds, i, kids).value;
      var tail := SpawnArguments(seeds, i, rest).value;
      assert args == tail[kids[0].param := Spawn(seeds, kids[0].seed).value];
      forall k | 1 <= k < |kids|
        ensures kids[k].param in args && Spawn(seeds, kids[k].seed) == Ok(args[kids[k].param])
      {
        assert kids[k] == rest[k - 1];
        assert kids[k].param != kids[0].param;
      }
    }
  }

  /** `valueArguments + seedArguments.mapValues { it.value.spawn() }` of the
      object seed `i`, told apart by its keys and values: the recorded
      parameters, each child's spawned value, and the simple value where no
      child was recorded for the parameter. */
  ghost predicate MergedArguments(seeds: seq<Seed>, i: nat, args: map<nat, Value>)
    requires Wf(seeds) && i < |seeds| && seeds[i].ObjectSeed?
  {
    var s := seeds[i];
    var kids := s.seedArguments;
    assert forall k :: 0 <= k < |kids| ==> kids[k].seed == Children(s)[k];
    && args.Keys == s.valueArguments.Keys + SeedParams(kids)
    && (forall k :: 0 <= k < |kids| ==> kids[k].param in args && Spawn(seeds, kids[k].seed) == Ok(args[kids[k].param]))
    && (forall p :: p in s.valueArguments && p !in SeedParams(kids) ==> args[p] == s.valueArguments[p])
  }

  /** An object seed spawns an instance of its class whose arguments are the
      simple values it recorded and the spawned children, a child taking
      precedence over a simple value for the same parameter. Once every child
      spawns, the result is `createInstance` on those arguments, so it fails
      exactly on a missing parameter; a child that fails to spawn fails the
      object, the first such child in recording order giving the error. */
  lemma SpawnedInstance(seeds: seq<Seed>, i: nat)
    requires Wf(seeds) && i < |seeds| && seeds[i].ObjectSeed?
    ensures var s := seeds[i];
            var kids := s.seedArguments;
            var r := Spawn(seeds, i);
            && (r.Ok? ==> r.value.Instance? && r.value.cls == s.info.className && MergedArguments(seeds, i, r.value.args))
            && ((forall k :: 0 <= k < |kids| ==> Spawn(seeds, kids[k].seed).Ok?) ==>
                  exists args :: MergedArguments(seeds, i, args) && r == Instantiate(s.info, args))
            && ((exists k :: 0 <= k < |kids| && Spawn(seeds, kids[k].seed).Err?) ==>
                  exists j :: 0 <= j < |kids| && Spawn(seeds, kids[j].seed) == r
                              && forall k :: 0 <= k < j ==> Spawn(seeds, kids[k].seed).Ok?)
  {
    var s := seeds[i];
    var kids := s.seedArguments;
    SpawnArgumentsOk(seeds, i, kids);
    if SpawnArguments(seeds, i, kids).Ok? {
      SpawnArgumentsKeys(seeds, i, kids);
      SpawnArgumentsValues(seeds, i, kids);
      var args := s.valueArguments + SpawnArguments(seeds, i, kids).value;
      assert MergedArguments(seeds, i, args);
      assert Spawn(seeds, i) == Instantiate(s.info, args);
    } else {
      SpawnArgumentsFirstError(seeds, i, kids);
    }
  }

  /** `elements.map { it.spawn() }`: every element spawns, in order, or the
      first that fails is the error of spawning the list. */
  lemma SpawnElementsMeaning(seeds: seq<Seed>, i: nat, elements: seq<nat>)
    requires Wf(seeds) && i < |seeds| && Between(elements, i, |seeds|)
    ensures var r := SpawnElements(seeds, i, elements);
            && (r.Ok? <==> forall k :: 0 <= k < |elements| ==> Spawn(seeds, elements[k]).Ok?)
            && (r.Ok? ==> |r.value| == |elements|
                          && forall k :: 0 <= k < |elements| ==> r.value[k] == Spawn(seeds, elements[k]).value)
            && (r.Err? ==> exists j :: 0 <= j < |elements| && Spawn(seeds, elements[j]) == Err(r.error)
                                       && forall k :: 0 <= k < j ==> Spawn(seeds, elements[k]).Ok?)
  {
    SpawnElementsValues(seeds, i, elements);
    if SpawnElements(seeds, i, elements).Err? {
      SpawnElementsFirstError(seeds, i, elements);
    }
  }

  /** The elements spawn, all of them and in order, exactly when each does. */
  lemma {:induction false} SpawnElementsValues(seeds: seq<Seed>, i: nat, elements: seq<nat>)
    requires Wf(seeds) && i < |seeds| && Between(elements, i, |seeds|)
    decreases |elements|
    ensures var r := SpawnElements(seeds, i, elements);
            && (r.Ok? <==> forall k :: 0 <= k < |elements| ==> Spawn(seeds, elements[k]).Ok?)
            && (r.Ok? ==> |r.value| == |elements|
                          && forall k :: 0 <= k < |elements| ==> r.value[k] == Spawn(seeds, elements[k]).value)
  {
    if |elements| > 0 {
      var rest := elements[1..];
      SpawnElementsValues(seeds, i, rest);
      assert forall k :: 0 <= k < |rest| ==> rest[k] == elements[k + 1];
    }
  }

  /** A failing element list fails with its first element that fails. */
  lemma {:induction false} SpawnElementsFirstError(seeds: seq<Seed>, i: nat, elements: seq<nat>)
    requires Wf(seeds) && i < |seeds| && Between(elements, i, |seeds|)
    requires SpawnElements(seeds, i, elements).Err?
    decreases |elements|
    ensures exists j :: 0 <= j < |elements| && Spawn(seeds, elements[j]) == Err(SpawnElements(seeds, i, elements).error)
                        && forall k :: 0 <= k < j ==> Spawn(seeds, elements[k]).Ok?
  {
    var r := SpawnElements(seeds, i, elements);
    if Spawn(seeds, elements[0]).Err? {
      assert Spawn(seeds, elements[0]) == Err(r.error);
    } else {
      var rest := elements[1..];
      assert SpawnElements(seeds, i, rest).Err? && SpawnElements(seeds, i, rest).error == r.error;
      SpawnElementsFirstError(seeds, i, rest);
      var j :| 0 <= j < |rest| && Spawn(seeds, rest[j]) == Err(r.error)
               && forall k :: 0 <= k < j ==> Spawn(seeds, rest[k]).Ok?;
      FirstFailureShifts(seeds, elements, j, r.error);
    }
  }

  /** A first failure among all but the first element, after a first
      element that spawns, is the first failure of them all. */
  lemma FirstFailureShifts(seeds: seq<Seed>, elements: seq<nat>, j: nat, e: Error)
    requires Wf(seeds) && j + 1 < |elements| && forall k :: 0 <= k < |elements| ==> elements[k] < |seeds|
    requires Spawn(seeds, elements[0]).Ok?
    requires Spawn(seeds, elements[1..][j]) == Err(e) && forall k :: 0 <= k < j ==> Spawn(seeds, elements[1..][k]).Ok?
    ensures exists j' :: 0 <= j' < |elements| && Spawn(seeds, elements[j']) == Err(e)
                         && forall k :: 0 <= k < j' ==> Spawn(seeds, elements[k]).Ok?
  {
    assert forall k :: 1 <= k <= j ==> elements[k] == elements[1..][k - 1];
    assert Spawn(seeds, elements[j + 1]) == Err(e);
  }

  /** A list seed spawns a list in the order the elements arrived: an
      object-list seed one spawned element per child, failing with the
      first child that fails; a value-list seed exactly its values. */
  lemma SpawnedList(seeds: seq<Seed>, i: nat)
    requires Wf(seeds) && i < |seeds| && !seeds[i].ObjectSeed?
    ensures var s := seeds[i];
            var r := Spawn(seeds, i);
            && (s.ValueListSeed? ==> r == Ok(List(s.values)))
            && (s.ObjectListSeed? ==>
                  && (r.Ok? <==> forall k :: 0 <= k < |s.elements| ==> Spawn(seeds, s.elements[k]).Ok?)
                  && (r.Ok? ==> r.value.List? && |r.value.items| == |s.elements|
                                && forall k :: 0 <= k < |s.elements| ==> r.value.items[k] == Spawn(seeds, s.elements[k]).value)
                  && (r.Err? ==> exists j :: 0 <= j < |s.elements| && Spawn(seeds, s.elements[j]) == r
                                             && forall k :: 0 <= k < j ==> Spawn(seeds, s.elements[k]).Ok?))
  {
    if seeds[i].ObjectListSeed? {
      SpawnElementsMeaning(seeds, i, seeds[i].elements);
    }
  }

  // ---------------------------------------------------------------------
  // Seeds spawn values of their type

  /** The shape of value a seed made for type `t` spawns: an instance of the
      type's class, or a list whose items fit the element type (a primitive
      or string element decoded to that type). */
  predicate Fits(v: Value, t: Type) {
    match t
    case ListOf(e) =>
      v.List? && forall k :: 0 <= k < |v.items| ==>
        if IsPrimitiveOrString(e) then InstanceOf(v.items[k], e) else Fits(v.items[k], e)
    case RawList => false
    case _ => v.Instance? && v.cls == ClassOf(t)
  }

  /** What a seed's kind, descriptor and element type are, without what it
      has accumulated; a sink call never changes it. */
  function Shape(s: Seed): Seed {
    match s
    case ObjectSeed(info, _, _) => ObjectSeed(info, map[], [])
    case ObjectListSeed(elementType, _) => ObjectListSeed(elementType, [])
    case ValueListSeed(elementType, serializer, _) => ValueListSeed(elementType, serializer, [])
  }

  /** Every child of an object-list seed is a seed for its element type, and
      a value-list seed holds values of its primitive or string element type,
      decoded with that type's serializer. */
  predicate SeedTyped(seeds: seq<Seed>, s: Seed) {
    match s
    case ObjectSeed(_, _, _) => true
    case ObjectListSeed(elementType, elements) =>
      forall k :: 0 <= k < |elements| && elements[k] < |seeds| ==> SeedFor(seeds[elements[k]], elementType)
    case ValueListSeed(elementType, serializer, values) =>
      && IsPrimitiveOrString(elementType) && SerializerForBasicType(elementType) == Ok(serializer)
      && forall k :: 0 <= k < |values| ==> InstanceOf(values[k], elementType)
  }

  predicate Typed(seeds: seq<Seed>) {
    forall i :: 0 <= i < |seeds| ==> SeedTyped(seeds, seeds[i])
  }

  /** A sink call keeps the shape of every seed that existed before it. */
  lemma ApplyKeepsShapes(reg: Registry, seeds: seq<Seed>, e: Event)
    requires e.sink < |seeds| && Apply(reg, seeds, e).Ok?
    ensures forall i :: 0 <= i < |seeds| ==> Shape(Apply(reg, seeds, e).value[i]) == Shape(seeds[i])
  {
    var next := Apply(reg, seeds, e).value;
    var h := e.sink;
    if IsCreate(e) {
      var pair := CreateComposite(reg, seeds[h], e.name, e.CreateArray?, |seeds|).value;
      assert next[h] == pair.0;
    } else {
      assert next[h] == StoreSimple(seeds[h], e.name, e.value).value;
    }
  }

  lemma {:induction false} ApplyAllKeepsShapes(reg: Registry, seeds: seq<Seed>, evs: seq<Event>)
    requires Handles(evs, |seeds|) && ApplyAll(reg, seeds, evs).Ok?
    decreases |evs|
    ensures |seeds| <= |ApplyAll(reg, seeds, evs).value|
    ensures forall i :: 0 <= i < |seeds| ==> Shape(ApplyAll(reg, seeds, evs).value[i]) == Shape(seeds[i])
  {
    if |evs| > 0 {
      var next := Apply(reg, seeds, evs[0]).value;
      ApplyKeepsShapes(reg, seeds, evs[0]);
      ApplyAllKeepsShapes(reg, next, evs[1..]);
    }
  }

  /** Seeds that keep their shapes, where only seed `h` changed and seeds
      were added at the end, stay typed if `h` and the new seeds are. */
  lemma TypedAfter(seeds: seq<Seed>, next: seq<Seed>, h: nat)
    requires Wf(seeds) && Typed(seeds) && h < |seeds| <= |next|
    requires forall i :: 0 <= i < |seeds| ==> Shape(next[i]) == Shape(seeds[i])
    requires forall i :: 0 <= i < |seeds| && i != h ==> next[i] == seeds[i]
    requires forall i :: i == h || |seeds| <= i < |next| ==> SeedTyped(next, next[i])
    ensures Typed(next)
  {
    forall i | 0 <= i < |seeds| && i != h && seeds[i].ObjectListSeed?
      ensures SeedTyped(next, next[i])
    {
      var elements := seeds[i].elements;
      assert Between(Children(seeds[i]), i, |seeds|);
      forall k | 0 <= k < |elements|
        ensures SeedFor(next[elements[k]], seeds[i].elementType)
      {
        assert Shape(next[elements[k]]) == Shape(seeds[elements[k]]);
      }
    }
  }

  /** A sink call keeps the seeds typed. */
  lemma ApplyKeepsTyped(reg: Registry, seeds: seq<Seed>, e: Event)
    requires Wf(seeds) && Typed(seeds) && e.sink < |seeds| && Apply(reg, seeds, e).Ok?
    ensures Typed(Apply(reg, seeds, e).value)
  {
    var next := Apply(reg, seeds, e).value;
    var h := e.sink;
    ApplyKeepsShapes(reg, seeds, e);
    if e.SetSimple? {
      SetKeepsTyped(seeds, next, h, e.name, e.value);
    } else {
      CreateKeepsTyped(reg, seeds, h, e.name, e.CreateArray?);
    }
    TypedAfter(seeds, next, h);
  }

  /** After a scalar reaches seed `h`, that seed is still typed. */
  lemma SetKeepsTyped(seeds: seq<Seed>, next: seq<Seed>, h: nat, propertyName: string, value: JsonScalar)
    requires Typed(seeds) && h < |seeds| && StoreSimple(seeds[h], propertyName, value).Ok?
    requires next == seeds[h := StoreSimple(seeds[h], propertyName, value).value]
    ensures SeedTyped(next, next[h])
  {
    var s := seeds[h];
    if s.ValueListSeed? {
      assert SerializerForType(s.elementType) == Some(s.serializer);
      assert next[h].values == s.values + [FromJsonValue(s.serializer, value).value];
    }
  }

  /** After seed `h` gets a child, it and the child are typed. */
  lemma CreateKeepsTyped(reg: Registry, seeds: seq<Seed>, h: nat, propertyName: string, isList: bool)
    requires Wf(seeds) && Typed(seeds) && h < |seeds|
    requires CreateComposite(reg, seeds[h], propertyName, isList, |seeds|).Ok?
    ensures var pair := CreateComposite(reg, seeds[h], propertyName, isList, |seeds|).value;
            var next := seeds[h := pair.0] + [pair.1];
            SeedTyped(next, next[h]) && SeedTyped(next, next[|seeds|])
  {
    var pair := CreateComposite(reg, seeds[h], propertyName, isList, |seeds|).value;
    var next := seeds[h := pair.0] + [pair.1];
    assert next[h] == pair.0 && next[|seeds|] == pair.1;
    if seeds[h].ObjectListSeed? {
      var elements := seeds[h].elements;
      assert pair.0.elements == elements + [|seeds|];
      assert Between(Children(seeds[h]), h, |seeds|);
      forall k | 0 <= k < |elements|
        ensures SeedFor(next[elements[k]], seeds[h].elementType)
      {
        assert next[elements[k]] == seeds[elements[k]];
      }
    }
  }

  lemma {:induction false} ApplyAllKeepsTyped(reg: Registry, seeds: seq<Seed>, evs: seq<Event>)
    requires Wf(seeds) && Typed(seeds) && Handles(evs, |seeds|) && ApplyAll(reg, seeds, evs).Ok?
    decreases |evs|
    ensures Typed(ApplyAll(reg, seeds, evs).value)
  {
    if |evs| > 0 {
      var next := Apply(reg, seeds, evs[0]).value;
      ApplyKeepsWf(reg, seeds, evs[0]);
      ApplyKeepsTyped(reg, seeds, evs[0]);
      ApplyAllKeepsTyped(reg, next, evs[1..]);
    }
  }

  /** What a seed made for type `t` spawns fits `t`. */
  lemma {:induction false} SpawnFits(seeds: seq<Seed>, i: nat, t: Type)
    requires Wf(seeds) && Typed(seeds) && i < |seeds| && SeedFor(seeds[i], t) && Spawn(seeds, i).Ok?
    decreases |seeds| - i
    ensures Fits(Spawn(seeds, i).value, t)
  {
    var v := Spawn(seeds, i).value;
    match seeds[i]
    case ObjectSeed(info, vals, kids) =>
      SpawnedInstance(seeds, i);
    case ObjectListSeed(elementType, elements) =>
      SpawnedList(seeds, i);
      assert Between(Children(seeds[i]), i, |seeds|);
      forall k | 0 <= k < |v.items|
        ensures Fits(v.items[k], elementType)
      {
        SpawnFits(seeds, elements[k], elementType);
      }
    case ValueListSeed(_, _, _) =>
  }

  // ---------------------------------------------------------------------
  // Replaying sink calls

  /** The scalars of a run of `setSimpleProperty` calls, each decoded with
      `serializer`; the first that does not decode is the error. */
  function DecodeAll(serializer: Serializer, evs: seq<Event>): (r: Result<seq<Value>>)
    requires forall k :: 0 <= k < |evs| ==> evs[k].SetSimple?
    ensures r.Ok? <==> forall k :: 0 <= k < |evs| ==> FromJsonValue(serializer, evs[k].value).Ok?
    ensures r.Ok? ==> |r.value| == |evs| && forall k :: 0 <= k < |evs| ==> FromJsonValue(serializer, evs[k].value) == Ok(r.value[k])
  {
    if |evs| == 0 then Ok([])
    else
      assert forall k :: 1 <= k < |evs| ==> evs[1..][k - 1] == evs[k];
      var v :- FromJsonValue(serializer, evs[0].value);
      var rest :- DecodeAll(serializer, evs[1..]);
      Ok([v] + rest)
  }

  /** Scalars reported into a value-list seed are decoded and appended in
      the order they arrive, and no other seed changes. */
  lemma {:induction false} ValuesInOrder(reg: Registry, seeds: seq<Seed>, h: nat, evs: seq<Event>)
    requires h < |seeds| && seeds[h].ValueListSeed?
    requires forall k :: 0 <= k < |evs| ==> evs[k].SetSimple? && evs[k].sink == h
    decreases |evs|
    ensures Handles(evs, |seeds|)
    ensures var r := ApplyAll(reg, seeds, evs);
            var s := seeds[h];
            var decoded := DecodeAll(s.serializer, evs);
            && (r.Ok? <==> decoded.Ok?)
            && (r.Ok? ==> r.value == seeds[h := s.(values := s.values + decoded.value)])
  {
    HandlesOneSink(evs, h, |seeds|);
    var s := seeds[h];
    if |evs| > 0 {
      ValueStep(reg, seeds, h, evs);
      var decodedFirst := FromJsonValue(s.serializer, evs[0].value);
      if decodedFirst.Ok? {
        var next := seeds[h := s.(values := s.values + [decodedFirst.value])];
        ValuesInOrder(reg, next, h, evs[1..]);
        if DecodeAll(s.serializer, evs[1..]).Ok? {
          AppendValues(seeds, h, decodedFirst.value, DecodeAll(s.serializer, evs[1..]).value);
        }
      }
    } else {
      assert s.values + [] == s.values;
    }
  }

  /** Appending one value and then more is appending them all at once. */
  lemma AppendValues(seeds: seq<Seed>, h: nat, v: Value, tail: seq<Value>)
    requires h < |seeds| && seeds[h].ValueListSeed?
    ensures var s := seeds[h];
            var next := seeds[h := s.(values := s.values + [v])];
            next[h := next[h].(values := next[h].values + tail)] == seeds[h := s.(values := s.values + ([v] + tail))]
  {
    var s := seeds[h];
    assert (s.values + [v]) + tail == s.values + ([v] + tail);
  }

  /** The first scalar of such a run: decoded and appended, or the error. */
  lemma ValueStep(reg: Registry, seeds: seq<Seed>, h: nat, evs: seq<Event>)
    requires h < |seeds| && seeds[h].ValueListSeed?
    requires |evs| > 0 && Handles(evs, |seeds|)
    requires forall k :: 0 <= k < |evs| ==> evs[k].SetSimple? && evs[k].sink == h
    ensures var s := seeds[h];
            var decoded := FromJsonValue(s.serializer, evs[0].value);
            && (decoded.Err? ==> ApplyAll(reg, seeds, evs).Err? && DecodeAll(s.serializer, evs).Err?)
            && (decoded.Ok? ==>
                  var next := seeds[h := s.(values := s.values + [decoded.value])];
                  && Handles(evs[1..], |seeds|) && ApplyAll(reg, seeds, evs) == ApplyAll(reg, next, evs[1..])
                  && (DecodeAll(s.serializer, evs).Ok? <==> DecodeAll(s.serializer, evs[1..]).Ok?)
                  && (DecodeAll(s.serializer, evs).Ok? ==>
                        DecodeAll(s.serializer, evs).value == [decoded.value] + DecodeAll(s.serializer, evs[1..]).value))
  {
    ApplyAllStep(reg, seeds, evs);
    assert StoreSimple(seeds[h], evs[0].name, evs[0].value).Ok? <==> FromJsonValue(seeds[h].serializer, evs[0].value).Ok?;
  }

  /** Events that all go to one existing sink and create nothing are
      numbered properly. */
  lemma {:induction false} HandlesOneSink(evs: seq<Event>, h: nat, n: nat)
    requires h < n
    requires forall k :: 0 <= k < |evs| ==> evs[k].SetSimple? && evs[k].sink == h
    decreases |evs|
    ensures Handles(evs, n)
  {
    if |evs| > 0 {
      HandlesOneSink(evs[1..], h, n);
    }
  }

  /** A scalar for a key an object seed has already stored replaces the
      earlier value. */
  lemma LaterValueReplaces(seed: Seed, propertyName: string, first: JsonScalar, second: JsonScalar)
    requires seed.ObjectSeed? && StoreSimple(seed, propertyName, first).Ok?
    ensures var once := StoreSimple(seed, propertyName, first).value;
            var twice := StoreSimple(once, propertyName, second);
            var param := seed.info.jsonNameToParam[propertyName];
            twice.Ok? ==>
              twice.value.valueArguments
              == seed.valueArguments[param := DeserializeConstructorArgument(seed.info, param, second).value]
  {
  }

  /** A structure nested under a key of an object seed is grown for the
      `@DeserializeInterface` class of the property behind that key when it
      has one, and for the constructor parameter's declared type otherwise. */
  lemma ChildTypeFollowsOverride(reg: Registry, seed: Seed, propertyName: string, isList: bool, child: nat)
    requires seed.ObjectSeed?
    requires Describe(seed.info.className, reg(seed.info.className)) == Ok(seed.info)
    requires propertyName in seed.info.jsonNameToParam
    ensures var param := seed.info.jsonNameToParam[propertyName];
            var prop := PropertyOf(reg(seed.info.className).properties, seed.info.parameters, param);
            var t := if prop.Some? && prop.value.deserializeAs.Some? then prop.value.deserializeAs.value else seed.info.parameters[param].ptype;
            var r := CreateComposite(reg, seed, propertyName, isList, child);
            && prop.Some?
            && (r.Ok? <==> SeedForType(reg, t, isList).Ok?)
            && (r.Ok? ==> r.value.1 == SeedForType(reg, t, isList).value)
  {
    OverrideClass(seed.info.className, reg(seed.info.className), propertyName);
  }

  /** A `@DeserializeInterface` class that implements `List` takes the list
      branch of `createSeedForType`: an object value is "An array expected",
      and an array value is unsupported, the class not being a parameterized
      type. */
  lemma ListOverrideRejected(reg: Registry, seed: Seed, propertyName: string, isList: bool, child: nat)
    requires seed.ObjectSeed?
    requires Describe(seed.info.className, reg(seed.info.className)) == Ok(seed.info)
    requires propertyName in seed.info.jsonNameToParam
    requires var prop := PropertyOf(reg(seed.info.className).properties, seed.info.parameters,
                                    seed.info.jsonNameToParam[propertyName]);
             prop.Some? && prop.value.deserializeAs == Some(RawList)
    ensures CreateComposite(reg, seed, propertyName, isList, child)
            == Err(if isList then UnsupportedParameterType else ArrayExpected)
  {
    OverrideClass(seed.info.className, reg(seed.info.className), propertyName);
    assert CompositeType(seed.info, propertyName, seed.info.jsonNameToParam[propertyName]) == RawList;
  }

  // ---------------------------------------------------------------------
  // deserialize

  /** `deserialize` returns an instance of the target class, and fails when
      the target class cannot be described, with that error, before reading
      anything. */
  lemma DeserializeYieldsTarget(reg: Registry, ts: seq<Token>, targetClass: ClassId)
    ensures var r := DeserializeSpec(reg, ts, targetClass);
            && (r.Ok? ==> r.value.Instance? && r.value.cls == targetClass)
            && (Describe(targetClass, reg(targetClass)).Err? ==> r == Err(Describe(targetClass, reg(targetClass)).error))
  {
    var r := DeserializeSpec(reg, ts, targetClass);
    if r.Ok? {
      var root := NewObjectSeed(reg, targetClass).value;
      var seeds := Grow(reg, root, ts).value;
      GrowTyped(reg, root, ts);
      assert SeedFor(root, ClassType(targetClass));
      ApplyAllKeepsShapes(reg, [root], ParseSpec(ts).events);
      assert Shape(seeds[0]) == Shape(root);
      SpawnFits(seeds, 0, ClassType(targetClass));
    }
  }

  /** The seeds a parse grows from a typed root stay typed. */
  lemma GrowTyped(reg: Registry, root: Seed, ts: seq<Token>)
    requires Wf([root]) && Typed([root]) && Grow(reg, root, ts).Ok?
    ensures Typed(Grow(reg, root, ts).value)
  {
    ApplyAllKeepsTyped(reg, [root], ParseSpec(ts).events);
  }

  /** A document that does not start with `{`, the empty one included, is
      rejected with "`{` expected" once the target class is describable. */
  lemma DeserializeNeedsObject(reg: Registry, ts: seq<Token>, targetClass: ClassId)
    requires NewObjectSeed(reg, targetClass).Ok?
    requires |ts| == 0 || ts[0] != LBRACE
    ensures DeserializeSpec(reg, ts, targetClass) == Err(TokenExpected(LBRACE))
  {
    ParserProperties.RootMustBeObject(ts);
  }

  /** `deserialize` on a document: a sink call that fails stops the parse,
      so its error wins over any syntax error later in the document. When
      every call succeeds, a printed document is replayed as exactly its
      own calls in document order and the root's spawn is the result; any
      other token sequence is rejected with the parser's syntax error. */
  lemma DeserializeDocuments(reg: Registry, ts: seq<Token>, targetClass: ClassId)
    requires NewObjectSeed(reg, targetClass).Ok?
    ensures var grown := Grow(reg, NewObjectSeed(reg, targetClass).value, ts);
            var r := DeserializeSpec(reg, ts, targetClass);
            && (grown.Err? ==> r == Err(grown.error))
            && (forall ms :: ts == Tokens(Object(ms)) ==>
                  && ParseSpec(ts).events == MembersEvents(ms, 0, 1)
                  && (grown.Ok? ==> r == Spawn(grown.value, 0)))
            && (grown.Ok? && !(exists ms :: ts == Tokens(Object(ms))) ==>
                  ParseSpec(ts).outcome.Fail? && r == Err(ParseSpec(ts).outcome.error))
  {
    ParserDocuments.ParseMeaning(ts);
  }
}
