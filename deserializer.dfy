/** Deserializer.kt: the seeds, the `JsonObject` sinks that accumulate what
    the parser reports and later spawn the finished value, the type-driven
    choice of seed, and `deserialize` as the composition of descriptor cache,
    parser and seeds.

    Seeds live in an arena: a seed is a value in the sequence `seeds` of a
    `SeedForest`, a sink handle is its index (the root being 0), and a seed
    names its child seeds by index. A child is always created after its
    parent, so children have larger indices and `spawn` recurses towards the
    end of the arena. */
module Deserializer {
  import opened Values
  import opened ValueSerializers
  import opened ClassInfoCache
  import opened Parser

  // ---------------------------------------------------------------------
  // Seeds

  /** One entry of `seedArguments` (a `LinkedHashMap`): a constructor
      parameter and the index of the child seed recorded for it. */
  datatype Entry = Entry(param: nat, seed: nat)

  /** The three kinds of seed, with their accumulated state. */
  datatype Seed =
    | ObjectSeed(info: ClassInfo, valueArguments: map<nat, Value>, seedArguments: seq<Entry>)
    | ObjectListSeed(elementType: Type, elements: seq<nat>)
    | ValueListSeed(elementType: Type, serializer: Serializer, values: seq<Value>)

  /** The child seeds a seed has recorded. */
  function Children(s: Seed): seq<nat> {
    match s
    case ObjectSeed(_, _, kids) => EntrySeeds(kids)
    case ObjectListSeed(_, elements) => elements
    case ValueListSeed(_, _, _) => []
  }

  function EntrySeeds(kids: seq<Entry>): (r: seq<nat>)
    ensures |r| == |kids| && forall k :: 0 <= k < |kids| ==> r[k] == kids[k].seed
  {
    if |kids| == 0 then [] else [kids[0].seed] + EntrySeeds(kids[1..])
  }

  predicate Between(cs: seq<nat>, lo: nat, hi: nat) {
    forall k :: 0 <= k < |cs| ==> lo < cs[k] < hi
  }

  /** Every seed's children come after it in the arena. */
  predicate Wf(seeds: seq<Seed>) {
    forall i :: 0 <= i < |seeds| ==> Between(Children(seeds[i]), i, |seeds|) && SeedWf(seeds[i])
  }

  /** An object seed records each parameter at most once. */
  predicate SeedWf(s: Seed) {
    s.ObjectSeed? ==> DistinctParams(s.seedArguments)
  }

  /** Keys of a linked hash map are distinct. */
  predicate DistinctParams(kids: seq<Entry>) {
    forall j, k :: 0 <= j < k < |kids| ==> kids[j].param != kids[k].param
  }

  /** `seedArguments[param] = seed` on a linked hash map: an existing key
      keeps its place and gets the new seed, a new key goes last. */
  function Put(kids: seq<Entry>, param: nat, seed: nat): (r: seq<Entry>)
    ensures Entry(param, seed) in r
    ensures forall k :: 0 <= k < |r| ==> r[k] == Entry(param, seed) || r[k] in kids
    ensures forall e :: e in kids && e.param != param ==> e in r
  {
    if |kids| == 0 then [Entry(param, seed)]
    else if kids[0].param == param then
      assert forall e :: e in kids && e.param != param ==> e in kids[1..];
      [Entry(param, seed)] + kids[1..]
    else [kids[0]] + Put(kids[1..], param, seed)
  }

  /** `Put` keeps the keys distinct. */
  lemma {:induction false} PutDistinct(kids: seq<Entry>, param: nat, seed: nat)
    requires DistinctParams(kids)
    ensures DistinctParams(Put(kids, param, seed))
  {
    if |kids| > 0 && kids[0].param != param {
      PutDistinct(kids[1..], param, seed);
      var rest := Put(kids[1..], param, seed);
      forall k | 0 <= k < |rest|
        ensures rest[k].param != kids[0].param
      {
        if rest[k] != Entry(param, seed) {
          var j :| 0 <= j < |kids[1..]| && kids[1..][j] == rest[k];
          assert kids[j + 1] == rest[k];
        }
      }
    }
  }

  // ---------------------------------------------------------------------
  // Type-driven dispatch

  /** `seed` is the kind of seed `createSeedForType` makes for type `t`. */
  predicate SeedFor(seed: Seed, t: Type) {
    match t
    case ListOf(e) =>
      if IsPrimitiveOrString(e) then seed.ValueListSeed? && seed.elementType == e
      else seed.ObjectListSeed? && seed.elementType == e
    case RawList => false
    case _ => seed.ObjectSeed? && seed.info.className == ClassOf(t)
  }

  /** A seed that has accumulated nothing yet. */
  predicate Fresh(seed: Seed) {
    match seed
    case ObjectSeed(_, vals, kids) => vals == map[] && kids == []
    case ObjectListSeed(_, elements) => elements == []
    case ValueListSeed(_, _, values) => values == []
  }

  /** `ObjectSeed(targetClass, classInfoCache)`: its descriptor comes from the
      cache, which fails for a class that cannot be described. */
  function NewObjectSeed(reg: Registry, cls: ClassId): (r: Result<Seed>)
    ensures r.Err? <==> Describe(cls, reg(cls)).Err?
    ensures r.Err? ==> r.error == Describe(cls, reg(cls)).error
    ensures r.Ok? ==> r.value.ObjectSeed? && r.value.info == Describe(cls, reg(cls)).value && Fresh(r.value)
  {
    var info :- Describe(cls, reg(cls));
    Ok(ObjectSeed(info, map[], []))
  }

  /** `createSeedForType`: a list-like type needs an array, and a raw list
      type is unsupported; a list of primitives or strings gets a value-list
      seed, any other list an object-list seed; any other type must not meet
      an array and gets an object seed for its class. */
  function SeedForType(reg: Registry, paramType: Type, isList: bool): (r: Result<Seed>)
    ensures IsListLike(paramType) && !isList ==> r == Err(ArrayExpected)
    ensures !IsListLike(paramType) && isList ==> r == Err(ObjectExpectedNotArray(paramType))
    ensures paramType.RawList? && isList ==> r == Err(UnsupportedParameterType)
    ensures paramType.ListOf? && isList ==> (r.Ok? <==> !IsChar(paramType.element))
    ensures paramType.ListOf? && isList && IsChar(paramType.element) ==> r == Err(NullPointer)
    ensures !IsListLike(paramType) && !isList ==> r == NewObjectSeed(reg, ClassOf(paramType))
    ensures r.Ok? ==> SeedFor(r.value, paramType) && Fresh(r.value)
    ensures r.Ok? && r.value.ValueListSeed? ==> SerializerForBasicType(r.value.elementType) == Ok(r.value.serializer)
  {
    if IsListLike(paramType) then
      if !isList then Err(ArrayExpected)
      else if !paramType.ListOf? then Err(UnsupportedParameterType)
      else
        var elementType := paramType.element;
        if IsPrimitiveOrString(elementType) then
          var serializer :- SerializerForBasicType(elementType);
          Ok(ValueListSeed(elementType, serializer, []))
        else Ok(ObjectListSeed(elementType, []))
    else if isList then Err(ObjectExpectedNotArray(paramType))
    else NewObjectSeed(reg, ClassOf(paramType))
  }

  // ---------------------------------------------------------------------
  // The sink calls, on one seed

  /** `setSimpleProperty`. An object seed resolves the key to a constructor
      parameter, converts the value for it and stores it there, replacing an
      earlier value; an object-list seed rejects a scalar; a value-list seed
      decodes it with its element serializer and appends it. */
  function StoreSimple(seed: Seed, propertyName: string, value: JsonScalar): (r: Result<Seed>)
    ensures seed.ObjectSeed? ==>
              (r.Ok? <==> GetConstructorParameter(seed.info, propertyName).Ok?
                          && DeserializeConstructorArgument(seed.info, seed.info.jsonNameToParam[propertyName], value).Ok?)
    ensures seed.ObjectSeed? && r.Ok? ==>
              var param := seed.info.jsonNameToParam[propertyName];
              r.value == seed.(valueArguments := seed.valueArguments[param := DeserializeConstructorArgument(seed.info, param, value).value])
    ensures seed.ObjectListSeed? ==> r == Err(PrimitiveInObjectCollection)
    ensures seed.ValueListSeed? ==>
              (r.Ok? <==> FromJsonValue(seed.serializer, value).Ok?)
              && (r.Err? ==> r.error == FromJsonValue(seed.serializer, value).error)
              && (r.Ok? ==> r.value == seed.(values := seed.values + [FromJsonValue(seed.serializer, value).value]))
    ensures r.Ok? ==> Children(r.value) == Children(seed)
  {
    match seed
    case ObjectSeed(info, vals, kids) =>
      var param :- GetConstructorParameter(info, propertyName);
      var arg :- DeserializeConstructorArgument(info, param, value);
      Ok(ObjectSeed(info, vals[param := arg], kids))
    case ObjectListSeed(_, _) =>
      Err(PrimitiveInObjectCollection)
    case ValueListSeed(elementType, serializer, values) =>
      var v :- FromJsonValue(serializer, value);
      Ok(ValueListSeed(elementType, serializer, values + [v]))
  }

  /** The type an object seed makes a child seed for: the
      `@DeserializeInterface` class recorded for the key, else the
      parameter's declared type. */
  function CompositeType(info: ClassInfo, propertyName: string, param: nat): Type
    requires param < |info.parameters|
  {
    match GetDeserializeClass(info, propertyName)
    case Some(cls) => cls
    case None => info.parameters[param].ptype
  }

  /** `createCompositeProperty`, for a new child that will get index
      `child`: the parent as updated, and the child. An object seed records
      the child under the key's parameter; an object-list seed appends it;
      a value-list seed rejects a composite value. */
  function CreateComposite(reg: Registry, seed: Seed, propertyName: string, isList: bool, child: nat): (r: Result<(Seed, Seed)>)
    ensures seed.ObjectSeed? ==>
              (r.Ok? <==> GetConstructorParameter(seed.info, propertyName).Ok?
                          && SeedForType(reg, CompositeType(seed.info, propertyName, seed.info.jsonNameToParam[propertyName]), isList).Ok?)
    ensures seed.ObjectSeed? && r.Ok? ==>
              var param := seed.info.jsonNameToParam[propertyName];
              && r.value.1 == SeedForType(reg, CompositeType(seed.info, propertyName, param), isList).value
              && r.value.0 == seed.(seedArguments := Put(seed.seedArguments, param, child))
    ensures seed.ObjectSeed? && r.Err? ==>
              r.error == if propertyName in seed.info.jsonNameToParam
                         then SeedForType(reg, CompositeType(seed.info, propertyName, seed.info.jsonNameToParam[propertyName]), isList).error
                         else ParameterNotFound(propertyName, seed.info.className)
    ensures seed.ObjectListSeed? ==>
              (r.Ok? <==> SeedForType(reg, seed.elementType, isList).Ok?)
              && (r.Ok? ==> r.value == (seed.(elements := seed.elements + [child]), SeedForType(reg, seed.elementType, isList).value))
    ensures seed.ObjectListSeed? && r.Err? ==> r.error == SeedForType(reg, seed.elementType, isList).error
    ensures seed.ValueListSeed? ==> r == Err(ObjectInPrimitiveCollection)
  {
    match seed
    case ObjectSeed(info, vals, kids) =>
      var param :- GetConstructorParameter(info, propertyName);
      var childSeed :- SeedForType(reg, CompositeType(info, propertyName, param), isList);
      Ok((ObjectSeed(info, vals, Put(kids, param, child)), childSeed))
    case ObjectListSeed(elementType, elements) =>
      var childSeed :- SeedForType(reg, elementType, isList);
      Ok((ObjectListSeed(elementType, elements + [child]), childSeed))
    case ValueListSeed(_, _, _) =>
      Err(ObjectInPrimitiveCollection)
  }

  // ---------------------------------------------------------------------
  // The sink calls, on the arena

  /** One sink call on the arena: a create adds the child at the end. */
  function Apply(reg: Registry, seeds: seq<Seed>, e: Event): (r: Result<seq<Seed>>)
    requires e.sink < |seeds|
    ensures r.Ok? ==> |r.value| == |seeds| + (if IsCreate(e) then 1 else 0)
    ensures r.Ok? ==> forall i :: 0 <= i < |seeds| && i != e.sink ==> r.value[i] == seeds[i]
  {
    match e
    case SetSimple(h, name, value) =>
      var s :- StoreSimple(seeds[h], name, value);
      Ok(seeds[h := s])
    case CreateObject(h, name) =>
      var pair :- CreateComposite(reg, seeds[h], name, false, |seeds|);
      Ok(seeds[h := pair.0] + [pair.1])
    case CreateArray(h, name) =>
      var pair :- CreateComposite(reg, seeds[h], name, true, |seeds|);
      Ok(seeds[h := pair.0] + [pair.1])
  }

  /** The sink calls, in order; the first one that fails is the error. */
  function ApplyAll(reg: Registry, seeds: seq<Seed>, evs: seq<Event>): (r: Result<seq<Seed>>)
    requires Handles(evs, |seeds|)
    decreases |evs|
    ensures r.Ok? ==> |r.value| == |seeds| + Creates(evs)
  {
    if |evs| == 0 then Ok(seeds)
    else
      var next :- Apply(reg, seeds, evs[0]);
      ApplyAll(reg, next, evs[1..])
  }

  /** A child recorded by `Put` is the new one or one recorded before. */
  lemma PutBetween(kids: seq<Entry>, param: nat, seed: nat, lo: nat, hi: nat)
    requires forall k :: 0 <= k < |kids| ==> lo < kids[k].seed < hi
    requires lo < seed < hi
    ensures forall k :: 0 <= k < |Put(kids, param, seed)| ==> lo < Put(kids, param, seed)[k].seed < hi
  {
    var r := Put(kids, param, seed);
    forall k | 0 <= k < |r|
      ensures lo < r[k].seed < hi
    {
      if r[k] != Entry(param, seed) {
        var j :| 0 <= j < |kids| && kids[j] == r[k];
      }
    }
  }

  /** Creating a child keeps every child after its parent. */
  lemma CreateKeepsWf(reg: Registry, seeds: seq<Seed>, h: nat, propertyName: string, isList: bool)
    requires Wf(seeds) && h < |seeds|
    requires CreateComposite(reg, seeds[h], propertyName, isList, |seeds|).Ok?
    ensures var pair := CreateComposite(reg, seeds[h], propertyName, isList, |seeds|).value;
            Wf(seeds[h := pair.0] + [pair.1])
  {
    var pair := CreateComposite(reg, seeds[h], propertyName, isList, |seeds|).value;
    var next := seeds[h := pair.0] + [pair.1];
    assert Between(Children(pair.0), h, |next|) && SeedWf(pair.0) by {
      match seeds[h]
      case ObjectSeed(info, vals, kids) =>
        var param := info.jsonNameToParam[propertyName];
        assert forall k :: 0 <= k < |kids| ==> kids[k].seed == Children(seeds[h])[k];
        PutBetween(kids, param, |seeds|, h, |next|);
        PutDistinct(kids, param, |seeds|);
      case ObjectListSeed(_, elements) =>
        assert Children(pair.0) == elements + [|seeds|];
      case ValueListSeed(_, _, _) =>
    }
    forall i | 0 <= i < |next|
      ensures Between(Children(next[i]), i, |next|) && SeedWf(next[i])
    {
      if i < |seeds| && i != h {
        assert next[i] == seeds[i];
      }
    }
  }

  /** A sink call keeps every child after its parent. */
  lemma ApplyKeepsWf(reg: Registry, seeds: seq<Seed>, e: Event)
    requires Wf(seeds) && e.sink < |seeds| && Apply(reg, seeds, e).Ok?
    ensures Wf(Apply(reg, seeds, e).value)
  {
    var next := Apply(reg, seeds, e).value;
    if IsCreate(e) {
      CreateKeepsWf(reg, seeds, e.sink, e.name, e.CreateArray?);
    } else {
      forall i | 0 <= i < |next|
        ensures Between(Children(next[i]), i, |next|) && SeedWf(next[i])
      {
        assert Children(next[i]) == Children(seeds[i]);
      }
    }
  }

  /** Replaying sink calls keeps every child after its parent. */
  lemma {:induction false} ApplyAllKeepsWf(reg: Registry, seeds: seq<Seed>, evs: seq<Event>)
    requires Wf(seeds) && Handles(evs, |seeds|) && ApplyAll(reg, seeds, evs).Ok?
    decreases |evs|
    ensures Wf(ApplyAll(reg, seeds, evs).value)
  {
    if |evs| > 0 {
      ApplyKeepsWf(reg, seeds, evs[0]);
      ApplyAllKeepsWf(reg, Apply(reg, seeds, evs[0]).value, evs[1..]);
    }
  }

  /** The first sink call of a replay, and the rest. */
  lemma ApplyAllStep(reg: Registry, seeds: seq<Seed>, evs: seq<Event>)
    requires |evs| > 0 && Handles(evs, |seeds|)
    ensures evs[0].sink < |seeds|
    ensures var first := Apply(reg, seeds, evs[0]);
            if first.Ok? then Handles(evs[1..], |first.value|) && ApplyAll(reg, seeds, evs) == ApplyAll(reg, first.value, evs[1..])
            else ApplyAll(reg, seeds, evs) == Err(first.error)
  {
  }

  /** A replay that succeeds extends by one successful call in front. */
  lemma ApplyAllCons(reg: Registry, a: seq<Seed>, b: seq<Seed>, c: seq<Seed>, evs: seq<Event>)
    requires |evs| > 0 && evs[0].sink < |a| && Apply(reg, a, evs[0]) == Ok(b)
    requires Handles(evs[1..], |b|) && ApplyAll(reg, b, evs[1..]) == Ok(c)
    ensures Handles(evs, |a|) && ApplyAll(reg, a, evs) == Ok(c)
  {
    ApplyAllStep(reg, a, evs);
  }

  // ---------------------------------------------------------------------
  // Spawning

  /** `spawn`. An object seed spawns its recorded children (in the order
      their keys were first recorded), lets them take precedence over the
      simple values and creates the instance; an object-list seed spawns its
      elements in order; a value-list seed returns its values. */
  function Spawn(seeds: seq<Seed>, i: nat): Result<Value>
    requires Wf(seeds) && i < |seeds|
    decreases |seeds| - i, 1
  {
    match seeds[i]
    case ObjectSeed(info, vals, kids) =>
      assert forall k :: 0 <= k < |kids| ==> kids[k].seed == Children(seeds[i])[k];
      var spawned :- SpawnArguments(seeds, i, kids);
      Instantiate(info, vals + spawned)
    case ObjectListSeed(_, elements) =>
      var items :- SpawnElements(seeds, i, elements);
      Ok(List(items))
    case ValueListSeed(_, _, values) =>
      Ok(List(values))
  }

  /** `seedArguments.mapValues { it.value.spawn() }` */
  function SpawnArguments(seeds: seq<Seed>, i: nat, kids: seq<Entry>): Result<map<nat, Value>>
    requires Wf(seeds) && i < |seeds|
    requires forall k :: 0 <= k < |kids| ==> i < kids[k].seed < |seeds|
    decreases |seeds| - i, 0, |kids|
  {
    if |kids| == 0 then Ok(map[])
    else
      var v :- Spawn(seeds, kids[0].seed);
      var rest :- SpawnArguments(seeds, i, kids[1..]);
      Ok(rest[kids[0].param := v])
  }

  /** `elements.map { it.spawn() }` */
  function SpawnElements(seeds: seq<Seed>, i: nat, elements: seq<nat>): Result<seq<Value>>
    requires Wf(seeds) && i < |seeds| && Between(elements, i, |seeds|)
    decreases |seeds| - i, 0, |elements|
  {
    if |elements| == 0 then Ok([])
    else
      var v :- Spawn(seeds, elements[0]);
      var rest :- SpawnElements(seeds, i, elements[1..]);
      Ok([v] + rest)
  }

  // ---------------------------------------------------------------------
  // deserialize

  /** The seeds after the sink calls a parse of `ts` makes on `root`, up to
      the first call that fails. */
  function Grow(reg: Registry, root: Seed, ts: seq<Token>): (r: Result<seq<Seed>>)
    requires Wf([root])
    ensures r.Ok? ==> Wf(r.value) && |r.value| == 1 + Creates(ParseSpec(ts).events)
  {
    var seeds :- ApplyAll(reg, [root], ParseSpec(ts).events);
    ApplyAllKeepsWf(reg, [root], ParseSpec(ts).events);
    Ok(seeds)
  }

  /** `deserialize(json, targetClass)`: the root object seed (its
      descriptor is looked up first), the parse reporting to it, and the
      root's spawn. A failing sink call stops the parse, so it is reported
      before any parse error that would have come later. */
  function DeserializeSpec(reg: Registry, ts: seq<Token>, targetClass: ClassId): Result<Value> {
    var root :- NewObjectSeed(reg, targetClass);
    var seeds :- Grow(reg, root, ts);
    var s := ParseSpec(ts);
    if s.outcome.Fail? then Err(s.outcome.error) else Spawn(seeds, 0)
  }

  // ---------------------------------------------------------------------
  // The seeds as sinks

  /** The seeds of one deserialization, sharing one descriptor cache; a
      sink handle is an index into `seeds`. */
  class SeedForest {
    const classInfoCache: ClassInfoCache
    var seeds: seq<Seed>

    ghost predicate Valid()
      reads this, classInfoCache
    {
      Wf(seeds) && classInfoCache.Valid()
    }

    constructor (classInfoCache: ClassInfoCache)
      requires classInfoCache.Valid()
      ensures Valid() && this.classInfoCache == classInfoCache && seeds == []
    {
      this.classInfoCache := classInfoCache;
      seeds := [];
    }

    /** `ObjectSeed(targetClass, classInfoCache)`, not yet in the forest. */
    method MakeObjectSeed(targetClass: ClassId) returns (r: Result<Seed>)
      requires Valid()
      modifies classInfoCache
      ensures Valid()
      ensures r == NewObjectSeed(classInfoCache.registry, targetClass)
    {
      var info := classInfoCache.Get(targetClass);
      if info.Err? {
        return Err(info.error);
      }
      r := Ok(ObjectSeed(info.value, map[], []));
    }

    /** The root object seed of `deserialize`, as sink 0. */
    method PlantRoot(targetClass: ClassId) returns (r: Outcome)
      requires Valid() && seeds == []
      modifies this, classInfoCache
      ensures Valid()
      ensures var root := NewObjectSeed(classInfoCache.registry, targetClass);
              if root.Ok? then r == Pass && seeds == [root.value] else r == Fail(root.error) && seeds == []
    {
      var root := MakeObjectSeed(targetClass);
      if root.Err? {
        return Fail(root.error);
      }
      seeds := [root.value];
      r := Pass;
    }

    /** `createSeedForType`, not yet in the forest. */
    method CreateSeedForType(paramType: Type, isList: bool) returns (r: Result<Seed>)
      requires Valid()
      modifies classInfoCache
      ensures Valid()
      ensures r == SeedForType(classInfoCache.registry, paramType, isList)
    {
      if IsListLike(paramType) {
        if !isList {
          return Err(ArrayExpected);
        }
        if !paramType.ListOf? {
          return Err(UnsupportedParameterType);
        }
        var elementType := paramType.element;
        if IsPrimitiveOrString(elementType) {
          var serializer := SerializerForBasicType(elementType);
          if serializer.Err? {
            return Err(serializer.error);
          }
          return Ok(ValueListSeed(elementType, serializer.value, []));
        }
        return Ok(ObjectListSeed(elementType, []));
      }
      if isList {
        return Err(ObjectExpectedNotArray(paramType));
      }
      r := MakeObjectSeed(ClassOf(paramType));
    }

    /** `setSimpleProperty` on seed `h`. */
    method SetSimpleProperty(h: nat, propertyName: string, value: JsonScalar) returns (r: Outcome)
      requires Valid() && h < |seeds|
      modifies this
      ensures Valid()
      ensures Apply(classInfoCache.registry, old(seeds), SetSimple(h, propertyName, value)) == if r.Pass? then Ok(seeds) else Err(r.error)
      ensures r.Fail? ==> seeds == old(seeds)
    {
      match seeds[h]
      case ObjectSeed(info, vals, kids) =>
        var param := GetConstructorParameter(info, propertyName);
        if param.Err? {
          return Fail(param.error);
        }
        var arg := DeserializeConstructorArgument(info, param.value, value);
        if arg.Err? {
          return Fail(arg.error);
        }
        seeds := seeds[h := ObjectSeed(info, vals[param.value := arg.value], kids)];
        r := Pass;
      case ObjectListSeed(_, _) =>
        r := Fail(PrimitiveInObjectCollection);
      case ValueListSeed(elementType, serializer, values) =>
        var v := FromJsonValue(serializer, value);
        if v.Err? {
          return Fail(v.error);
        }
        seeds := seeds[h := ValueListSeed(elementType, serializer, values + [v.value])];
        r := Pass;
    }

    /** `createCompositeProperty` on seed `h`: the handle of the new child. */
    method CreateCompositeProperty(h: nat, propertyName: string, isList: bool) returns (r: Result<nat>)
      requires Valid() && h < |seeds|
      modifies this, classInfoCache
      ensures Valid()
      ensures var c := CreateComposite(classInfoCache.registry, old(seeds)[h], propertyName, isList, |old(seeds)|);
              if c.Ok? then r == Ok(|old(seeds)|) && seeds == old(seeds)[h := c.value.0] + [c.value.1]
              else r == Err(c.error) && seeds == old(seeds)
    {
      match seeds[h]
      case ObjectSeed(info, vals, kids) =>
        var param := GetConstructorParameter(info, propertyName);
        if param.Err? {
          return Err(param.error);
        }
        var deserializeAs := GetDeserializeClass(info, propertyName);
        var paramType: Type := if deserializeAs.Some? then deserializeAs.value else info.parameters[param.value].ptype;
        var seed := CreateSeedForType(paramType, isList);
        if seed.Err? {
          return Err(seed.error);
        }
        CreateKeepsWf(classInfoCache.registry, seeds, h, propertyName, isList);
        r := Ok(|seeds|);
        seeds := seeds[h := ObjectSeed(info, vals, Put(kids, param.value, |seeds|))] + [seed.value];
      case ObjectListSeed(elementType, elements) =>
        var seed := CreateSeedForType(elementType, isList);
        if seed.Err? {
          return Err(seed.error);
        }
        CreateKeepsWf(classInfoCache.registry, seeds, h, propertyName, isList);
        r := Ok(|seeds|);
        seeds := seeds[h := ObjectListSeed(elementType, elements + [|seeds|])] + [seed.value];
      case ValueListSeed(_, _, _) =>
        r := Err(ObjectInPrimitiveCollection);
    }

    /** A call through the `JsonObject` interface; `createObject` and
        `createArray` are `createCompositeProperty` without and with a list. */
    method Dispatch(e: Event) returns (r: Outcome)
      requires Valid() && e.sink < |seeds|
      modifies this, classInfoCache
      ensures Valid()
      ensures Apply(classInfoCache.registry, old(seeds), e) == if r.Pass? then Ok(seeds) else Err(r.error)
    {
      match e
      case SetSimple(h, name, value) =>
        r := SetSimpleProperty(h, name, value);
      case CreateObject(h, name) =>
        var child := CreateCompositeProperty(h, name, false);
        r := if child.Ok? then Pass else Fail(child.error);
      case CreateArray(h, name) =>
        var child := CreateCompositeProperty(h, name, true);
        r := if child.Ok? then Pass else Fail(child.error);
    }

    /** The calls a parse made, in order, up to the first that fails. */
    method Replay(events: seq<Event>) returns (r: Outcome)
      requires Valid() && Handles(events, |seeds|)
      modifies this, classInfoCache
      ensures Valid()
      ensures ApplyAll(classInfoCache.registry, old(seeds), events) == if r.Pass? then Ok(seeds) else Err(r.error)
    {
      var i := 0;
      while i < |events|
        invariant Valid() && i <= |events| && Handles(events[i..], |seeds|)
        invariant ApplyAll(classInfoCache.registry, old(seeds), events)
                  == ApplyAll(classInfoCache.registry, seeds, events[i..])
      {
        ApplyAllStep(classInfoCache.registry, seeds, events[i..]);
        r := Dispatch(events[i]);
        if r.Fail? {
          return;
        }
        assert events[i..][1..] == events[i + 1..];
        i := i + 1;
      }
      r := Pass;
    }
  }

  /** `deserialize(json, targetClass)` with a fresh descriptor cache. */
  method Deserialize(tokens: seq<Token>, targetClass: ClassId, registry: Registry) returns (r: Result<Value>)
    ensures r == DeserializeSpec(registry, tokens, targetClass)
  {
    var cache := new ClassInfoCache(registry);
    var seed := new SeedForest(cache);
    var root := seed.PlantRoot(targetClass);
    if root.Fail? {
      return Err(root.error);
    }
    var sink := new EventSink();
    var parser := new Parser(tokens, sink);
    var parsed := parser.Parse();
    assert sink.events == ParseSpec(tokens).events;
    var replayed := seed.Replay(sink.events);
    if replayed.Fail? {
      return Err(replayed.error);
    }
    if parsed.Fail? {
      return Err(parsed.error);
    }
    r := Spawn(seed.seeds, 0);
  }
}
