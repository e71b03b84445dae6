/** ClassInfoCache.kt: the per-class descriptor that ties constructor
    parameters to JSON keys, override classes and serializers, its checks on
    arguments, and the memo table that builds each descriptor once.

    Reflection is replaced by an explicit class declaration: the primary
    constructor's parameters and the declared member properties with their
    annotations. */
module ClassInfoCache {
  import opened Values
  import opened ValueSerializers

  /** A constructor parameter (`KParameter`). */
  datatype ParamDecl = ParamDecl(name: Option<string>, ptype: Type, nullable: bool, optional: bool)

  /** A declared member property and its annotations: `@JsonName`,
      `@DeserializeInterface`, `@CustomSerializer` and `@DateFormat`. */
  datatype PropertyDecl = PropertyDecl(
    name: string,
    jsonName: Option<string>,
    deserializeAs: Option<ClassObject>,
    customSerializer: Option<string>,
    dateFormat: Option<string>)

  /** What reflection reports about a class. */
  datatype ClassDecl = ClassDecl(primaryConstructor: Option<seq<ParamDecl>>, properties: seq<PropertyDecl>)

  /** The classes of the program being deserialized into. */
  type Registry = ClassId -> ClassDecl

  /** `ClassInfo`: a parameter is identified by its index in the constructor. */
  datatype ClassInfoData = ClassInfo(
    className: ClassId,
    parameters: seq<ParamDecl>,
    jsonNameToParam: map<string, nat>,
    paramToSerializer: map<nat, Serializer>,
    jsonNameToDeserializeClass: map<string, Option<ClassObject>>)
  {
    ghost predicate WellFormed() {
      forall key :: key in jsonNameToParam ==> jsonNameToParam[key] < |parameters|
    }
  }

  type ClassInfo = c: ClassInfoData | c.WellFormed() witness ClassInfo("", [], map[], map[], map[])

  // ---------------------------------------------------------------------
  // Building a descriptor

  /** `cls.declaredMemberProperties.find { it.name == paramName }`: the first
      property with that name. */
  function FindProperty(props: seq<PropertyDecl>, name: string): (r: Option<PropertyDecl>)
    ensures r.None? <==> forall k :: 0 <= k < |props| ==> props[k].name != name
    ensures r.Some? ==> exists k :: 0 <= k < |props| && props[k] == r.value && r.value.name == name
  {
    if |props| == 0 then None
    else if props[0].name == name then Some(props[0])
    else FindProperty(props[1..], name)
  }

  /** The JSON key of a parameter with a backing property: its `@JsonName`,
      else its own name. */
  function KeyOf(p: ParamDecl, prop: PropertyDecl): string
    requires p.name.Some?
  {
    prop.jsonName.GetOr(p.name.value)
  }

  /** The key under which parameter `i` can be reached, if any. */
  function ParamKey(props: seq<PropertyDecl>, params: seq<ParamDecl>, i: nat): Option<string>
    requires i < |params| && params[i].name.Some?
  {
    match FindProperty(props, params[i].name.value)
    case None => None
    case Some(prop) => Some(KeyOf(params[i], prop))
  }

  /** Serializer preference: a custom serializer, then a date format, then
      the default serializer of the parameter's type. */
  function PreferredSerializer(p: ParamDecl, prop: PropertyDecl): Option<Serializer> {
    if prop.customSerializer.Some? then Some(Foreign(CustomSerializer(prop.customSerializer.value)))
    else if prop.dateFormat.Some? then Some(Foreign(DateSerializer(prop.dateFormat.value)))
    else SerializerForType(p.ptype)
  }

  /** The three hash maps that `ClassInfo`'s initializer fills. */
  datatype Tables = Tables(names: map<string, nat>, serializers: map<nat, Serializer>, deserializeAs: map<string, Option<ClassObject>>)

  predicate AllNamed(params: seq<ParamDecl>, n: nat)
    requires n <= |params|
  {
    forall j :: 0 <= j < n ==> params[j].name.Some?
  }

  /** The effect of `cacheDataForParameter` on the tables, for a named
      parameter `i`. */
  function CacheDataForParameter(props: seq<PropertyDecl>, params: seq<ParamDecl>, i: nat, t: Tables): Tables
    requires i < |params| && params[i].name.Some?
  {
    match FindProperty(props, params[i].name.value)
    case None => t
    case Some(prop) =>
      var key := KeyOf(params[i], prop);
      var names := t.names[key := i];
      var deserializeAs := t.deserializeAs[key := prop.deserializeAs];
      match PreferredSerializer(params[i], prop)
      case None => Tables(names, t.serializers, deserializeAs)
      case Some(s) => Tables(names, t.serializers[i := s], deserializeAs)
  }

  /** The tables after the first `n` parameters. */
  function CacheParameters(props: seq<PropertyDecl>, params: seq<ParamDecl>, n: nat): (t: Tables)
    requires n <= |params| && AllNamed(params, n)
    ensures forall key :: key in t.names ==> t.names[key] < n
  {
    if n == 0 then Tables(map[], map[], map[])
    else CacheDataForParameter(props, params, n - 1, CacheParameters(props, params, n - 1))
  }

  /** The descriptor `ClassInfo(cls)` builds, or the error it throws: a class
      without a primary constructor, or a parameter without a name. */
  function Describe(cls: ClassId, decl: ClassDecl): (r: Result<ClassInfo>)
    ensures decl.primaryConstructor.None? ==> r == Err(NoPrimaryConstructor(cls))
    ensures decl.primaryConstructor.Some? ==>
              (r.Err? <==> exists i :: 0 <= i < |decl.primaryConstructor.value| && decl.primaryConstructor.value[i].name.None?)
    ensures decl.primaryConstructor.Some? && r.Err? ==> r.error == ParameterWithoutName(cls)
    ensures r.Ok? ==> r.value.className == cls && r.value.parameters == decl.primaryConstructor.value
  {
    match decl.primaryConstructor
    case None => Err(NoPrimaryConstructor(cls))
    case Some(params) =>
      if exists i :: 0 <= i < |params| && params[i].name.None? then Err(ParameterWithoutName(cls))
      else
        var t := CacheParameters(decl.properties, params, |params|);
        Ok(ClassInfo(cls, params, t.names, t.serializers, t.deserializeAs))
  }

  /** The `ClassInfo` initializer: one pass over the constructor parameters
      filling the three maps. */
  method BuildClassInfo(cls: ClassId, decl: ClassDecl) returns (r: Result<ClassInfo>)
    ensures r == Describe(cls, decl)
  {
    if decl.primaryConstructor.None? {
      return Err(NoPrimaryConstructor(cls));
    }
    var params := decl.primaryConstructor.value;
    var jsonNameToParamMap: map<string, nat> := map[];
    var paramToSerializerMap: map<nat, Serializer> := map[];
    var jsonNameToDeserializeClassMap: map<string, Option<ClassObject>> := map[];
    for i := 0 to |params|
      invariant AllNamed(params, i)
      invariant Tables(jsonNameToParamMap, paramToSerializerMap, jsonNameToDeserializeClassMap)
                == CacheParameters(decl.properties, params, i)
    {
      var param := params[i];
      if param.name.None? {
        return Err(ParameterWithoutName(cls));
      }
      var paramName := param.name.value;
      var property := FindProperty(decl.properties, paramName);
      if property.Some? {
        var name := property.value.jsonName.GetOr(paramName);
        jsonNameToParamMap := jsonNameToParamMap[name := i];
        jsonNameToDeserializeClassMap := jsonNameToDeserializeClassMap[name := property.value.deserializeAs];
        var valueSerializer := PreferredSerializer(param, property.value);
        if valueSerializer.Some? {
          paramToSerializerMap := paramToSerializerMap[i := valueSerializer.value];
        }
      }
    }
    r := Ok(ClassInfo(cls, params, jsonNameToParamMap, paramToSerializerMap, jsonNameToDeserializeClassMap));
  }

  /** The backing property of a named parameter. */
  function PropertyOf(props: seq<PropertyDecl>, params: seq<ParamDecl>, i: nat): Option<PropertyDecl>
    requires i < |params| && params[i].name.Some?
  {
    FindProperty(props, params[i].name.value)
  }

  /** The last of the first `n` parameters whose key is `key`: the
      reference for the key map, whose later insertions overwrite earlier
      ones. */
  function LastWithKey(props: seq<PropertyDecl>, params: seq<ParamDecl>, n: nat, key: string): (r: Option<nat>)
    requires n <= |params| && AllNamed(params, n)
    ensures r.None? <==> forall i :: 0 <= i < n ==> ParamKey(props, params, i) != Some(key)
    ensures r.Some? ==> r.value < n && ParamKey(props, params, r.value) == Some(key)
                        && forall j :: r.value < j < n ==> ParamKey(props, params, j) != Some(key)
  {
    if n == 0 then None
    else if ParamKey(props, params, n - 1) == Some(key) then Some(n - 1)
    else LastWithKey(props, params, n - 1, key)
  }

  /** The key map after the first `n` parameters sends each key to the last
      parameter that has it, and holds no other key. */
  lemma {:induction false} NamesMeaning(props: seq<PropertyDecl>, params: seq<ParamDecl>, n: nat)
    requires n <= |params| && AllNamed(params, n)
    ensures var t := CacheParameters(props, params, n);
            forall key :: (key in t.names <==> LastWithKey(props, params, n, key).Some?)
                          && (key in t.names ==> t.names[key] == LastWithKey(props, params, n, key).value)
  {
    if n > 0 {
      NamesMeaning(props, params, n - 1);
      var prev := CacheParameters(props, params, n - 1);
      var t := CacheParameters(props, params, n);
      match PropertyOf(props, params, n - 1)
      case None =>
        assert t.names == prev.names;
        assert ParamKey(props, params, n - 1) == None;
      case Some(prop) =>
        var k := KeyOf(params[n - 1], prop);
        assert t.names == prev.names[k := n - 1];
        assert ParamKey(props, params, n - 1) == Some(k);
    }
  }

  /** The override-class map has the same keys as the key map and holds the
      override of the parameter the key maps to. */
  lemma {:induction false} DeserializeAsMeaning(props: seq<PropertyDecl>, params: seq<ParamDecl>, n: nat)
    requires n <= |params| && AllNamed(params, n)
    ensures var t := CacheParameters(props, params, n);
            && t.deserializeAs.Keys == t.names.Keys
            && forall key :: key in t.names ==>
                 PropertyOf(props, params, t.names[key]).Some?
                 && t.deserializeAs[key] == PropertyOf(props, params, t.names[key]).value.deserializeAs
  {
    if n > 0 {
      DeserializeAsMeaning(props, params, n - 1);
      var prev := CacheParameters(props, params, n - 1);
      var t := CacheParameters(props, params, n);
      match PropertyOf(props, params, n - 1)
      case None =>
        assert t == prev;
      case Some(prop) =>
        var k := KeyOf(params[n - 1], prop);
        assert t.names == prev.names[k := n - 1];
        assert t.deserializeAs == prev.deserializeAs[k := prop.deserializeAs];
        forall key | key in t.names
          ensures PropertyOf(props, params, t.names[key]).Some?
          ensures t.deserializeAs[key] == PropertyOf(props, params, t.names[key]).value.deserializeAs
        {
          if key != k {
            assert t.names[key] == prev.names[key];
          }
        }
    }
  }

  /** A parameter has a serializer exactly when it has a backing property
      and a preferred serializer, and then it is that one. */
  lemma {:induction false} SerializersMeaning(props: seq<PropertyDecl>, params: seq<ParamDecl>, n: nat)
    requires n <= |params| && AllNamed(params, n)
    ensures var t := CacheParameters(props, params, n);
            && (forall i :: 0 <= i < n ==>
                  (i in t.serializers <==>
                     PropertyOf(props, params, i).Some?
                     && PreferredSerializer(params[i], PropertyOf(props, params, i).value).Some?))
            && (forall i :: i in t.serializers ==>
                  i < n && t.serializers[i] == PreferredSerializer(params[i], PropertyOf(props, params, i).value).value)
  {
    if n > 0 {
      SerializersMeaning(props, params, n - 1);
      var prev := CacheParameters(props, params, n - 1);
      var t := CacheParameters(props, params, n);
      match PropertyOf(props, params, n - 1)
      case None =>
        assert t == prev;
      case Some(prop) =>
        match PreferredSerializer(params[n - 1], prop)
        case None =>
          assert t.serializers == prev.serializers;
        case Some(s) =>
          assert t.serializers == prev.serializers[n - 1 := s];
    }
  }

  /** The key map and the override map of a built descriptor, in terms of
      the declaration (NamesMeaning and DeserializeAsMeaning for all parameters). */
  lemma DescribeKeys(cls: ClassId, decl: ClassDecl)
    requires Describe(cls, decl).Ok?
    ensures var info := Describe(cls, decl).value;
            && (forall key :: key in info.jsonNameToParam <==>
                  exists i :: 0 <= i < |info.parameters| && ParamKey(decl.properties, info.parameters, i) == Some(key))
            && (forall key :: key in info.jsonNameToParam ==>
                  ParamKey(decl.properties, info.parameters, info.jsonNameToParam[key]) == Some(key)
                  && forall j :: info.jsonNameToParam[key] < j < |info.parameters| ==>
                       ParamKey(decl.properties, info.parameters, j) != Some(key))
            && info.jsonNameToDeserializeClass.Keys == info.jsonNameToParam.Keys
  {
    var params := decl.primaryConstructor.value;
    NamesMeaning(decl.properties, params, |params|);
    DeserializeAsMeaning(decl.properties, params, |params|);
  }

  /** A parameter renamed with `@JsonName(k)` is reachable through `k` and
      through no other key, in particular not through its declared name
      (unless that equals `k`). */
  lemma RenamedParameterKey(cls: ClassId, decl: ClassDecl, i: nat, k: string)
    requires Describe(cls, decl).Ok?
    requires i < |decl.primaryConstructor.value|
    requires var p := decl.primaryConstructor.value[i];
             FindProperty(decl.properties, p.name.value).Some?
             && FindProperty(decl.properties, p.name.value).value.jsonName == Some(k)
    ensures var info := Describe(cls, decl).value;
            && k in info.jsonNameToParam
            && forall key :: key in info.jsonNameToParam && info.jsonNameToParam[key] == i ==> key == k
  {
    var params := decl.primaryConstructor.value;
    NamesMeaning(decl.properties, params, |params|);
    assert ParamKey(decl.properties, params, i) == Some(k);
    assert LastWithKey(decl.properties, params, |params|, k).Some?;
    var info := Describe(cls, decl).value;
    forall key | key in info.jsonNameToParam && info.jsonNameToParam[key] == i
      ensures key == k
    {
      assert ParamKey(decl.properties, params, LastWithKey(decl.properties, params, |params|, key).value) == Some(key);
    }
  }

  /** A parameter without a backing declared property is skipped: no key
      maps to it and it has no serializer. */
  lemma SkippedParameter(cls: ClassId, decl: ClassDecl, i: nat)
    requires Describe(cls, decl).Ok?
    requires i < |decl.primaryConstructor.value|
    requires FindProperty(decl.properties, decl.primaryConstructor.value[i].name.value).None?
    ensures var info := Describe(cls, decl).value;
            && i !in info.paramToSerializer
            && forall key :: key in info.jsonNameToParam ==> info.jsonNameToParam[key] != i
  {
    var params := decl.primaryConstructor.value;
    NamesMeaning(decl.properties, params, |params|);
    SerializersMeaning(decl.properties, params, |params|);
  }

  /** The serializer recorded for a parameter follows the preference order:
      custom serializer, then date format, then the type's default, else none. */
  lemma SerializerPreference(cls: ClassId, decl: ClassDecl, i: nat)
    requires Describe(cls, decl).Ok?
    requires i < |decl.primaryConstructor.value|
    ensures var info := Describe(cls, decl).value;
            var p := info.parameters[i];
            var prop := FindProperty(decl.properties, p.name.value);
            && (prop.None? ==> i !in info.paramToSerializer)
            && (prop.Some? && prop.value.customSerializer.Some? ==>
                  i in info.paramToSerializer
                  && info.paramToSerializer[i] == Foreign(CustomSerializer(prop.value.customSerializer.value)))
            && (prop.Some? && prop.value.customSerializer.None? && prop.value.dateFormat.Some? ==>
                  i in info.paramToSerializer
                  && info.paramToSerializer[i] == Foreign(DateSerializer(prop.value.dateFormat.value)))
            && (prop.Some? && prop.value.customSerializer.None? && prop.value.dateFormat.None? ==>
                  (i in info.paramToSerializer <==> IsPrimitiveOrString(p.ptype) && !IsChar(p.ptype))
                  && (i in info.paramToSerializer ==> Some(info.paramToSerializer[i]) == SerializerForType(p.ptype)))
  {
    var params := decl.primaryConstructor.value;
    SerializersMeaning(decl.properties, params, |params|);
  }

  // ---------------------------------------------------------------------
  // Lookups and checks

  /** `getConstructorParameter`: the parameter a JSON key maps to. */
  function GetConstructorParameter(info: ClassInfo, propertyName: string): (r: Result<nat>)
    ensures r.Ok? <==> propertyName in info.jsonNameToParam
    ensures r.Ok? ==> r.value < |info.parameters| && r.value == info.jsonNameToParam[propertyName]
    ensures r.Err? ==> r.error == ParameterNotFound(propertyName, info.className)
  {
    if propertyName in info.jsonNameToParam then Ok(info.jsonNameToParam[propertyName])
    else Err(ParameterNotFound(propertyName, info.className))
  }

  /** `getDeserializeClass`: the `@DeserializeInterface` class recorded for a
      key, if any. */
  function GetDeserializeClass(info: ClassInfo, propertyName: string): Option<ClassObject> {
    if propertyName in info.jsonNameToDeserializeClass then info.jsonNameToDeserializeClass[propertyName] else None
  }

  /** On a built descriptor, a key resolves exactly to the last constructor
      parameter whose key it is, and to nothing when no parameter has it. */
  lemma KeyLookup(cls: ClassId, decl: ClassDecl, key: string)
    requires Describe(cls, decl).Ok?
    ensures var info := Describe(cls, decl).value;
            var r := GetConstructorParameter(info, key);
            && (r.Err? <==> forall i :: 0 <= i < |info.parameters| ==> ParamKey(decl.properties, info.parameters, i) != Some(key))
            && (r.Err? ==> r.error == ParameterNotFound(key, cls))
            && (r.Ok? ==> ParamKey(decl.properties, info.parameters, r.value) == Some(key)
                          && forall j :: r.value < j < |info.parameters| ==> ParamKey(decl.properties, info.parameters, j) != Some(key))
  {
    DescribeKeys(cls, decl);
  }

  /** On a built descriptor, the class recorded for a key is the
      `@DeserializeInterface` of the property backing the parameter the key
      resolves to (`None` when that property has none). */
  lemma OverrideClass(cls: ClassId, decl: ClassDecl, key: string)
    requires Describe(cls, decl).Ok?
    requires key in Describe(cls, decl).value.jsonNameToParam
    ensures var info := Describe(cls, decl).value;
            var param := info.jsonNameToParam[key];
            && PropertyOf(decl.properties, info.parameters, param).Some?
            && GetDeserializeClass(info, key) == PropertyOf(decl.properties, info.parameters, param).value.deserializeAs
  {
    var params := decl.primaryConstructor.value;
    DeserializeAsMeaning(decl.properties, params, |params|);
  }

  /** `validateArgumentType`: null only into a nullable parameter, and a
      non-null value only when its runtime class is the declared type. */
  function ValidateArgumentType(param: ParamDecl, value: JsonScalar): (r: Outcome)
    ensures r.Pass? <==> (if value.Null? then param.nullable else RuntimeClass(value) == param.ptype)
    ensures value.Null? && r.Fail? ==> r.error == NullForNonNullParameter(param.name)
    ensures !value.Null? && r.Fail? ==> r.error == TypeMismatch(param.name, param.ptype, RuntimeClass(value))
  {
    if value.Null? && !param.nullable then Fail(NullForNonNullParameter(param.name))
    else if !value.Null? && RuntimeClass(value) != param.ptype then
      Fail(TypeMismatch(param.name, param.ptype, RuntimeClass(value)))
    else Pass
  }

  /** `deserializeConstructorArgument`: a parameter with a serializer gets
      what the serializer decodes; any other gets the value itself, once it
      has passed the type check. */
  function DeserializeConstructorArgument(info: ClassInfo, param: nat, value: JsonScalar): (r: Result<Value>)
    requires param < |info.parameters|
    ensures param in info.paramToSerializer ==> r == FromJsonValue(info.paramToSerializer[param], value)
    ensures param !in info.paramToSerializer ==>
              (r.Ok? <==> ValidateArgumentType(info.parameters[param], value).Pass?)
              && (r.Ok? ==> r.value == value)
              && (r.Err? ==> r.error == ValidateArgumentType(info.parameters[param], value).error)
  {
    if param in info.paramToSerializer then FromJsonValue(info.paramToSerializer[param], value)
    else
      match ValidateArgumentType(info.parameters[param], value)
      case Fail(e) => Err(e)
      case Pass => Ok(value)
  }

  // ---------------------------------------------------------------------
  // Construction

  /** A parameter the constructor cannot do without: its argument is absent
      or null, and it is neither optional nor nullable. */
  predicate IsMissing(params: seq<ParamDecl>, arguments: map<nat, Value>, i: nat)
    requires i < |params|
  {
    (i !in arguments || arguments[i] == Null) && !params[i].optional && !params[i].nullable
  }

  /** The first missing parameter at or after `from`. */
  function FirstMissing(params: seq<ParamDecl>, arguments: map<nat, Value>, from: nat): (r: Option<nat>)
    requires from <= |params|
    decreases |params| - from
    ensures r.None? <==> forall j :: from <= j < |params| ==> !IsMissing(params, arguments, j)
    ensures r.Some? ==> from <= r.value < |params| && IsMissing(params, arguments, r.value)
                        && forall j :: from <= j < r.value ==> !IsMissing(params, arguments, j)
  {
    if from == |params| then None
    else if IsMissing(params, arguments, from) then Some(from)
    else FirstMissing(params, arguments, from + 1)
  }

  /** `createInstance`: fails on the first missing parameter, else calls the
      constructor, modelled as the record of the arguments. */
  function Instantiate(info: ClassInfo, arguments: map<nat, Value>): (r: Result<Value>)
    ensures r.Err? <==> exists i :: 0 <= i < |info.parameters| && IsMissing(info.parameters, arguments, i)
    ensures r.Ok? ==> r.value == Instance(info.className, arguments)
    ensures r.Err? ==> exists i :: 0 <= i < |info.parameters| && IsMissing(info.parameters, arguments, i)
                                   && r.error == MissingValue(info.parameters[i].name)
                                   && forall j :: 0 <= j < i ==> !IsMissing(info.parameters, arguments, j)
  {
    match FirstMissing(info.parameters, arguments, 0)
    case Some(i) => Err(MissingValue(info.parameters[i].name))
    case None => Ok(Instance(info.className, arguments))
  }

  /** `ensureAllParametersPresent`: the checking loop over the constructor's
      parameters. */
  method EnsureAllParametersPresent(info: ClassInfo, arguments: map<nat, Value>) returns (r: Outcome)
    ensures r.Pass? <==> forall i :: 0 <= i < |info.parameters| ==> !IsMissing(info.parameters, arguments, i)
    ensures r.Fail? ==> exists i :: 0 <= i < |info.parameters| && IsMissing(info.parameters, arguments, i)
                                    && r.error == MissingValue(info.parameters[i].name)
                                    && forall j :: 0 <= j < i ==> !IsMissing(info.parameters, arguments, j)
  {
    for k := 0 to |info.parameters|
      invariant forall j :: 0 <= j < k ==> !IsMissing(info.parameters, arguments, j)
    {
      var param := info.parameters[k];
      if (k !in arguments || arguments[k] == Null) && !param.optional && !param.nullable {
        assert IsMissing(info.parameters, arguments, k);
        return Fail(MissingValue(param.name));
      }
    }
    return Pass;
  }

  /** `createInstance`, as the method that runs the check. */
  method CreateInstance(info: ClassInfo, arguments: map<nat, Value>) returns (r: Result<Value>)
    ensures r == Instantiate(info, arguments)
  {
    var present := EnsureAllParametersPresent(info, arguments);
    if present.Fail? {
      return Err(present.error);
    }
    return Ok(Instance(info.className, arguments));
  }

  // ---------------------------------------------------------------------
  // The cache

  /** `ClassInfoCache`: a memo table from class to descriptor. Every entry is
      the descriptor of its class; a failed build leaves no entry. */
  class ClassInfoCache {
    const registry: Registry
    var cacheData: map<ClassId, ClassInfo>
    /** Every class whose descriptor was built, in order. */
    ghost var builds: seq<ClassId>

    ghost predicate Valid()
      reads this
    {
      forall cls :: cls in cacheData ==> Describe(cls, registry(cls)) == Ok(cacheData[cls])
    }

    constructor (registry: Registry)
      ensures Valid() && this.registry == registry
      ensures cacheData == map[] && builds == []
    {
      this.registry := registry;
      cacheData := map[];
      builds := [];
    }

    /** `get` (`getOrPut`): the first request for a class builds its
      descriptor; later requests return the stored one and build nothing.
      Entries are never removed or replaced. */
    method Get(cls: ClassId) returns (r: Result<ClassInfo>)
      requires Valid()
      modifies this
      ensures Valid()
      ensures r == Describe(cls, registry(cls))
      ensures cls in old(cacheData) ==> r == Ok(old(cacheData)[cls]) && cacheData == old(cacheData) && builds == old(builds)
      ensures cls !in old(cacheData) ==>
                builds == old(builds) + [cls]
                && cacheData == if r.Ok? then old(cacheData)[cls := r.value] else old(cacheData)
    {
      if cls in cacheData {
        r := Ok(cacheData[cls]);
      } else {
        r := BuildClassInfo(cls, registry(cls));
        builds := builds + [cls];
        if r.Ok? {
          cacheData := cacheData[cls := r.value];
        }
      }
    }
  }

  /** Hit or miss, a request returns the same descriptor: two requests for a
      class in a row agree, and the second builds nothing. */
  method GetTwice(cache: ClassInfoCache, cls: ClassId) returns (first: Result<ClassInfo>, second: Result<ClassInfo>)
    requires cache.Valid()
    modifies cache
    ensures first == second
    ensures first.Ok? ==> |cache.builds| <= |old(cache.builds)| + 1
  {
    first := cache.Get(cls);
    second := cache.Get(cls);
  }
}
