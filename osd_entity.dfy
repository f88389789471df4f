/** The entity base class BasicEntity (with the fill/create/update of
    FillableEntityTrait): per-property storage, bulk fill, implicit getter and
    setter dispatch, and serialisation into nested ordered arrays. */
module OsdEntity {
  import opened OrderedMaps
  import opened Names
  import opened NestedRelations

  /** A PHP value as a property holds it or toArray emits it. A PHP array is
      VList (keys 0..n-1) or VMap (string keys in insertion order); entities
      and collections of entities are what relation properties hold. */
  datatype Value =
    | VNull
    | VBool(b: bool)
    | VInt(i: int)
    | VStr(s: string)
    | VList(items: seq<Value>)
    | VMap(entries: OMap<Value>)
    | VEntity(entity: BasicEntity)
    | VCollection(members: seq<BasicEntity>)

  /** RELATION_ONE and RELATION_MANY, compared with `===`. */
  const RelationOne: Value := VInt(0)
  const RelationMany: Value := VInt(1)

  /** `$v == null` under PHP's loose comparison: null, false, 0, '' and the
      empty array. */
  predicate LooselyNull(v: Value) {
    v == VNull || v == VBool(false) || v == VInt(0) || v == VStr("") || v == VList([]) || v == VMap([])
  }

  /** PHP truthiness, as in `$this->$relation ? ... : []`; unlike loose null,
      the string "0" is falsy too, and objects are always truthy. */
  predicate Truthy(v: Value) {
    match v
    case VNull => false
    case VBool(b) => b
    case VInt(i) => i != 0
    case VStr(s) => s != "" && s != "0"
    case VList(items) => items != []
    case VMap(entries) => entries != []
    case VEntity(_) => true
    case VCollection(_) => true
  }

  /** The exceptions and errors the entity raises, told apart by cause. The
      first three are InvalidArgumentExceptions. UnsupportedSlot stands for a
      relation property that holds something other than what its kind needs;
      for a scalar or an array PHP raises an Error calling toArray on it.
      MissingArguments stands for a built getter name that reaches one of the
      class's own two-parameter methods, which PHP calls with no arguments
      (an ArgumentCountError). */
  datatype Error =
    | UnknownAttribute(name: string)
    | UnknownMethod(name: string)
    | UndeclaredRelation(name: string)
    | UnsupportedSlot(name: string)
    | MissingArguments(methodName: string)

  /** The class's own `get…` methods, lower-cased because PHP matches method
      names ignoring case: getHasManyRelation and getHasOneRelation. Both
      take two parameters and are visible from inside toArray. */
  const BaseGetMethods: set<string> := {"gethasmanyrelation", "gethasonerelation"}

  /** The property names, lower-cased, whose getter is one of BaseGetMethods. */
  const ShadowedProperties: set<string> := {"hasmanyrelation", "hasonerelation"}

  /** `$this->$getter()` for the getter of `attr` calls a method of the class
      itself rather than falling through to __call. */
  predicate CallsBaseMethod(attr: string) {
    Lower(TranslateToGetter(attr)) in BaseGetMethods
  }

  datatype Result<+T> = Ok(value: T) | Err(error: Error) {
    predicate IsFailure() {
      Err?
    }

    function PropagateFailure<U>(): Result<U>
      requires Err?
    {
      Err(error)
    }

    function Extract(): T
      requires Ok?
    {
      value
    }
  }

  /** What __call returns: a getter's value, or the entity itself after a setter. */
  datatype Reply = Returned(value: Value) | Itself

  /** What a concrete entity type declares. */
  datatype Schema = Schema(
    properties: set<string>,        // the names property_exists accepts
    attributes: seq<string>,        // $attributes: serialised, in this order
    exclude: seq<string>,           // $exclude, or [] when the type has none
    relations: map<string, Value>,  // $relations: name => RELATION_ONE / RELATION_MANY
    defaults: map<string, Value>)   // initial property values; the others start null

  /** The property values of a freshly constructed entity (`new static`). */
  function InitialValues(schema: Schema): map<string, Value> {
    map k | k in schema.defaults && k in schema.properties :: schema.defaults[k]
  }

  /** `$args[0]`, which reads as null when no argument was passed. */
  function Argument(args: seq<Value>): Value {
    if |args| > 0 then args[0] else VNull
  }

  /** fill assigns a pair when its value is not loosely null, its key is a
      declared property and its key is not excluded. */
  predicate Accepted(pair: (string, Value), exclude: seq<string>, properties: set<string>) {
    !LooselyNull(pair.1) && pair.0 in properties && pair.0 !in exclude
  }

  /** The property values after fill walks `input` in order. */
  function Filled(values: map<string, Value>, input: seq<(string, Value)>, exclude: seq<string>,
                  properties: set<string>): map<string, Value>
  {
    if input == [] then values
    else
      var earlier := Filled(values, input[..|input| - 1], exclude, properties);
      var pair := input[|input| - 1];
      if Accepted(pair, exclude, properties) then earlier[pair.0 := pair.1] else earlier
  }

  /** The value toArray stores under `<relation>_id`: the nested array's `id`
      when it is set, null otherwise. */
  function IdOf(related: OMap<Value>): Value {
    Lookup(related, "id").GetOr(VNull)
  }

  class BasicEntity {
    const schema: Schema
    var values: map<string, Value>

    constructor (schema: Schema)
      ensures this.schema == schema && values == InitialValues(schema)
    {
      this.schema := schema;
      values := InitialValues(schema);
    }

    /** `$this->$name`: a property never assigned reads as null. */
    function Read(name: string): Value
      reads this
    {
      if name in values then values[name] else VNull
    }

    /** translateFunctionToAttribute: a `get`/`set` name decodes to
        `lcfirst` of the rest, which must be a declared property. */
    function TranslateFunctionToAttribute(functionName: string): (r: Result<string>)
      ensures r.Ok? <==> HasAccessorPrefix(functionName) && LcFirst(functionName[3..]) in schema.properties
      ensures r.Ok? ==> r.value in schema.properties && r.value == LcFirst(functionName[3..])
      ensures !HasAccessorPrefix(functionName) ==> r == Err(UnknownAttribute(""))
      ensures HasAccessorPrefix(functionName) && r.Err? ==> r == Err(UnknownAttribute(LcFirst(functionName[3..])))
    {
      var attribute := AccessorAttribute(functionName);
      if attribute.Some? && attribute.value in schema.properties then Ok(attribute.value)
      else Err(UnknownAttribute(attribute.GetOr("")))
    }

    /** `$this->$getter()` with the getter built from attribute name `attr`.
        When the name matches one of the class's own methods, ignoring case,
        that method runs without its arguments and fails. Otherwise __call
        serves it: the value of property `lcfirst(snakeToCamel(attr))`, or
        UnknownAttribute when that property is not declared. */
    function Getter(attr: string): (r: Result<Value>)
      reads this
      ensures CallsBaseMethod(attr) ==> r == Err(MissingArguments(TranslateToGetter(attr)))
      ensures !CallsBaseMethod(attr) && AccessorTarget(attr) in schema.properties ==>
        r == Ok(Read(AccessorTarget(attr)))
      ensures !CallsBaseMethod(attr) && AccessorTarget(attr) !in schema.properties ==>
        r == Err(UnknownAttribute(AccessorTarget(attr)))
    {
      if CallsBaseMethod(attr) then Err(MissingArguments(TranslateToGetter(attr)))
      else
        AccessorResolution(attr);
        match TranslateFunctionToAttribute(TranslateToGetter(attr))
        case Err(e) => Err(e)
        case Ok(attribute) => Ok(Read(attribute))
    }

    /** __call: a getter returns the property, a setter assigns its first
        argument to the property and returns the entity; any other name
        already fails in translateFunctionToAttribute. */
    method Call(functionName: string, args: seq<Value>) returns (r: Result<Reply>)
      modifies this
      ensures TranslateFunctionToAttribute(functionName).Err? ==>
        r == Err(TranslateFunctionToAttribute(functionName).error) && values == old(values)
      ensures TranslateFunctionToAttribute(functionName).Ok? && functionName[..3] == "get" ==>
        r == Ok(Returned(Read(TranslateFunctionToAttribute(functionName).value))) && values == old(values)
      ensures TranslateFunctionToAttribute(functionName).Ok? && functionName[..3] == "set" ==>
        r == Ok(Itself) && values == old(values)[TranslateFunctionToAttribute(functionName).value := Argument(args)]
    {
      var attribute :- TranslateFunctionToAttribute(functionName);
      if functionName[..3] == "get" {
        return Ok(Returned(Read(attribute)));
      }
      if functionName[..3] == "set" {
        values := values[attribute := Argument(args)];
        return Ok(Itself);
      }
      assert false;
      r := Err(UnknownMethod(functionName));
    }

    /** __set: assigning `$entity->attribute = value` goes through the setter
        `'set' . ucfirst(snakeToCamel(attribute))`, so it lands in property
        `lcfirst(snakeToCamel(attribute))` and fails when that is undeclared. */
    method Assign(attribute: string, value: Value) returns (r: Result<()>)
      modifies this
      ensures AccessorTarget(attribute) in schema.properties ==>
        r == Ok(()) && values == old(values)[AccessorTarget(attribute) := value]
      ensures AccessorTarget(attribute) !in schema.properties ==>
        r == Err(UnknownAttribute(AccessorTarget(attribute))) && values == old(values)
    {
      var setter := TranslateToSetter(attribute);
      AccessorResolution(attribute);
      var reply :- Call(setter, [value]);
      r := Ok(());
    }

    /** fill: assigns, in order, every pair whose value is not loosely null,
        whose key is a declared property and whose key is not excluded;
        everything else is skipped without error. Returns the entity. */
    method Fill(attributes: seq<(string, Value)>, exclude: seq<string>) returns (self: BasicEntity)
      modifies this
      ensures self == this
      ensures values == Filled(old(values), attributes, exclude, schema.properties)
    {
      for i := 0 to |attributes|
        invariant values == Filled(old(values), attributes[..i], exclude, schema.properties)
      {
        var (key, value) := attributes[i];
        if !LooselyNull(value) && key in schema.properties && key !in exclude {
          values := values[key := value];
        }
        assert attributes[..i + 1][..i] == attributes[..i];
      }
      assert attributes[..|attributes|] == attributes;
      self := this;
    }

    /** update: the same as fill. */
    method Update(attributes: seq<(string, Value)>, exclude: seq<string>) returns (self: BasicEntity)
      modifies this
      ensures self == this
      ensures values == Filled(old(values), attributes, exclude, schema.properties)
    {
      self := Fill(attributes, exclude);
    }

    /** create: fill on a freshly constructed entity of the given type. */
    static method Create(schema: Schema, attributes: seq<(string, Value)>, exclude: seq<string>)
      returns (entity: BasicEntity)
      ensures fresh(entity) && entity.schema == schema
      ensures entity.values == Filled(InitialValues(schema), attributes, exclude, schema.properties)
    {
      entity := new BasicEntity(schema);
      entity := entity.Fill(attributes, exclude);
    }

    /** toArray: the attributes part, then one entry (two for a ONE relation)
        per requested relation. Reads the entity graph and changes nothing. */
    method ToArray(with: seq<string>) returns (r: Result<OMap<Value>>)
      decreases Depth(with), 4, 0
      ensures r == Serialize(this, with)
    {
      var result :- AttributesArray();
      var relations := BuildNestedRelationsArray(with);
      NestDepth(with);
      r := AddRelationArrays(result, relations);
    }

    /** toArray's first loop: every declared attribute not excluded, in
        declared order, valued by its getter. */
    method AttributesArray() returns (r: Result<OMap<Value>>)
      ensures r == AttributesPart(this, schema.attributes)
    {
      var result: OMap<Value> := [];
      var excluded := schema.exclude;
      for i := 0 to |schema.attributes|
        invariant AttributesPart(this, schema.attributes[..i]) == Ok(result)
      {
        var attr := schema.attributes[i];
        assert schema.attributes[..i + 1][..i] == schema.attributes[..i];
        if attr !in excluded {
          var value := Getter(attr);
          if value.Err? {
            AttributesPartFailsFrom(this, schema.attributes, i + 1);
            return Err(value.error);
          }
          result := Put(result, attr, value.value);
        }
      }
      assert schema.attributes[..|schema.attributes|] == schema.attributes;
      r := Ok(result);
    }

    /** toArray's second loop: addRelationArray for each parsed entry in order. */
    method AddRelationArrays(start: OMap<Value>, relations: OMap<seq<string>>) returns (r: Result<OMap<Value>>)
      decreases EntriesDepth(relations), 3, |relations|
      ensures r == AddRelations(this, start, relations)
    {
      var result := start;
      for j := 0 to |relations|
        invariant AddRelations(this, start, relations[..j]) == Ok(result)
      {
        var (attr, nestedRelations) := relations[j];
        EntriesDepthCovers(relations, j);
        assert relations[..j + 1][..j] == relations[..j];
        var next := AddRelationArray(result, attr, nestedRelations);
        if next.Err? {
          AddRelationsFailsFrom(this, start, relations, j + 1);
          return next;
        }
        result := next.value;
      }
      assert relations[..|relations|] == relations;
      r := Ok(result);
    }

    /** addRelationArray: the `$result` it updates by reference is passed in
        and returned. */
    method AddRelationArray(result: OMap<Value>, attr: string, nestedRelations: seq<string>)
      returns (r: Result<OMap<Value>>)
      decreases Depth(nestedRelations) + 1, 2, 0
      ensures r == RelationEntry(this, result, attr, nestedRelations)
    {
      if attr !in schema.relations || schema.relations[attr] == VNull {
        return Err(UndeclaredRelation(attr));
      }
      r := Ok(result);
      if schema.relations[attr] == RelationMany {
        var items :- GetHasManyRelation(attr, nestedRelations);
        r := Ok(Put(result, attr, VList(items)));
      }
      if schema.relations[attr] == RelationOne {
        var related :- GetHasOneRelation(attr, nestedRelations);
        var idAttr := attr + "_id";
        r := Ok(Put(Put(result, attr, VMap(related)), idAttr, IdOf(related)));
      }
    }

    /** getHasManyRelation: each member of the collection serialised with the
        same nested requests, in collection order. */
    method GetHasManyRelation(relation: string, nestedRelations: seq<string>) returns (r: Result<seq<Value>>)
      decreases Depth(nestedRelations) + 1, 1, 0
      ensures r == HasMany(this, relation, nestedRelations)
    {
      var slot := Read(relation);
      var hasManyRelations: seq<BasicEntity> := [];
      if Truthy(slot) {
        if !slot.VCollection? {
          return Err(UnsupportedSlot(relation));
        }
        hasManyRelations := slot.members;
      }
      var items: seq<Value> := [];
      for i := 0 to |hasManyRelations|
        invariant SerializeEach(hasManyRelations[..i], nestedRelations) == Ok(items)
      {
        var serialised := hasManyRelations[i].ToArray(nestedRelations);
        assert hasManyRelations[..i + 1][..i] == hasManyRelations[..i];
        if serialised.Err? {
          SerializeEachFailsFrom(hasManyRelations, nestedRelations, i + 1);
          return Err(serialised.error);
        }
        items := items + [VMap(serialised.value)];
      }
      assert hasManyRelations[..|hasManyRelations|] == hasManyRelations;
      r := Ok(items);
    }

    /** getHasOneRelation: the related entity serialised with the nested
        requests, or the empty array when there is none. */
    method GetHasOneRelation(relation: string, nestedRelations: seq<string>) returns (r: Result<OMap<Value>>)
      decreases Depth(nestedRelations) + 1, 1, 0
      ensures r == HasOne(this, relation, nestedRelations)
    {
      var slot := Read(relation);
      if !Truthy(slot) {
        return Ok([]);
      }
      if !slot.VEntity? {
        return Err(UnsupportedSlot(relation));
      }
      r := slot.entity.ToArray(nestedRelations);
    }
  }

  /** The attributes part of toArray over `attrs`: every name not excluded, in
      order, stored under itself with the value its getter returns. */
  ghost function AttributesPart(e: BasicEntity, attrs: seq<string>): Result<OMap<Value>>
    reads e
  {
    if attrs == [] then Ok([])
    else
      match AttributesPart(e, attrs[..|attrs| - 1])
      case Err(x) => Err(x)
      case Ok(result) =>
        var attr := attrs[|attrs| - 1];
        if attr in e.schema.exclude then Ok(result)
        else
          match e.Getter(attr)
          case Err(x) => Err(x)
          case Ok(v) => Ok(Put(result, attr, v))
  }

  /** What `e->toArray(with)` returns or throws. */
  ghost function Serialize(e: BasicEntity, with: seq<string>): Result<OMap<Value>>
    reads *
    decreases Depth(with), 4, 0
  {
    match AttributesPart(e, e.schema.attributes)
    case Err(x) => Err(x)
    case Ok(result) =>
      NestDepth(with);
      AddRelations(e, result, Nest(with))
  }

  /** toArray's second loop: addRelationArray for each parsed entry in order. */
  ghost function AddRelations(e: BasicEntity, result: OMap<Value>, entries: OMap<seq<string>>): Result<OMap<Value>>
    reads *
    decreases EntriesDepth(entries), 3, |entries|
  {
    if entries == [] then Ok(result)
    else
      match AddRelations(e, result, entries[..|entries| - 1])
      case Err(x) => Err(x)
      case Ok(acc) =>
        EntriesDepthCovers(entries, |entries| - 1);
        RelationEntry(e, acc, entries[|entries| - 1].0, entries[|entries| - 1].1)
  }

  /** addRelationArray: an unset relation throws; MANY stores the list of
      serialised members; ONE stores the serialised entity and its `_id`;
      any other kind leaves the result as it is. */
  ghost function RelationEntry(e: BasicEntity, result: OMap<Value>, name: string, nested: seq<string>): Result<OMap<Value>>
    reads *
    decreases Depth(nested) + 1, 2, 0
  {
    if name !in e.schema.relations || e.schema.relations[name] == VNull then Err(UndeclaredRelation(name))
    else if e.schema.relations[name] == RelationMany then
      match HasMany(e, name, nested)
      case Err(x) => Err(x)
      case Ok(items) => Ok(Put(result, name, VList(items)))
    else if e.schema.relations[name] == RelationOne then
      match HasOne(e, name, nested)
      case Err(x) => Err(x)
      case Ok(related) => Ok(Put(Put(result, name, VMap(related)), name + "_id", IdOf(related)))
    else Ok(result)
  }

  ghost function HasMany(e: BasicEntity, name: string, nested: seq<string>): Result<seq<Value>>
    reads *
    decreases Depth(nested) + 1, 1, 0
  {
    var slot := e.Read(name);
    if !Truthy(slot) then Ok([])
    else if slot.VCollection? then SerializeEach(slot.members, nested)
    else Err(UnsupportedSlot(name))
  }

  /** `array_map` of toArray(nested) over the members, in order. */
  ghost function SerializeEach(members: seq<BasicEntity>, nested: seq<string>): Result<seq<Value>>
    reads *
    decreases Depth(nested) + 1, 0, |members|
  {
    if members == [] then Ok([])
    else
      match SerializeEach(members[..|members| - 1], nested)
      case Err(x) => Err(x)
      case Ok(items) =>
        match Serialize(members[|members| - 1], nested)
        case Err(x) => Err(x)
        case Ok(m) => Ok(items + [VMap(m)])
  }

  ghost function HasOne(e: BasicEntity, name: string, nested: seq<string>): Result<OMap<Value>>
    reads *
    decreases Depth(nested) + 1, 1, 0
  {
    var slot := e.Read(name);
    if !Truthy(slot) then Ok([])
    else if slot.VEntity? then Serialize(slot.entity, nested)
    else Err(UnsupportedSlot(name))
  }

  lemma {:induction false} AttributesPartFailsFrom(e: BasicEntity, attrs: seq<string>, i: nat)
    requires i <= |attrs| && AttributesPart(e, attrs[..i]).Err?
    ensures AttributesPart(e, attrs) == AttributesPart(e, attrs[..i])
    decreases |attrs| - i
  {
    if i < |attrs| {
      assert attrs[..i + 1][..i] == attrs[..i];
      AttributesPartFailsFrom(e, attrs, i + 1);
    } else {
      assert attrs[..i] == attrs;
    }
  }

  lemma {:induction false} AddRelationsFailsFrom(e: BasicEntity, result: OMap<Value>, entries: OMap<seq<string>>, i: nat)
    requires i <= |entries| && AddRelations(e, result, entries[..i]).Err?
    ensures AddRelations(e, result, entries) == AddRelations(e, result, entries[..i])
    decreases |entries| - i
  {
    if i < |entries| {
      assert entries[..i + 1][..i] == entries[..i];
      AddRelationsFailsFrom(e, result, entries, i + 1);
    } else {
      assert entries[..i] == entries;
    }
  }

  lemma {:induction false} SerializeEachFailsFrom(members: seq<BasicEntity>, nested: seq<string>, i: nat)
    requires i <= |members| && SerializeEach(members[..i], nested).Err?
    ensures SerializeEach(members, nested) == SerializeEach(members[..i], nested)
    decreases |members| - i
  {
    if i < |members| {
      assert members[..i + 1][..i] == members[..i];
      SerializeEachFailsFrom(members, nested, i + 1);
    } else {
      assert members[..i] == members;
    }
  }
}
