/** What toArray returns: the attributes part (declared order, exclusions,
    getter values, when it fails), the key order of the whole result, the
    entries ONE and MANY relations add, and that requested relations must be
    declared. */
module SerializationProperties {
  import opened OrderedMaps
  import opened Names
  import opened NestedRelations
  import opened OsdEntity
  import opened FillProperties

  /** The declared attributes toArray emits: those not excluded, in order. */
  function Included(attrs: seq<string>, exclude: seq<string>): (r: seq<string>)
    ensures forall x :: x in r <==> x in attrs && x !in exclude
  {
    if attrs == [] then []
    else
      var last := attrs[|attrs| - 1];
      Included(attrs[..|attrs| - 1], exclude) + (if last in exclude then [] else [last])
  }

  /** The keys addRelationArray writes for relation `name`: the relation and
      its `_id` for ONE, the relation for MANY, none for any other kind. */
  function EmittedBy(e: BasicEntity, name: string): seq<string> {
    if name !in e.schema.relations then []
    else if e.schema.relations[name] == RelationMany then [name]
    else if e.schema.relations[name] == RelationOne then [name, name + "_id"]
    else []
  }

  /** The keys written for the parsed relation requests, in order. */
  function Emitted(e: BasicEntity, entries: OMap<seq<string>>): seq<string> {
    if entries == [] then []
    else Emitted(e, entries[..|entries| - 1]) + EmittedBy(e, entries[|entries| - 1].0)
  }

  /** The attributes part holds exactly the included attributes, in order of
      first appearance, each valued by its getter. */
  lemma {:induction false} AttributesPartShape(e: BasicEntity, attrs: seq<string>)
    requires AttributesPart(e, attrs).Ok?
    ensures Keys(AttributesPart(e, attrs).value) == FirstOccurrences(Included(attrs, e.schema.exclude))
    ensures forall k :: k in Keys(AttributesPart(e, attrs).value) ==>
      e.Getter(k).Ok? && Lookup(AttributesPart(e, attrs).value, k) == Some(e.Getter(k).value)
  {
    if attrs != [] {
      var prefix := attrs[..|attrs| - 1];
      var attr := attrs[|attrs| - 1];
      var ex := e.schema.exclude;
      assert AttributesPart(e, prefix).Ok?;
      AttributesPartShape(e, prefix);
      var earlier := AttributesPart(e, prefix).value;
      if attr in ex {
        assert AttributesPart(e, attrs) == Ok(earlier);
        assert Included(attrs, ex) == Included(prefix, ex) + [];
        assert Included(prefix, ex) + [] == Included(prefix, ex);
      } else {
        var v := e.Getter(attr).value;
        var r := Put(earlier, attr, v);
        assert AttributesPart(e, attrs) == Ok(r);
        PutKeysExtend(earlier, Included(prefix, ex), attr, v);
        assert Included(attrs, ex) == Included(prefix, ex) + [attr];
        forall k | k in Keys(r)
          ensures e.Getter(k).Ok? && Lookup(r, k) == Some(e.Getter(k).value)
        {
          if k != attr {
            assert k in Keys(earlier);
          }
        }
      }
    }
  }

  /** An attribute whose getter makes toArray fail: serialised (not
      excluded), and either its getter is one of the class's own methods or
      it reaches an undeclared property. */
  predicate Unresolvable(e: BasicEntity, attr: string) {
    attr !in e.schema.exclude && (CallsBaseMethod(attr) || AccessorTarget(attr) !in e.schema.properties)
  }

  /** The attributes part fails exactly when some included attribute's getter
      calls one of the class's own methods or reaches a property that is not
      declared. */
  lemma {:induction false} AttributesPartFails(e: BasicEntity, attrs: seq<string>)
    ensures AttributesPart(e, attrs).Err? <==> exists i :: 0 <= i < |attrs| && Unresolvable(e, attrs[i])
  {
    if attrs != [] {
      var prefix := attrs[..|attrs| - 1];
      var attr := attrs[|attrs| - 1];
      AttributesPartFails(e, prefix);
      if AttributesPart(e, prefix).Err? {
        assert AttributesPart(e, attrs).Err?;
        var i :| 0 <= i < |prefix| && Unresolvable(e, prefix[i]);
        assert attrs[i] == prefix[i];
      } else if Unresolvable(e, attr) {
        assert AttributesPart(e, attrs).Err?;
        assert attrs[|attrs| - 1] == attr;
      } else {
        assert AttributesPart(e, attrs).Ok?;
        NoneUnresolvable(e, attrs, prefix);
      }
    }
  }

  lemma NoneUnresolvable(e: BasicEntity, attrs: seq<string>, prefix: seq<string>)
    requires attrs != [] && prefix == attrs[..|attrs| - 1]
    requires !exists i :: 0 <= i < |prefix| && Unresolvable(e, prefix[i])
    requires !Unresolvable(e, attrs[|attrs| - 1])
    ensures !exists i :: 0 <= i < |attrs| && Unresolvable(e, attrs[i])
  {
    forall i | 0 <= i < |attrs|
      ensures !Unresolvable(e, attrs[i])
    {
      if i < |prefix| {
        assert attrs[i] == prefix[i];
      }
    }
  }

  /** With no relations requested, toArray is its attributes part: no
      relation key appears. */
  lemma SerializeWithoutRelations(e: BasicEntity)
    ensures Serialize(e, []) == AttributesPart(e, e.schema.attributes)
    ensures Serialize(e, []).Ok? ==>
      Keys(Serialize(e, []).value) == FirstOccurrences(Included(e.schema.attributes, e.schema.exclude))
  {
    if AttributesPart(e, e.schema.attributes).Ok? {
      AttributesPartShape(e, e.schema.attributes);
    }
  }

  /** Adding the relation entries to a result whose keys are the first
      occurrences of `xs` yields the first occurrences of `xs` followed by the
      emitted keys. */
  lemma {:induction false} AddRelationsKeys(e: BasicEntity, start: OMap<Value>, entries: OMap<seq<string>>,
                                            xs: seq<string>)
    requires Keys(start) == FirstOccurrences(xs)
    requires AddRelations(e, start, entries).Ok?
    ensures Keys(AddRelations(e, start, entries).value) == FirstOccurrences(xs + Emitted(e, entries))
  {
    if entries == [] {
      assert xs + [] == xs;
    } else {
      var prefix := entries[..|entries| - 1];
      var (name, nested) := entries[|entries| - 1];
      var ys := xs + Emitted(e, prefix);
      assert Emitted(e, entries) == Emitted(e, prefix) + EmittedBy(e, name);
      assert xs + Emitted(e, entries) == ys + EmittedBy(e, name);
      assert AddRelations(e, start, prefix).Ok?;
      var acc := AddRelations(e, start, prefix).value;
      assert AddRelations(e, start, entries) == RelationEntry(e, acc, name, nested);
      AddRelationsKeys(e, start, prefix, xs);
      RelationEntryKeys(e, acc, name, nested, ys);
    }
  }

  /** One relation entry appends the keys it emits, unless already present. */
  lemma RelationEntryKeys(e: BasicEntity, acc: OMap<Value>, name: string, nested: seq<string>, ys: seq<string>)
    requires Keys(acc) == FirstOccurrences(ys)
    requires RelationEntry(e, acc, name, nested).Ok?
    ensures Keys(RelationEntry(e, acc, name, nested).value) == FirstOccurrences(ys + EmittedBy(e, name))
  {
    if e.schema.relations[name] == RelationMany {
      ManyEntryKeys(e, acc, name, nested, ys);
    } else if e.schema.relations[name] == RelationOne {
      OneEntryKeys(e, acc, name, nested, ys);
    } else {
      assert RelationEntry(e, acc, name, nested) == Ok(acc);
      assert ys + EmittedBy(e, name) == ys;
    }
  }

  lemma ManyEntryKeys(e: BasicEntity, acc: OMap<Value>, name: string, nested: seq<string>, ys: seq<string>)
    requires Keys(acc) == FirstOccurrences(ys)
    requires name in e.schema.relations && e.schema.relations[name] == RelationMany
    requires RelationEntry(e, acc, name, nested).Ok?
    ensures Keys(RelationEntry(e, acc, name, nested).value) == FirstOccurrences(ys + EmittedBy(e, name))
  {
    var items := HasMany(e, name, nested).value;
    assert RelationEntry(e, acc, name, nested).value == Put(acc, name, VList(items));
    PutKeysExtend(acc, ys, name, VList(items));
  }

  lemma OneEntryKeys(e: BasicEntity, acc: OMap<Value>, name: string, nested: seq<string>, ys: seq<string>)
    requires Keys(acc) == FirstOccurrences(ys)
    requires name in e.schema.relations && e.schema.relations[name] == RelationOne
    requires RelationEntry(e, acc, name, nested).Ok?
    ensures Keys(RelationEntry(e, acc, name, nested).value) == FirstOccurrences(ys + EmittedBy(e, name))
  {
    var related := HasOne(e, name, nested).value;
    assert RelationEntry(e, acc, name, nested).value
        == Put(Put(acc, name, VMap(related)), name + "_id", IdOf(related));
    PutTwiceKeys(acc, ys, name, name + "_id", VMap(related), IdOf(related));
  }

  /** Writing `a` then `b` into a map keyed by the first occurrences of `ys`. */
  lemma PutTwiceKeys<V>(m: OMap<V>, ys: seq<string>, a: string, b: string, x: V, y: V)
    requires Keys(m) == FirstOccurrences(ys)
    ensures Keys(Put(Put(m, a, x), b, y)) == FirstOccurrences(ys + [a, b])
  {
    assert ys + [a] + [b] == ys + [a, b];
    PutKeysExtend(m, ys, a, x);
    PutKeysExtend(Put(m, a, x), ys + [a], b, y);
  }

  /** `name` is set, and not to null, in the entity's `relations`. */
  predicate Declared(e: BasicEntity, name: string) {
    name in e.schema.relations && e.schema.relations[name] != VNull
  }

  /** Adding the relation entries succeeds only when every entry names a
      declared relation. */
  lemma {:induction false} AddRelationsDeclared(e: BasicEntity, start: OMap<Value>, entries: OMap<seq<string>>)
    requires AddRelations(e, start, entries).Ok?
    ensures forall j :: 0 <= j < |entries| ==> Declared(e, entries[j].0)
  {
    if entries != [] {
      var prefix := entries[..|entries| - 1];
      assert AddRelations(e, start, prefix).Ok?;
      AddRelationsDeclared(e, start, prefix);
      var acc := AddRelations(e, start, prefix).value;
      assert RelationEntry(e, acc, entries[|entries| - 1].0, entries[|entries| - 1].1).Ok?;
      AllDeclared(e, entries, prefix);
    }
  }

  lemma AllDeclared(e: BasicEntity, entries: OMap<seq<string>>, prefix: OMap<seq<string>>)
    requires entries != [] && prefix == entries[..|entries| - 1]
    requires forall j :: 0 <= j < |prefix| ==> Declared(e, prefix[j].0)
    requires Declared(e, entries[|entries| - 1].0)
    ensures forall j :: 0 <= j < |entries| ==> Declared(e, entries[j].0)
  {
    forall j | 0 <= j < |entries|
      ensures Declared(e, entries[j].0)
    {
      if j < |prefix| {
        assert entries[j] == prefix[j];
      }
    }
  }

  /** Key order of toArray: the included attributes first, then the keys of
      the requested relations in order of first appearance in `with`, each
      ONE relation followed by its `_id`; a key written again keeps its first
      place. */
  lemma SerializeKeyOrder(e: BasicEntity, with: seq<string>)
    requires Serialize(e, with).Ok?
    ensures Keys(Serialize(e, with).value)
         == FirstOccurrences(Included(e.schema.attributes, e.schema.exclude) + Emitted(e, Nest(with)))
  {
    AttributesPartShape(e, e.schema.attributes);
    AddRelationsKeys(e, AttributesPart(e, e.schema.attributes).value, Nest(with),
                     Included(e.schema.attributes, e.schema.exclude));
  }

  /** toArray only succeeds when the first segment of every requested path is
      set in `relations`; otherwise it throws. */
  lemma RelationsMustBeDeclared(e: BasicEntity, with: seq<string>)
    requires Serialize(e, with).Ok?
    ensures forall p :: p in with ==> Declared(e, Head(p))
  {
    var entries := Nest(with);
    AddRelationsDeclared(e, AttributesPart(e, e.schema.attributes).value, entries);
    NestKeys(with);
    forall p | p in with
      ensures Declared(e, Head(p))
    {
      var i :| 0 <= i < |with| && with[i] == p;
      assert Heads(with)[i] == Head(p);
      assert Head(p) in Keys(entries);
      var j :| 0 <= j < |entries| && Keys(entries)[j] == Head(p);
      assert entries[j].0 == Head(p);
    }
  }

  /** addRelationArray on a name that is not set (or set to null) in
      `relations` throws; a kind that is neither ONE nor MANY adds nothing. */
  lemma RelationEntryOfOtherKinds(e: BasicEntity, result: OMap<Value>, name: string, nested: seq<string>)
    ensures name !in e.schema.relations || e.schema.relations[name] == VNull ==>
      RelationEntry(e, result, name, nested) == Err(UndeclaredRelation(name))
    ensures name in e.schema.relations && e.schema.relations[name] !in {VNull, RelationOne, RelationMany} ==>
      RelationEntry(e, result, name, nested) == Ok(result) && EmittedBy(e, name) == []
  {
  }

  /** A ONE relation stores the related entity's array under its name (the
      empty array when there is none) and that array's `id`, or null, under
      `<name>_id`; no other key changes. */
  lemma OneRelationEntry(e: BasicEntity, result: OMap<Value>, name: string, nested: seq<string>)
    requires name in e.schema.relations && e.schema.relations[name] == RelationOne
    requires RelationEntry(e, result, name, nested).Ok?
    ensures HasOne(e, name, nested).Ok?
    ensures Lookup(RelationEntry(e, result, name, nested).value, name) == Some(VMap(HasOne(e, name, nested).value))
    ensures Lookup(RelationEntry(e, result, name, nested).value, name + "_id") == Some(IdOf(HasOne(e, name, nested).value))
    ensures forall k :: k != name && k != name + "_id" ==>
      Lookup(RelationEntry(e, result, name, nested).value, k) == Lookup(result, k)
    ensures !Truthy(e.Read(name)) ==>
      Lookup(RelationEntry(e, result, name, nested).value, name) == Some(VMap([]))
      && Lookup(RelationEntry(e, result, name, nested).value, name + "_id") == Some(VNull)
  {
    var related := HasOne(e, name, nested).value;
    assert name != name + "_id" by {
      assert |name + "_id"| == |name| + 3;
    }
    assert RelationEntry(e, result, name, nested).value
        == Put(Put(result, name, VMap(related)), name + "_id", IdOf(related));
    PutTwiceLookups(result, name, name + "_id", VMap(related), IdOf(related));
    if !Truthy(e.Read(name)) {
      assert related == [];
      NoIdInEmpty();
    }
  }

  lemma NoIdInEmpty()
    ensures IdOf([]) == VNull
  {
    var empty: OMap<Value> := [];
    assert Lookup(empty, "id") == None;
  }

  /** Reading back after writing `a` then a different key `b`. */
  lemma PutTwiceLookups<V>(m: OMap<V>, a: string, b: string, x: V, y: V)
    requires a != b
    ensures Lookup(Put(Put(m, a, x), b, y), a) == Some(x)
    ensures Lookup(Put(Put(m, a, x), b, y), b) == Some(y)
    ensures forall k :: k != a && k != b ==> Lookup(Put(Put(m, a, x), b, y), k) == Lookup(m, k)
  {
  }

  /** A MANY relation stores, under its name, the list of its members'
      arrays (the empty list when there is none); no other key changes. */
  lemma ManyRelationEntry(e: BasicEntity, result: OMap<Value>, name: string, nested: seq<string>)
    requires name in e.schema.relations && e.schema.relations[name] == RelationMany
    requires RelationEntry(e, result, name, nested).Ok?
    ensures HasMany(e, name, nested).Ok?
    ensures Lookup(RelationEntry(e, result, name, nested).value, name) == Some(VList(HasMany(e, name, nested).value))
    ensures forall k :: k != name ==> Lookup(RelationEntry(e, result, name, nested).value, k) == Lookup(result, k)
    ensures !Truthy(e.Read(name)) ==> Lookup(RelationEntry(e, result, name, nested).value, name) == Some(VList([]))
  {
    var items := HasMany(e, name, nested).value;
    assert RelationEntry(e, result, name, nested).value == Put(result, name, VList(items));
  }

  /** Serialising a collection succeeds exactly when every member serialises,
      and then yields one array per member, in order. */
  lemma {:induction false} SerializeEachShape(members: seq<BasicEntity>, nested: seq<string>)
    ensures SerializeEach(members, nested).Ok? <==> forall i :: 0 <= i < |members| ==> Serialize(members[i], nested).Ok?
    ensures SerializeEach(members, nested).Ok? ==>
      |SerializeEach(members, nested).value| == |members|
      && forall i :: 0 <= i < |members| ==>
           SerializeEach(members, nested).value[i] == VMap(Serialize(members[i], nested).value)
  {
    if members != [] {
      var prefix := members[..|members| - 1];
      SerializeEachShape(prefix, nested);
      assert forall i :: 0 <= i < |prefix| ==> prefix[i] == members[i];
    }
  }

  /** A getter name reaches one of the class's own methods exactly when the
      property it would read is, ignoring case, `hasManyRelation` or
      `hasOneRelation`. */
  lemma CallsBaseMethodExactly(attr: string)
    ensures CallsBaseMethod(attr) <==> Lower(AccessorTarget(attr)) in ShadowedProperties
  {
    LowerGetter(attr);
    GetPrefixed(Lower(AccessorTarget(attr)));
  }

  lemma GetPrefixed(t: string)
    ensures "get" + t in BaseGetMethods <==> t in ShadowedProperties
  {
    var g := "get" + t;
    assert g[3..] == t;
    assert "gethasmanyrelation"[3..] == "hasmanyrelation";
    assert "gethasonerelation"[3..] == "hasonerelation";
    assert "get" + "hasmanyrelation" == "gethasmanyrelation";
    assert "get" + "hasonerelation" == "gethasonerelation";
  }

  /** The attribute `has_many_relation` makes toArray fail, whatever the
      entity declares: its getter is the class's own getHasManyRelation. */
  lemma HasManyRelationAttributeFails(e: BasicEntity)
    ensures e.Getter("has_many_relation") == Err(MissingArguments("getHasManyRelation"))
  {
    HasManyRelationCamel();
    CamelHasManyRelationShadowed("has_many_relation");
  }

  lemma CamelHasManyRelationShadowed(a: string)
    requires SnakeToCamel(a) == "HasManyRelation"
    ensures CallsBaseMethod(a) && TranslateToGetter(a) == "getHasManyRelation"
  {
    assert AccessorTarget(a) == "hasManyRelation";
    assert Lower("hasManyRelation") == "hasmanyrelation";
    CallsBaseMethodExactly(a);
  }

  lemma HasManyRelationCamel()
    ensures SnakeToCamel("has_many_relation") == "HasManyRelation"
  {
    var words := ["has", "many", "relation"];
    assert JoinSnake(words) == "has_many_relation" by {
      assert JoinSnake(words[2..]) == "relation";
      assert JoinSnake(words[1..]) == "many_relation";
    }
    SnakeToCamelOfWords(words);
    assert Capitalised(words) == "HasManyRelation" by {
      assert Capitalised(words[3..]) == "";
      assert Capitalised(words[2..]) == "Relation";
      assert Capitalised(words[1..]) == "ManyRelation";
    }
  }

  /** The getter of an attribute that is already a plain camelCase name reads
      the property of that same name, unless that name is, ignoring case,
      `hasManyRelation` or `hasOneRelation`: then the class's own method runs
      and fails. */
  lemma GetterOfPlainName(e: BasicEntity, k: string)
    requires Plain(k) && (k == [] || !IsUpper(k[0])) && k in e.schema.properties
    ensures Lower(k) !in ShadowedProperties ==> e.Getter(k) == Ok(e.Read(k))
    ensures Lower(k) in ShadowedProperties ==> e.Getter(k) == Err(MissingArguments(TranslateToGetter(k)))
  {
    AccessorResolution(k);
    GetterRoundTrip(k);
    CallsBaseMethodExactly(k);
  }

  /** The getter of a snake_case attribute `first_second` reads the camelCase
      property `firstSecond`, not the property that fill writes for that key,
      unless that property name is shadowed by one of the class's methods. */
  lemma SnakeAttributeReadsCamelProperty(e: BasicEntity, first: string, second: string)
    requires Plain(first) && Plain(second) && first != [] && !IsUpper(first[0])
    requires first + UcFirst(second) in e.schema.properties
    ensures Lower(first + UcFirst(second)) !in ShadowedProperties ==>
      e.Getter(first + "_" + second) == Ok(e.Read(first + UcFirst(second)))
    ensures Lower(first + UcFirst(second)) in ShadowedProperties ==>
      e.Getter(first + "_" + second) == Err(MissingArguments(TranslateToGetter(first + "_" + second)))
  {
    SnakeNameReachesCamelProperty(first, second);
    CallsBaseMethodExactly(first + "_" + second);
  }

  /** After create (or fill) with distinct keys, toArray() returns each
      accepted value under its key, for a serialised attribute whose name is
      plain camelCase. */
  lemma FilledAttributeReadsBack(e: BasicEntity, start: map<string, Value>, input: seq<(string, Value)>,
                                 exclude: seq<string>, i: nat)
    requires e.values == Filled(start, input, exclude, e.schema.properties)
    requires Distinct(Keys(input)) && i < |input| && Accepted(input[i], exclude, e.schema.properties)
    requires input[i].0 in e.schema.attributes && input[i].0 !in e.schema.exclude
    requires Plain(input[i].0) && (input[i].0 == [] || !IsUpper(input[i].0[0]))
    requires Serialize(e, []).Ok?
    ensures Lookup(Serialize(e, []).value, input[i].0) == Some(input[i].1)
  {
    var k := input[i].0;
    SerializeWithoutRelations(e);
    AttributesPartShape(e, e.schema.attributes);
    assert k in Included(e.schema.attributes, e.schema.exclude);
    FilledAssigns(start, input, exclude, e.schema.properties, i);
    GetterOfPlainName(e, k);
  }
}
