# OsdEntity BasicEntity, modelled in Dafny

The repository has one PHP base class for entities, `OsdEntity\BasicEntity`. It comes in two behaviourally identical copies:

- `src/OsdEntity/BasicEntity.php` is standalone.
- `src/BasicEntity.php` takes `fill`, `create` and `update` from `src/FillableEntityTrait.php`.

A concrete entity declares four things:

- its properties;
- `$attributes`, the names to serialise, in order;
- optionally `$exclude`;
- `$relations`, mapping a name to `RELATION_ONE` (0) or `RELATION_MANY` (1).

The base class provides:

- bulk assignment (`fill`, `create`, `update`);
- implicit getters and setters through `__call` and `__set`, with names translated from snake_case to camelCase;
- `toArray($with)`, which serialises the entity, plus the related entities named by dotted paths such as `comments.tags`, into nested ordered arrays.

The model has six modules:

- `OrderedMaps` covers PHP's ordered arrays with string keys. `Put` overwrites in place or appends; `Lookup` is `isset`/read.
- `Names` covers `snakeToCamel`, the getter and setter names, and how `translateFunctionToAttribute` decodes them. `Camel` is a per-character reference definition of `snakeToCamel`, and the two are proved equal.
- `NestedRelations` covers `explode('.')` and `buildNestedRelationsArray`. It has a loop method proved against the fold `Nest`, plus the depth measure that makes relation recursion terminate.
- `OsdEntity` has three parts:
  - the value, error and schema types;
  - the class `BasicEntity`, whose field `values` holds the property values and whose methods are the PHP methods;
  - ghost functions (`Serialize`, `AttributesPart`, `AddRelations`, `RelationEntry`, `HasOne`, `HasMany`, `SerializeEach`) that state what each serialisation method returns.
- `FillProperties` describes `fill` key by key, against the reference `LastAccepted`.
- `SerializationProperties` covers the attributes part, the key order of the result, ONE and MANY entries, and declared relations.

Modelling choices:

- Loose `== null` and truthiness are kept apart. `fill` skips null, false, 0, `''` and empty arrays. The relation getters treat `"0"` as falsy as well.
- Relation kinds are compared with `===`, so only `VInt(0)` and `VInt(1)` select ONE and MANY. A relation set to null counts as not set (`isset`).
- A thrown `InvalidArgumentException` is an `Err` carrying its cause. `UnknownMethod` is kept in the error type, but it is proved unreachable.
- `property_exists` is membership in `schema.properties`.

## Model

| member | source | states |
|---|---|---|
| OrderedMaps.Put | src/OsdEntity/BasicEntity.php:124 | `$m[$k] = $v`: the key order is unchanged when `k` was present and gets `k` appended otherwise; `k` now reads `v`; every other key reads as before |
| OrderedMaps.Lookup | src/OsdEntity/BasicEntity.php:155 | a key is found exactly when it is one of the map's keys, and the value found is stored under that key |
| Names.TranslateToGetter | src/OsdEntity/BasicEntity.php:243-248 | the getter name always starts with `get` |
| Names.TranslateToSetter | src/OsdEntity/BasicEntity.php:256-261 | the setter name starts with `set`, and after the prefix it equals the getter name |
| Names.SnakeToCamelIsCamel | src/OsdEntity/BasicEntity.php:264-272 | `snakeToCamel` equals a per-character reference: `_` and spaces dropped, and the first character plus every character after a separator upper-cased |
| Names.SnakeToCamelCharacters | src/OsdEntity/BasicEntity.php:269-272 | the output has no `_` and no space; up to case it is the input with `_` and spaces removed, so every other character is kept in order |
| Names.SnakeToCamelOfWords | src/OsdEntity/BasicEntity.php:264-272 | for words without separators, `snakeToCamel(w1_w2_..._wn)` is `ucfirst(w1) ucfirst(w2) ... ucfirst(wn)` |
| Names.UcFirstOfSnakeToCamel | src/OsdEntity/BasicEntity.php:247 | `ucfirst` on the output of `snakeToCamel` changes nothing |
| Names.AccessorResolution | src/OsdEntity/BasicEntity.php:220-261 | translateFunctionToAttribute decodes both the getter and the setter name of `a` to the same property, `lcfirst(snakeToCamel(a))` |
| Names.LowerGetter | src/OsdEntity/BasicEntity.php:243-248 | ignoring case, the getter name of `a` is `get` followed by the property it reaches, `lcfirst(snakeToCamel(a))` |
| Names.GetterRoundTrip | src/OsdEntity/BasicEntity.php:220-272 | for a name without `_` or whitespace, the getter name decodes back to the name itself exactly when its first character is not an upper-case letter |
| Names.SnakeNameReachesCamelProperty | src/BasicEntity.php:167-218 | the getter or setter of `first_second` reaches the camelCase property `first` + `ucfirst(second)` |
| NestedRelations.Explode | src/OsdEntity/BasicEntity.php:152 | `explode('.')` gives one more part than there are dots; every part is dot-free; joining the parts with `.` restores the input |
| NestedRelations.ExplodeImplode | src/OsdEntity/BasicEntity.php:152 | exploding the join of dot-free parts gives the parts back |
| NestedRelations.BuildNestedRelationsArray | src/OsdEntity/BasicEntity.php:147-163 | the loop returns the fold `Nest` of the requested paths |
| NestedRelations.NestKeys | src/OsdEntity/BasicEntity.php:147-163 | the keys are the distinct first segments, in order of first appearance, with no duplicates |
| NestedRelations.NestLookup | src/OsdEntity/BasicEntity.php:147-163 | a key's list is the in-order concatenation of the remaining segments of every path with that first segment; a name that is no path's first segment has no entry |
| NestedRelations.NestedDotFree | src/OsdEntity/BasicEntity.php:152-158 | every entry of a nested list is dot-free, so `a.b.c` asks `a` for `b` and for `c` separately |
| NestedRelations.NestCount | src/BasicEntity.php:93-109 | the nested lists hold as many entries in total as there are dots in the requests |
| NestedRelations.NestDepth | src/OsdEntity/BasicEntity.php:128-131 | every nested list is strictly shallower than the request list it came from (the termination measure of toArray) |
| NestedRelations.TwoLevels | src/OsdEntity/BasicEntity.php:104-135 | the relations requested of a related entity request nothing further: recursion stops after two relation levels |
| NestedRelations.BareName | src/BasicEntity.php:97-102 | a bare name yields that key with an empty list |
| NestedRelations.SharedHeadMerges | src/BasicEntity.php:82-109 | two paths with the same first segment yield one key holding both remainders in order (`user.friend`, `user.family` becomes `user => [friend, family]`) |
| OsdEntity.BasicEntity.constructor | src/FillableEntityTrait.php:32 | a new entity holds its type's initial property values |
| OsdEntity.BasicEntity.TranslateFunctionToAttribute | src/OsdEntity/BasicEntity.php:220-235 | succeeds exactly for a `get`/`set` name whose `lcfirst` remainder is a declared property, and returns that property; otherwise it fails, and a name with no such prefix fails with an empty attribute |
| OsdEntity.BasicEntity.Getter | src/OsdEntity/BasicEntity.php:123-124 | when the getter name of `attr` equals, ignoring case, the class's own `getHasManyRelation` or `getHasOneRelation`, that method runs without its two arguments and fails; otherwise the getter returns property `lcfirst(snakeToCamel(attr))`, or fails with that name when it is not declared |
| OsdEntity.BasicEntity.Call | src/OsdEntity/BasicEntity.php:33-50 | a getter returns the property and changes nothing; a setter assigns its first argument (null when absent) to that property only and returns the entity; a failed translation changes nothing; the "not a function" branch is unreachable |
| OsdEntity.BasicEntity.Assign | src/OsdEntity/BasicEntity.php:19-24 | `$e->x = v` assigns `v` to `lcfirst(snakeToCamel(x))` and changes nothing else, or fails without change when that property is not declared |
| OsdEntity.BasicEntity.Fill | src/FillableEntityTrait.php:12-23 | the new values are `Filled(old values, input)`, and fill returns the same entity |
| OsdEntity.BasicEntity.Update | src/FillableEntityTrait.php:42-45 | update has exactly fill's effect and result |
| OsdEntity.BasicEntity.Create | src/FillableEntityTrait.php:30-35 | a fresh entity of the given type, holding `Filled(initial values, input)` |
| OsdEntity.BasicEntity.ToArray | src/OsdEntity/BasicEntity.php:116-135 | returns `Serialize(this, with)`; it modifies nothing |
| OsdEntity.BasicEntity.AttributesArray | src/OsdEntity/BasicEntity.php:118-126 | the first loop returns `AttributesPart`, stopping at the first failing getter |
| OsdEntity.BasicEntity.AddRelationArrays | src/OsdEntity/BasicEntity.php:128-132 | the second loop returns `AddRelations` over the parsed requests, stopping at the first error |
| OsdEntity.BasicEntity.AddRelationArray | src/OsdEntity/BasicEntity.php:170-186 | returns the updated result `RelationEntry` describes |
| OsdEntity.BasicEntity.GetHasManyRelation | src/OsdEntity/BasicEntity.php:193-200 | returns `HasMany`: each member serialised in order, or the empty list for a falsy property |
| OsdEntity.BasicEntity.GetHasOneRelation | src/OsdEntity/BasicEntity.php:207-210 | returns `HasOne`: the related entity serialised, or the empty array for a falsy property |
| FillProperties.FilledAt | src/FillableEntityTrait.php:16-19 | for each key: if some pair is accepted, the key ends with the value of the last accepted pair; otherwise it keeps its value or stays unset |
| FillProperties.FilledKeeps | src/FillableEntityTrait.php:16-19 | a key with no accepted pair, including a key absent from the input, keeps its value |
| FillProperties.FillSkipsLooselyNull | src/FillableEntityTrait.php:17 | null, false, 0, `''` and empty arrays never overwrite a property |
| FillProperties.FillIgnoresUndeclared | src/FillableEntityTrait.php:16-19 | a key that is not a declared property is ignored, without error |
| FillProperties.FillIgnoresExcluded | src/FillableEntityTrait.php:17 | an excluded key is never assigned, even when declared and not null |
| FillProperties.FilledAssigns | src/FillableEntityTrait.php:17-18 | with distinct input keys, every accepted pair is written verbatim to the property of the same name |
| FillProperties.FilledChangesOnlyAcceptedKeys | src/FillableEntityTrait.php:17-18 | any property fill sets or changes is the literal key of an accepted pair, so it is declared and not excluded |
| FillProperties.FillIdempotent | src/FillableEntityTrait.php:16-19 | filling twice with the same input gives the same values as filling once |
| FillProperties.SnakeKeyFillVersusAssign | src/OsdEntity/BasicEntity.php:62-73 | a snake_case key fills nothing when only its camelCase property is declared, while assigning to that key reaches the camelCase property |
| SerializationProperties.AttributesPartShape | src/BasicEntity.php:63-71 | the attributes part has exactly the non-excluded declared attributes, in declared order, each valued by its getter |
| SerializationProperties.AttributesPartFails | src/BasicEntity.php:66-71 | the attributes part fails exactly when some non-excluded attribute's getter is one of the class's own methods or reaches an undeclared property |
| SerializationProperties.SerializeWithoutRelations | src/BasicEntity.php:61-80 | with no relations requested, toArray is its attributes part and has no relation keys |
| SerializationProperties.SerializeKeyOrder | src/BasicEntity.php:61-80 | result keys: the included attributes first, then the requested relations in order of first appearance, each ONE relation followed by `<name>_id`; a key written again keeps its first place |
| SerializationProperties.AddRelationsKeys | src/BasicEntity.php:75-77 | the relation loop appends the keys each entry emits |
| SerializationProperties.RelationEntryKeys | src/BasicEntity.php:116-133 | one entry adds `[name]` for MANY, `[name, name_id]` for ONE, nothing for any other kind |
| SerializationProperties.AddRelationsDeclared | src/BasicEntity.php:116-120 | the relation loop succeeds only if every entry is set in `relations` |
| SerializationProperties.RelationsMustBeDeclared | src/BasicEntity.php:116-120 | toArray succeeds only when the first segment of every requested path is set, and not null, in `relations` |
| SerializationProperties.RelationEntryOfOtherKinds | src/BasicEntity.php:116-133 | a name not set in `relations` throws; a kind that is neither `=== 0` nor `=== 1` adds nothing and raises nothing |
| SerializationProperties.OneRelationEntry | src/BasicEntity.php:126-132 | ONE stores the related array under the name and its `id` (or null) under `<name>_id`, and no other key changes; when the property is falsy these are the empty array and null |
| SerializationProperties.ManyRelationEntry | src/BasicEntity.php:122-124 | MANY stores the list of serialised members under the name, and no other key changes; when the property is falsy that is the empty list |
| SerializationProperties.SerializeEachShape | src/BasicEntity.php:140-147 | serialising a collection succeeds exactly when every member serialises, and then gives one array per member with the same nested requests, in order |
| SerializationProperties.CallsBaseMethodExactly | src/BasicEntity.php:140-157 | the getter of `attr` reaches one of the class's own methods exactly when the property it names is, ignoring case, `hasManyRelation` or `hasOneRelation` |
| SerializationProperties.HasManyRelationAttributeFails | src/BasicEntity.php:68-69 | for every entity, the attribute `has_many_relation` calls `getHasManyRelation` without arguments and fails |
| SerializationProperties.GetterOfPlainName | src/BasicEntity.php:167-195 | the getter of a plain camelCase attribute reads the property of that same name, unless that name is `hasManyRelation` or `hasOneRelation` up to case, where the class's own method fails |
| SerializationProperties.SnakeAttributeReadsCamelProperty | src/BasicEntity.php:190-218 | the getter of `first_second` reads property `first` + `ucfirst(second)`, unless that name is `hasManyRelation` or `hasOneRelation` up to case, where the class's own method fails |
| SerializationProperties.FilledAttributeReadsBack | tests/OsdEntityTest/BasicEntityTest.php:37-48 | after create or fill with distinct keys, `toArray()` returns each accepted value under its key, for a serialised plain camelCase attribute |

## Left out

- PHP visibility and the `__set` recursion guard. `fill` and the setter branch of `__call` assign the property directly.
- Getters and setters defined by a concrete entity, and the `EntityTest` fixture. Every setter, and every getter except those whose name is the class's own `getHasManyRelation` or `getHasOneRelation` ignoring case, is the default `__call` path.
- The collection library's `toArray()` on MANY relations is a foreign call. A collection is a sequence of entity references (`VCollection`).
- Relation properties holding something other than what their kind needs. The model returns `UnsupportedSlot` for every such slot. PHP fails on a method call for scalars and arrays, but two object cases follow the object's own `toArray`, which the model does not capture: a collection under ONE stores the collection's array and reads its `'id'`, and an entity under MANY maps `toArray($nested)` over the values of that entity's own `toArray()`: it yields `[]` when no attribute is serialised, fails when that `toArray()` fails or on the first value that is not an object with `toArray`, and otherwise keeps the attribute names as keys.
- The `(array)$attributes` cast. The input is a list of string-keyed pairs.
- Floats, and integer keys in the input.
- PHP's loose comparison of numeric strings inside `in_array` (for example `"1"` and `"01"`). Exclusion lists are compared exactly.
- Multibyte and locale behaviour of `ucwords`, `ucfirst` and `lcfirst`. Only ASCII letters change case.
- Empty property names. `property_exists` is false for `''` in PHP, but the model does not exclude `""` from `schema.properties`; a schema that declares it makes `TranslateFunctionToAttribute("get")` succeed where PHP throws.
- Exception messages and `get_class`. An error value carries only its cause.
- The entity's own metadata properties (`$attributes`, `$relations`, `$exclude`). In PHP they are ordinary declared properties, so `fill`, `__set` and setters can overwrite them, and a payload holding `'exclude' => ['x']` changes what a later `toArray` omits. The model keeps them in the constant `schema`: even when a schema lists their names as properties, `Fill` writes `values["exclude"]` while `Serialize` still reads `schema.exclude`.
- Both files declare `OsdEntity\BasicEntity`. The trait's namespace does not match where it is used. This is packaging, not behaviour.
- SerializationProperties.OneRelationEntry: it states the stored keys in terms of `HasOne`. That a present related entity yields its own `toArray(nested)` is the definition of `HasOne`, which `GetHasOneRelation` is proved to return.
- SerializationProperties.ManyRelationEntry: it states the stored list in terms of `HasMany`. The per-member contents are stated by `SerializeEachShape`.
