/** What fill (and so create and update) does to the property values, key by
    key: the last accepted pair for a key wins, every other key keeps its
    value, keys are used verbatim, and filling twice changes nothing more. */
module FillProperties {
  import opened OrderedMaps
  import opened Names
  import opened OsdEntity

  /** Reference definition of fill for one key: the value of the last input
      pair with key `k` that fill accepts, if any. */
  function LastAccepted(input: seq<(string, Value)>, k: string, exclude: seq<string>,
                        properties: set<string>): Option<Value>
  {
    if input == [] then None
    else if input[|input| - 1].0 == k && Accepted(input[|input| - 1], exclude, properties) then
      Some(input[|input| - 1].1)
    else LastAccepted(input[..|input| - 1], k, exclude, properties)
  }

  /** There is an accepted pair for `k` exactly when some input pair with key
      `k` is accepted. */
  lemma {:induction false} LastAcceptedSome(input: seq<(string, Value)>, k: string, exclude: seq<string>,
                                            properties: set<string>)
    ensures LastAccepted(input, k, exclude, properties).Some?
        <==> exists i :: 0 <= i < |input| && input[i].0 == k && Accepted(input[i], exclude, properties)
  {
    if input != [] {
      var prefix := input[..|input| - 1];
      LastAcceptedSome(prefix, k, exclude, properties);
      assert forall i :: 0 <= i < |prefix| ==> prefix[i] == input[i];
    }
  }

  /** With distinct input keys, the accepted pair `input[i]` is the one fill
      keeps for its key. */
  lemma {:induction false} LastAcceptedAt(input: seq<(string, Value)>, i: nat, exclude: seq<string>,
                                          properties: set<string>)
    requires Distinct(Keys(input)) && i < |input| && Accepted(input[i], exclude, properties)
    ensures LastAccepted(input, input[i].0, exclude, properties) == Some(input[i].1)
  {
    var n := |input|;
    if i < n - 1 {
      var prefix := input[..n - 1];
      assert Keys(input)[i] != Keys(input)[n - 1];
      assert forall j :: 0 <= j < |prefix| ==> Keys(prefix)[j] == Keys(input)[j];
      LastAcceptedAt(prefix, i, exclude, properties);
    }
  }

  /** fill key by key: a key with an accepted pair ends with the value of the
      last such pair, and every other key keeps its value or stays unset. */
  lemma {:induction false} FilledAt(values: map<string, Value>, input: seq<(string, Value)>, exclude: seq<string>,
                                    properties: set<string>, k: string)
    ensures LastAccepted(input, k, exclude, properties).Some? ==>
      k in Filled(values, input, exclude, properties)
      && Filled(values, input, exclude, properties)[k] == LastAccepted(input, k, exclude, properties).value
    ensures LastAccepted(input, k, exclude, properties).None? ==>
      (k in Filled(values, input, exclude, properties) <==> k in values)
      && (k in values ==> Filled(values, input, exclude, properties)[k] == values[k])
  {
    if input != [] {
      FilledAt(values, input[..|input| - 1], exclude, properties, k);
    }
  }

  /** A key for which no input pair is accepted keeps its value: this covers
      loosely null values, undeclared keys and excluded keys alike. */
  lemma {:induction false} FilledKeeps(values: map<string, Value>, input: seq<(string, Value)>, exclude: seq<string>,
                                       properties: set<string>, k: string)
    requires forall i :: 0 <= i < |input| && input[i].0 == k ==> !Accepted(input[i], exclude, properties)
    ensures k in Filled(values, input, exclude, properties) <==> k in values
    ensures k in values ==> Filled(values, input, exclude, properties)[k] == values[k]
  {
    LastAcceptedSome(input, k, exclude, properties);
    FilledAt(values, input, exclude, properties, k);
  }

  /** A value that is loosely null never overwrites the property. */
  lemma {:induction false} FillSkipsLooselyNull(values: map<string, Value>, input: seq<(string, Value)>, exclude: seq<string>,
                                                properties: set<string>, k: string)
    requires forall i :: 0 <= i < |input| && input[i].0 == k ==> LooselyNull(input[i].1)
    ensures k in Filled(values, input, exclude, properties) <==> k in values
    ensures k in values ==> Filled(values, input, exclude, properties)[k] == values[k]
  {
    FilledKeeps(values, input, exclude, properties, k);
  }

  /** A key that is not a declared property is ignored, without error. */
  lemma {:induction false} FillIgnoresUndeclared(values: map<string, Value>, input: seq<(string, Value)>, exclude: seq<string>,
                                                 properties: set<string>, k: string)
    requires k !in properties
    ensures k in Filled(values, input, exclude, properties) <==> k in values
    ensures k in values ==> Filled(values, input, exclude, properties)[k] == values[k]
  {
    FilledKeeps(values, input, exclude, properties, k);
  }

  /** An excluded key is never assigned, even when declared and not null. */
  lemma {:induction false} FillIgnoresExcluded(values: map<string, Value>, input: seq<(string, Value)>, exclude: seq<string>,
                                               properties: set<string>, k: string)
    requires k in exclude
    ensures k in Filled(values, input, exclude, properties) <==> k in values
    ensures k in values ==> Filled(values, input, exclude, properties)[k] == values[k]
  {
    FilledKeeps(values, input, exclude, properties, k);
  }

  /** With distinct input keys, every accepted pair is written verbatim to the
      property of the same name. */
  lemma {:induction false} FilledAssigns(values: map<string, Value>, input: seq<(string, Value)>, exclude: seq<string>,
                                         properties: set<string>, i: nat)
    requires Distinct(Keys(input)) && i < |input| && Accepted(input[i], exclude, properties)
    ensures input[i].0 in Filled(values, input, exclude, properties)
    ensures Filled(values, input, exclude, properties)[input[i].0] == input[i].1
  {
    LastAcceptedAt(input, i, exclude, properties);
    FilledAt(values, input, exclude, properties, input[i].0);
  }

  /** The only properties fill sets or changes are keys of accepted input
      pairs, taken as they are; in particular they are declared and not
      excluded. */
  lemma {:induction false} FilledChangesOnlyAcceptedKeys(values: map<string, Value>, input: seq<(string, Value)>, exclude: seq<string>,
                                                         properties: set<string>, k: string)
    requires k in Filled(values, input, exclude, properties)
    requires k !in values || Filled(values, input, exclude, properties)[k] != values[k]
    ensures exists i :: 0 <= i < |input| && input[i].0 == k && Accepted(input[i], exclude, properties)
    ensures k in properties && k !in exclude
  {
    FilledAt(values, input, exclude, properties, k);
    LastAcceptedSome(input, k, exclude, properties);
  }

  /** Filling twice with the same input leaves the same values as filling once. */
  lemma FillIdempotent(values: map<string, Value>, input: seq<(string, Value)>, exclude: seq<string>,
                       properties: set<string>)
    ensures Filled(Filled(values, input, exclude, properties), input, exclude, properties)
         == Filled(values, input, exclude, properties)
  {
    var once := Filled(values, input, exclude, properties);
    var twice := Filled(once, input, exclude, properties);
    forall k
      ensures (k in twice <==> k in once) && (k in once ==> twice[k] == once[k])
    {
      FilledAt(values, input, exclude, properties, k);
      FilledAt(once, input, exclude, properties, k);
    }
    assert twice.Keys == once.Keys;
  }

  /** fill uses keys verbatim while assignment goes through the setter: the
      snake_case key `first_second` fills nothing when only the camelCase
      property `firstSecond` is declared, whereas assigning to `first_second`
      reaches exactly that camelCase property. */
  lemma SnakeKeyFillVersusAssign(values: map<string, Value>, exclude: seq<string>, properties: set<string>,
                                 first: string, second: string, v: Value)
    requires Plain(first) && Plain(second) && first != [] && !IsUpper(first[0])
    requires first + "_" + second !in properties
    ensures Filled(values, [(first + "_" + second, v)], exclude, properties) == values
    ensures AccessorTarget(first + "_" + second) == first + UcFirst(second)
  {
    var input := [(first + "_" + second, v)];
    assert input[..0] == [];
    SnakeNameReachesCamelProperty(first, second);
  }
}
