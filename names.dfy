/** Attribute-name translation behind the entity's implicit getters and
    setters (snakeToCamel, translateToGetter, translateToSetter and the
    prefix decoding of translateFunctionToAttribute), with PHP's `ucfirst`,
    `lcfirst` and `ucwords` restricted to ASCII case mapping. */
module Names {
  import opened OrderedMaps

  /** The word delimiters of `ucwords`: space, tab, CR, LF, form feed, vertical tab. */
  const Delimiters: set<char> := {' ', '\t', '\r', '\n', '\U{000C}', '\U{000B}'}

  /** Characters that end a name segment: the delimiters and `_`. */
  const Separators: set<char> := Delimiters + {'_'}

  predicate IsUpper(c: char) { 'A' <= c <= 'Z' }

  predicate IsLower(c: char) { 'a' <= c <= 'z' }

  function ToUpper(c: char): char {
    if IsLower(c) then (c as int - 'a' as int + 'A' as int) as char else c
  }

  function ToLower(c: char): char {
    if IsUpper(c) then (c as int - 'A' as int + 'a' as int) as char else c
  }

  function UcFirst(s: string): string {
    if s == [] then s else [ToUpper(s[0])] + s[1..]
  }

  function LcFirst(s: string): string {
    if s == [] then s else [ToLower(s[0])] + s[1..]
  }

  /** `strtolower` restricted to ASCII: PHP compares method names this way. */
  function Lower(s: string): string {
    seq(|s|, i requires 0 <= i < |s| => ToLower(s[i]))
  }

  /** `str_replace('_', ' ', s)` */
  function UnderscoresToSpaces(s: string): string {
    seq(|s|, i requires 0 <= i < |s| => if s[i] == '_' then ' ' else s[i])
  }

  /** `ucwords(s)`: upper-cases the first character and every character that
      follows a delimiter. */
  function UcWords(s: string): string {
    seq(|s|, i requires 0 <= i < |s| =>
      if i == 0 || s[i - 1] in Delimiters then ToUpper(s[i]) else s[i])
  }

  /** `str_replace(' ', '', s)` */
  function RemoveSpaces(s: string): string {
    if s == [] then [] else (if s[0] == ' ' then [] else [s[0]]) + RemoveSpaces(s[1..])
  }

  /** snakeToCamel: `str_replace(' ', '', ucwords(str_replace('_', ' ', s)))`. */
  function SnakeToCamel(s: string): string {
    RemoveSpaces(UcWords(UnderscoresToSpaces(s)))
  }

  /** translateToGetter: `'get' . ucfirst(snakeToCamel(a))`. */
  function TranslateToGetter(a: string): (f: string)
    ensures |f| >= 3 && f[..3] == "get"
  {
    "get" + UcFirst(SnakeToCamel(a))
  }

  /** translateToSetter: `'set' . ucfirst(snakeToCamel(a))`; it names the same
      attribute as the getter and differs from it only in the prefix. */
  function TranslateToSetter(a: string): (f: string)
    ensures |f| >= 3 && f[..3] == "set"
    ensures f[3..] == TranslateToGetter(a)[3..]
  {
    "set" + UcFirst(SnakeToCamel(a))
  }

  predicate HasAccessorPrefix(f: string) {
    |f| >= 3 && (f[..3] == "get" || f[..3] == "set")
  }

  /** The `$attribute` translateFunctionToAttribute computes before checking
      that the property exists: `lcfirst(substr(f, 3))` after a `get`/`set`
      prefix, and null (None) otherwise. */
  function AccessorAttribute(f: string): Option<string> {
    if HasAccessorPrefix(f) then Some(LcFirst(f[3..])) else None
  }

  /** The property that the getter and the setter of attribute name `a` reach. */
  function AccessorTarget(a: string): string {
    LcFirst(SnakeToCamel(a))
  }

  /** A name that `ucwords` treats as a single word: no `_` and no delimiter. */
  predicate Plain(a: string) {
    forall i :: 0 <= i < |a| ==> a[i] !in Separators
  }

  /** Reference definition of snakeToCamel, one character at a time: `_` and
      space are dropped and make the next character upper-case; any other
      character is kept, upper-cased when it starts a word, and starts a new
      word after itself when it is a delimiter (tab, CR, LF, FF, VT). */
  function Camel(s: string, capitalise: bool): string {
    if s == [] then []
    else if s[0] == '_' || s[0] == ' ' then Camel(s[1..], true)
    else [if capitalise then ToUpper(s[0]) else s[0]] + Camel(s[1..], s[0] in Delimiters)
  }

  /** `s` without its `_` and space characters. */
  function Strip(s: string): string {
    if s == [] then [] else (if s[0] == '_' || s[0] == ' ' then [] else [s[0]]) + Strip(s[1..])
  }

  /** `s` with every letter upper-cased (comparison up to case). */
  function UpperAll(s: string): string {
    if s == [] then [] else [ToUpper(s[0])] + UpperAll(s[1..])
  }

  lemma {:induction false} SnakeToCamelSuffix(s: string, k: nat)
    requires k <= |s|
    ensures RemoveSpaces(UcWords(UnderscoresToSpaces(s))[k..])
         == Camel(s[k..], k == 0 || UnderscoresToSpaces(s)[k - 1] in Delimiters)
    decreases |s| - k
  {
    var u := UnderscoresToSpaces(s);
    var w := UcWords(u);
    if k < |s| {
      SnakeToCamelSuffix(s, k + 1);
      assert w[k..][1..] == w[k + 1..];
      assert s[k..][1..] == s[k + 1..];
      assert w[k..][0] == w[k];
      assert s[k..][0] == s[k];
    } else {
      assert w[k..] == [];
      assert s[k..] == [];
    }
  }

  /** snakeToCamel agrees with its character-by-character reference definition. */
  lemma SnakeToCamelIsCamel(s: string)
    ensures SnakeToCamel(s) == Camel(s, true)
  {
    SnakeToCamelSuffix(s, 0);
    assert UcWords(UnderscoresToSpaces(s))[0..] == UcWords(UnderscoresToSpaces(s));
    assert s[0..] == s;
  }

  lemma {:induction false} CamelDropsSeparators(s: string, capitalise: bool)
    ensures '_' !in Camel(s, capitalise) && ' ' !in Camel(s, capitalise)
  {
    if s != [] {
      CamelDropsSeparators(s[1..], if s[0] == '_' || s[0] == ' ' then true else s[0] in Delimiters);
    }
  }

  lemma {:induction false} CamelKeepsCharacters(s: string, capitalise: bool)
    ensures UpperAll(Camel(s, capitalise)) == UpperAll(Strip(s))
  {
    if s != [] {
      var next := if s[0] == '_' || s[0] == ' ' then true else s[0] in Delimiters;
      CamelKeepsCharacters(s[1..], next);
      if s[0] != '_' && s[0] != ' ' {
        var c := if capitalise then ToUpper(s[0]) else s[0];
        var tail := Camel(s[1..], next);
        assert Camel(s, capitalise) == [c] + tail;
        assert ([c] + tail)[1..] == tail;
        assert UpperAll([c] + tail) == [ToUpper(c)] + UpperAll(tail);
        assert ToUpper(c) == ToUpper(s[0]);
        assert Strip(s) == [s[0]] + Strip(s[1..]);
        assert ([s[0]] + Strip(s[1..]))[1..] == Strip(s[1..]);
        assert UpperAll([s[0]] + Strip(s[1..])) == [ToUpper(s[0])] + UpperAll(Strip(s[1..]));
      } else {
        assert Strip(s) == Strip(s[1..]);
      }
    }
  }

  /** snakeToCamel's output holds no `_` and no space, and apart from case it
      is exactly the input with its `_` and space characters removed. */
  lemma SnakeToCamelCharacters(s: string)
    ensures '_' !in SnakeToCamel(s) && ' ' !in SnakeToCamel(s)
    ensures UpperAll(SnakeToCamel(s)) == UpperAll(Strip(s))
  {
    SnakeToCamelIsCamel(s);
    CamelDropsSeparators(s, true);
    CamelKeepsCharacters(s, true);
  }

  /** A single word passes through unchanged, except that its first letter is
      upper-cased when a new word starts there. */
  lemma {:induction false} CamelPlain(w: string, rest: string, capitalise: bool)
    requires Plain(w)
    ensures Camel(w + rest, capitalise)
         == (if capitalise then UcFirst(w) else w) + Camel(rest, if w == [] then capitalise else false)
  {
    if w != [] {
      assert (w + rest)[1..] == w[1..] + rest;
      CamelPlain(w[1..], rest, false);
    } else {
      assert w + rest == rest;
    }
  }

  /** Each `_`-separated word comes out with its first letter upper-cased and
      the separator removed. */
  lemma SnakeSegment(w: string, rest: string)
    requires Plain(w)
    ensures Camel(w + "_" + rest, true) == UcFirst(w) + Camel(rest, true)
  {
    CamelPlain(w, "_" + rest, true);
    assert w + "_" + rest == w + ("_" + rest);
    assert ("_" + rest)[1..] == rest;
  }

  lemma LcFirstUcFirst(s: string)
    ensures LcFirst(UcFirst(s)) == LcFirst(s)
  {
  }

  lemma {:induction false} CamelStartsUpper(s: string)
    ensures UcFirst(Camel(s, true)) == Camel(s, true)
  {
    if s != [] && (s[0] == '_' || s[0] == ' ') {
      CamelStartsUpper(s[1..]);
    }
  }

  /** The `ucfirst` in translateToGetter/translateToSetter never changes
      anything: snakeToCamel already starts with an upper-case letter. */
  lemma UcFirstOfSnakeToCamel(s: string)
    ensures UcFirst(SnakeToCamel(s)) == SnakeToCamel(s)
  {
    SnakeToCamelIsCamel(s);
    CamelStartsUpper(s);
  }

  /** Decoding the getter or setter built from `a` yields the property
      `lcfirst(snakeToCamel(a))`. */
  lemma AccessorResolution(a: string)
    ensures AccessorAttribute(TranslateToGetter(a)) == Some(AccessorTarget(a))
    ensures AccessorAttribute(TranslateToSetter(a)) == Some(AccessorTarget(a))
  {
    LcFirstUcFirst(SnakeToCamel(a));
    assert TranslateToGetter(a)[3..] == UcFirst(SnakeToCamel(a));
  }

  /** Up to case, the getter built from `a` is `get` followed by the property
      it reaches: which method `$this->$getter()` calls depends only on that
      property name, lower-cased. */
  lemma LowerGetter(a: string)
    ensures Lower(TranslateToGetter(a)) == "get" + Lower(AccessorTarget(a))
  {
    var camel := SnakeToCamel(a);
    var target := AccessorTarget(a);
    var lhs := Lower(TranslateToGetter(a));
    var rhs := "get" + Lower(target);
    assert |UcFirst(camel)| == |camel| == |target|;
    forall i | 0 <= i < |lhs|
      ensures lhs[i] == rhs[i]
    {
      if i >= 3 {
        assert TranslateToGetter(a)[i] == UcFirst(camel)[i - 3];
        if i == 3 {
          assert ToLower(ToUpper(camel[0])) == ToLower(camel[0]) == ToLower(ToLower(camel[0]));
        }
      }
    }
  }

  /** Round trip: for a single-word name, decoding its getter gives the name
      back exactly when the name does not start with an upper-case letter. */
  lemma GetterRoundTrip(a: string)
    requires Plain(a)
    ensures AccessorAttribute(TranslateToGetter(a)) == Some(a) <==> (a == [] || !IsUpper(a[0]))
  {
    AccessorResolution(a);
    SnakeToCamelIsCamel(a);
    CamelPlain(a, "", true);
    assert a + "" == a;
    LcFirstUcFirst(a);
    assert AccessorTarget(a) == LcFirst(a);
    if a != [] && IsUpper(a[0]) {
      assert LcFirst(a)[0] != a[0];
    } else if a != [] {
      assert a == [a[0]] + a[1..];
    }
  }

  /** `words` joined by `_`, the shape of a snake_case name. */
  function JoinSnake(words: seq<string>): string
    requires |words| >= 1
  {
    if |words| == 1 then words[0] else words[0] + "_" + JoinSnake(words[1..])
  }

  /** The words, each with its first letter upper-cased, run together. */
  function Capitalised(words: seq<string>): string {
    if words == [] then [] else UcFirst(words[0]) + Capitalised(words[1..])
  }

  /** snakeToCamel on a snake_case name: every word is kept, its first letter
      upper-cased, and the `_` separators are removed
      (`attribute_number_four` becomes `AttributeNumberFour`). */
  lemma {:induction false} SnakeToCamelOfWords(words: seq<string>)
    requires |words| >= 1
    requires forall i :: 0 <= i < |words| ==> Plain(words[i])
    ensures SnakeToCamel(JoinSnake(words)) == Capitalised(words)
  {
    SnakeToCamelIsCamel(JoinSnake(words));
    CamelOfWords(words);
  }

  lemma {:induction false} CamelOfWords(words: seq<string>)
    requires |words| >= 1
    requires forall i :: 0 <= i < |words| ==> Plain(words[i])
    ensures Camel(JoinSnake(words), true) == Capitalised(words)
  {
    if |words| == 1 {
      CamelPlain(words[0], "", true);
      assert words[0] + "" == words[0];
      assert Capitalised(words[1..]) == [];
    } else {
      SnakeSegment(words[0], JoinSnake(words[1..]));
      CamelOfWords(words[1..]);
    }
  }

  /** A two-word snake_case name reaches the camelCase property: the getter and
      setter of `attribute_one` both resolve to `attributeOne`. */
  lemma SnakeNameReachesCamelProperty(first: string, second: string)
    requires Plain(first) && Plain(second)
    requires first != [] && !IsUpper(first[0])
    ensures AccessorTarget(first + "_" + second) == first + UcFirst(second)
  {
    var words := [first, second];
    assert JoinSnake(words) == first + "_" + second;
    SnakeToCamelOfWords(words);
    assert words[1..] == [second] && words[1..][1..] == [];
    assert Capitalised([second]) == UcFirst(second) + Capitalised([]);
    assert UcFirst(second) + [] == UcFirst(second);
    assert Capitalised(words) == UcFirst(first) + UcFirst(second);
    assert (UcFirst(first) + UcFirst(second))[1..] == first[1..] + UcFirst(second);
  }
}
