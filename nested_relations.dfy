/** Parsing of the relation paths given to `toArray` (`'comments.tags'`):
    PHP's `explode('.')`, buildNestedRelationsArray, and the depth measure
    that bounds how far the serialisation recurses into related entities. */
module NestedRelations {
  import opened OrderedMaps

  predicate DotFree(s: string) {
    '.' !in s
  }

  /** The number of `.` characters in `s`. */
  function Dots(s: string): nat {
    if s == [] then 0 else (if s[0] == '.' then 1 else 0) + Dots(s[1..])
  }

  /** `implode('.', parts)` */
  function Implode(parts: seq<string>): string
    requires |parts| >= 1
  {
    if |parts| == 1 then parts[0] else parts[0] + "." + Implode(parts[1..])
  }

  /** `explode('.', s)`: the pieces between the dots, empty ones included;
      there is one more piece than there are dots, none holds a dot, and
      joining them with dots gives `s` back. */
  function Explode(s: string): (parts: seq<string>)
    ensures |parts| == Dots(s) + 1
    ensures forall i :: 0 <= i < |parts| ==> DotFree(parts[i])
    ensures Implode(parts) == s
  {
    if s == [] then [[]]
    else
      var rest := Explode(s[1..]);
      if s[0] == '.' then
        assert ([[]] + rest)[1..] == rest;
        assert s == "." + s[1..];
        [[]] + rest
      else
        var parts := [[s[0]] + rest[0]] + rest[1..];
        assert s == [s[0]] + s[1..];
        assert |rest| > 1 ==> parts[1..] == rest[1..] && Implode(rest) == rest[0] + "." + Implode(rest[1..]);
        parts
  }

  lemma {:induction false} ExplodePrefix(w: string, t: string)
    requires DotFree(w)
    ensures Explode(w + t) == [w + Explode(t)[0]] + Explode(t)[1..]
  {
    if w != [] {
      assert (w + t)[1..] == w[1..] + t;
      assert (w + t)[0] == w[0] && w[0] != '.';
      assert DotFree(w[1..]) by { assert forall c :: c in w[1..] ==> c in w; }
      ExplodePrefix(w[1..], t);
      var rest := Explode(w[1..] + t);
      assert rest[0] == w[1..] + Explode(t)[0];
      assert rest[1..] == Explode(t)[1..];
      assert Explode(w + t) == [[w[0]] + rest[0]] + rest[1..];
      assert [w[0]] + (w[1..] + Explode(t)[0]) == w + Explode(t)[0];
    } else {
      assert w + t == t;
      assert [] + Explode(t)[0] == Explode(t)[0];
      assert Explode(t) == [Explode(t)[0]] + Explode(t)[1..];
    }
  }

  /** Round trip the other way: exploding dot-free pieces joined by dots gives
      the pieces back. */
  lemma {:induction false} ExplodeImplode(parts: seq<string>)
    requires |parts| >= 1
    requires forall i :: 0 <= i < |parts| ==> DotFree(parts[i])
    ensures Explode(Implode(parts)) == parts
  {
    if |parts| == 1 {
      ExplodePrefix(parts[0], []);
      assert parts[0] + [] == parts[0];
    } else {
      ExplodeImplode(parts[1..]);
      var t := "." + Implode(parts[1..]);
      assert parts[0] + "." + Implode(parts[1..]) == parts[0] + t;
      ExplodePrefix(parts[0], t);
      assert t[0] == '.' && t[1..] == Implode(parts[1..]);
      assert Explode(t) == [[]] + parts[1..];
      assert parts[0] + [] == parts[0];
      assert parts == [parts[0]] + parts[1..];
    }
  }

  lemma DotFreeHasNoDots(s: string)
    ensures DotFree(s) <==> Dots(s) == 0
  {
    if s != [] {
      DotFreeHasNoDots(s[1..]);
      assert s == [s[0]] + s[1..];
    }
  }

  /** The relation named by a path: its first segment (`array_shift`). */
  function Head(path: string): string {
    Explode(path)[0]
  }

  /** The remaining segments of a path, each a separate request. */
  function Tail(path: string): seq<string> {
    Explode(path)[1..]
  }

  function Heads(paths: seq<string>): (hs: seq<string>)
    ensures |hs| == |paths|
    ensures forall i :: 0 <= i < |paths| ==> hs[i] == Head(paths[i])
  {
    if paths == [] then [] else Heads(paths[..|paths| - 1]) + [Head(paths[|paths| - 1])]
  }

  /** One iteration of buildNestedRelationsArray's loop. */
  function AddPath(response: OMap<seq<string>>, path: string): OMap<seq<string>> {
    var attr := Head(path);
    match Lookup(response, attr)
    case None => Put(response, attr, Tail(path))
    case Some(earlier) => Put(response, attr, earlier + Tail(path))
  }

  /** The map buildNestedRelationsArray returns for `paths`. */
  function Nest(paths: seq<string>): OMap<seq<string>> {
    if paths == [] then [] else AddPath(Nest(paths[..|paths| - 1]), paths[|paths| - 1])
  }

  /** buildNestedRelationsArray: groups the paths by their first segment. */
  method BuildNestedRelationsArray(relations: seq<string>) returns (response: OMap<seq<string>>)
    ensures response == Nest(relations)
  {
    response := [];
    for i := 0 to |relations|
      invariant response == Nest(relations[..i])
    {
      var nestedRelations := Explode(relations[i]);
      var attr := nestedRelations[0];
      nestedRelations := nestedRelations[1..];
      var earlier := Lookup(response, attr);
      if earlier.None? {
        response := Put(response, attr, nestedRelations);
      } else {
        response := Put(response, attr, earlier.value + nestedRelations);
      }
      NestStep(relations, i);
    }
    assert relations[..|relations|] == relations;
  }

  lemma NestStep(paths: seq<string>, i: nat)
    requires i < |paths|
    ensures Nest(paths[..i + 1]) == AddPath(Nest(paths[..i]), paths[i])
  {
    assert paths[..i + 1][..i] == paths[..i];
  }

  /** Reference value of one key: the tails of every path whose first segment
      is `name`, concatenated in order. */
  function Gathered(paths: seq<string>, name: string): seq<string> {
    if paths == [] then []
    else
      var last := paths[|paths| - 1];
      Gathered(paths[..|paths| - 1], name) + (if Head(last) == name then Tail(last) else [])
  }

  lemma {:induction false} GatheredAbsent(paths: seq<string>, name: string)
    requires name !in Heads(paths)
    ensures Gathered(paths, name) == []
  {
    if paths != [] {
      assert Heads(paths[..|paths| - 1]) == Heads(paths)[..|paths| - 1];
      GatheredAbsent(paths[..|paths| - 1], name);
    }
  }

  /** The keys are the distinct first segments, in order of first appearance. */
  lemma {:induction false} NestKeys(paths: seq<string>)
    ensures Keys(Nest(paths)) == FirstOccurrences(Heads(paths))
    ensures Distinct(Keys(Nest(paths)))
  {
    if paths != [] {
      var prefix := paths[..|paths| - 1];
      var last := paths[|paths| - 1];
      NestKeys(prefix);
      assert Heads(paths) == Heads(prefix) + [Head(last)];
      var m := Nest(prefix);
      match Lookup(m, Head(last))
      case None => PutKeysExtend(m, Heads(prefix), Head(last), Tail(last));
      case Some(earlier) => PutKeysExtend(m, Heads(prefix), Head(last), earlier + Tail(last));
    }
  }

  /** Each key's list is the in-order concatenation of the remaining segments
      of every path that starts with that key; a name no path starts with is
      absent. */
  lemma {:induction false} NestLookup(paths: seq<string>, name: string)
    ensures Lookup(Nest(paths), name) == if name in Heads(paths) then Some(Gathered(paths, name)) else None
  {
    if paths != [] {
      var prefix := paths[..|paths| - 1];
      var last := paths[|paths| - 1];
      var m := Nest(prefix);
      assert Nest(paths) == AddPath(m, last);
      assert Heads(paths) == Heads(prefix) + [Head(last)];
      var here := if Head(last) == name then Tail(last) else [];
      assert Gathered(paths, name) == Gathered(prefix, name) + here;
      NestLookup(prefix, name);
      if name != Head(last) {
        assert here == [];
        assert Gathered(prefix, name) + [] == Gathered(prefix, name);
        assert Lookup(AddPath(m, last), name) == Lookup(m, name);
      } else if name in Heads(prefix) {
        assert Lookup(AddPath(m, last), name) == Some(Gathered(prefix, name) + Tail(last));
      } else {
        GatheredAbsent(prefix, name);
        assert [] + Tail(last) == Tail(last);
        assert Lookup(AddPath(m, last), name) == Some(Tail(last));
      }
    }
  }

  lemma {:induction false} GatheredDotFree(paths: seq<string>, name: string)
    ensures forall j :: 0 <= j < |Gathered(paths, name)| ==> DotFree(Gathered(paths, name)[j])
  {
    if paths != [] {
      GatheredDotFree(paths[..|paths| - 1], name);
    }
  }

  /** Every requested nested name is dot-free: each comes from `explode('.')`,
      so a path `a.b.c` requests `b` and `c` separately on `a`. */
  lemma NestedDotFree(paths: seq<string>, i: nat)
    requires i < |Nest(paths)|
    ensures forall j :: 0 <= j < |Nest(paths)[i].1| ==> DotFree(Nest(paths)[i].1[j])
  {
    var m := Nest(paths);
    NestKeys(paths);
    LookupAt(m, i);
    NestLookup(paths, m[i].0);
    GatheredDotFree(paths, m[i].0);
  }

  lemma {:induction false} GatheredOfDotFree(paths: seq<string>, name: string)
    requires forall p :: p in paths ==> DotFree(p)
    ensures Gathered(paths, name) == []
  {
    if paths != [] {
      var last := paths[|paths| - 1];
      DotFreeHasNoDots(last);
      GatheredOfDotFree(paths[..|paths| - 1], name);
    }
  }

  /** Total number of nested entries across all keys. */
  function TotalNested(m: OMap<seq<string>>): nat {
    if m == [] then 0 else |m[0].1| + TotalNested(m[1..])
  }

  function TotalDots(paths: seq<string>): nat {
    if paths == [] then 0 else TotalDots(paths[..|paths| - 1]) + Dots(paths[|paths| - 1])
  }

  lemma {:induction false} PutTotal(m: OMap<seq<string>>, k: string, v: seq<string>)
    ensures TotalNested(Put(m, k, v)) + |Lookup(m, k).GetOr([])| == TotalNested(m) + |v|
  {
    if m != [] && m[0].0 != k {
      PutTotal(m[1..], k, v);
      assert Put(m, k, v)[1..] == Put(m[1..], k, v);
    } else if m != [] {
      assert Put(m, k, v)[1..] == m[1..];
    }
  }

  /** Nothing is lost or invented: the nested lists hold, in total, one entry
      per dot in the requested paths. */
  lemma {:induction false} NestCount(paths: seq<string>)
    ensures TotalNested(Nest(paths)) == TotalDots(paths)
  {
    if paths != [] {
      var prefix := paths[..|paths| - 1];
      var last := paths[|paths| - 1];
      NestCount(prefix);
      var m := Nest(prefix);
      match Lookup(m, Head(last))
      case None => PutTotal(m, Head(last), Tail(last));
      case Some(earlier) => PutTotal(m, Head(last), earlier + Tail(last));
    }
  }

  /** How many relation levels a request list can still open: none for an
      empty list, one when every path is a bare name, two otherwise. */
  function Depth(with: seq<string>): nat {
    if with == [] then 0 else if forall p :: p in with ==> DotFree(p) then 1 else 2
  }

  /** One more than the deepest nested list among the entries (0 for none). */
  function EntriesDepth(entries: OMap<seq<string>>): nat {
    if entries == [] then 0
    else
      var earlier := EntriesDepth(entries[..|entries| - 1]);
      var here := Depth(entries[|entries| - 1].1) + 1;
      if earlier < here then here else earlier
  }

  lemma {:induction false} EntriesDepthCovers(entries: OMap<seq<string>>, i: nat)
    requires i < |entries|
    ensures Depth(entries[i].1) + 1 <= EntriesDepth(entries)
  {
    if i < |entries| - 1 {
      EntriesDepthCovers(entries[..|entries| - 1], i);
    }
  }

  lemma {:induction false} EntriesDepthBound(entries: OMap<seq<string>>, d: nat)
    requires forall i :: 0 <= i < |entries| ==> Depth(entries[i].1) + 1 <= d
    ensures EntriesDepth(entries) <= d
  {
    if entries != [] {
      EntriesDepthBound(entries[..|entries| - 1], d);
    }
  }

  /** Parsing never deepens a request: the nested lists are dot-free, and
      when every path is a bare name they are all empty. */
  lemma NestDepth(with: seq<string>)
    ensures EntriesDepth(Nest(with)) <= Depth(with)
  {
    var m := Nest(with);
    if with != [] {
      forall i | 0 <= i < |m|
        ensures Depth(m[i].1) + 1 <= Depth(with)
      {
        NestedDotFree(with, i);
        if forall p :: p in with ==> DotFree(p) {
          NestKeys(with);
          LookupAt(m, i);
          NestLookup(with, m[i].0);
          GatheredOfDotFree(with, m[i].0);
        }
      }
      EntriesDepthBound(m, Depth(with));
    }
  }

  /** The serialisation opens at most two relation levels: the requests
      passed to a related entity carry no further requests of their own. */
  lemma TwoLevels(with: seq<string>, i: nat, j: nat)
    requires i < |Nest(with)|
    requires j < |Nest(Nest(with)[i].1)|
    ensures Nest(Nest(with)[i].1)[j].1 == []
  {
    var nested := Nest(with)[i].1;
    NestedDotFree(with, i);
    var m := Nest(nested);
    NestKeys(nested);
    LookupAt(m, j);
    NestLookup(nested, m[j].0);
    GatheredOfDotFree(nested, m[j].0);
  }

  /** A bare name is requested with an empty list of nested relations. */
  lemma BareName(name: string)
    requires DotFree(name)
    ensures Nest([name]) == [(name, [])]
  {
    ExplodeImplode([name]);
    assert Implode([name]) == name;
    assert Explode(name) == [name];
    assert [name][..0] == [];
    assert Head(name) == name && Tail(name) == [];
    var empty: OMap<seq<string>> := [];
    assert Lookup(empty, name) == None;
    assert Nest([name]) == AddPath([], name) == Put([], name, []);
  }

  /** Two paths with the same first segment merge into one key whose list
      holds both remainders in order (`['user.friend', 'user.family']` gives
      `['user' => ['friend', 'family']]`). */
  lemma SharedHeadMerges(p: string, q: string)
    requires Head(p) == Head(q)
    ensures Nest([p, q]) == [(Head(p), Tail(p) + Tail(q))]
  {
    assert [p, q][..1] == [p];
    assert [p][..0] == [];
    assert Nest([p]) == [(Head(p), Tail(p))];
  }
}
