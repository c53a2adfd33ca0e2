/** The binders themselves, walking Go maps in an arbitrary order. */
module Binder {
  import opened Text
  import opened BinderTypes
  import opened BinderSpec
  import opened BinderRoundTrip

  /** The map that Unbind fills in place. */
  class Output {
    var entries: map<string, string>

    constructor ()
      ensures entries == map[]
    {
      entries := map[];
    }
  }

  // ---------- Unbind ----------

  lemma WrittenThen(a: map<string, string>, b: map<string, string>, c: map<string, string>, l: set<Pair>, m: set<Pair>)
    requires Written(a, b, l) && Written(b, c, m)
    ensures Written(a, c, l + m)
  {
    assert KeysOf(l + m) == KeysOf(l) + KeysOf(m) by {
      forall k | k in KeysOf(l) + KeysOf(m) ensures k in KeysOf(l + m) {
        var p :| (p in l || p in m) && p.0 == k;
        assert p in l + m;
      }
    }
  }

  method Unbind(output: Output, name: string, t: Type, v: Value)
    requires HasType(v, t)
    modifies output
    ensures Written(old(output.entries), output.entries, Leaves(name, t, v))
    decreases t, 1
  {
    match t
    case Scalar(_) => output.entries := output.entries[name := AtomText(v.atom)];
    case Slice(elem) => UnbindSlice(output, name, elem, v);
    case Struct(_) => UnbindStruct(output, name, t, v);
    case Map(_, _) => UnbindMap(output, name, t, v);
  }

  method UnbindSlice(output: Output, name: string, elem: Type, v: Value)
    requires HasType(v, Slice(elem))
    modifies output
    ensures Written(old(output.entries), output.entries, Leaves(name, Slice(elem), v))
    decreases elem, 2
  {
    for n := 0 to |v.elems|
      invariant Written(old(output.entries), output.entries, Leaves(name, Slice(elem), List(v.elems[..n])))
    {
      ghost var before := output.entries;
      Unbind(output, ElementName(name, n), elem, v.elems[n]);
      SliceLeavesStep(name, elem, v.elems, n);
      WrittenThen(old(output.entries), before, output.entries, Leaves(name, Slice(elem), List(v.elems[..n])),
                  Leaves(ElementName(name, n), elem, v.elems[n]));
    }
    assert v.elems[..|v.elems|] == v.elems;
  }

  lemma SliceLeavesStep(name: string, elem: Type, es: seq<Value>, n: nat)
    requires n < |es|
    ensures Leaves(name, Slice(elem), List(es[..n + 1]))
         == Leaves(name, Slice(elem), List(es[..n])) + Leaves(ElementName(name, n), elem, es[n])
  {
    var before, after, part := Leaves(name, Slice(elem), List(es[..n])), Leaves(name, Slice(elem), List(es[..n + 1])),
                               Leaves(ElementName(name, n), elem, es[n]);
    forall l | l in after ensures l in before + part {
      var i :| 0 <= i < n + 1 && l in Leaves(ElementName(name, i), elem, es[..n + 1][i]);
      assert i < n ==> es[..n][i] == es[..n + 1][i];
    }
    forall l | l in before ensures l in after {
      var i :| 0 <= i < n && l in Leaves(ElementName(name, i), elem, es[..n][i]);
      assert es[..n][i] == es[..n + 1][i];
    }
    assert es[..n + 1][n] == es[n];
  }

  method UnbindStruct(output: Output, name: string, t: Type, v: Value)
    requires t.Struct? && HasType(v, t)
    modifies output
    ensures Written(old(output.entries), output.entries, Leaves(name, t, v))
    decreases t, 0
  {
    ghost var done: set<Pair> := {};
    for n := 0 to |t.fields|
      invariant forall l :: l in done ==>
                  exists i :: 0 <= i < n && t.fields[i].exported
                              && l in Leaves(FieldName(name, t.fields[i].name), t.fields[i].typ, v.fields[i])
      invariant forall i :: 0 <= i < n && t.fields[i].exported ==>
                  Leaves(FieldName(name, t.fields[i].name), t.fields[i].typ, v.fields[i]) <= done
      invariant Written(old(output.entries), output.entries, done)
    {
      if t.fields[n].exported {
        ghost var before := output.entries;
        Unbind(output, FieldName(name, t.fields[n].name), t.fields[n].typ, v.fields[n]);
        ghost var part := Leaves(FieldName(name, t.fields[n].name), t.fields[n].typ, v.fields[n]);
        WrittenThen(old(output.entries), before, output.entries, done, part);
        done := done + part;
      }
    }
    assert done == Leaves(name, t, v);
  }

  method UnbindMap(output: Output, name: string, t: Type, v: Value)
    requires t.Map? && HasType(v, t)
    modifies output
    ensures Written(old(output.entries), output.entries, Leaves(name, t, v))
    decreases t, 0
  {
    var todo := v.entries.Keys;
    ghost var done: set<Pair> := {};
    while todo != {}
      invariant todo <= v.entries.Keys
      invariant forall l :: l in done ==>
                  exists a :: a in v.entries.Keys - todo && l in Leaves(EntryName(name, AtomText(a)), t.elem, v.entries[a])
      invariant forall a :: a in v.entries.Keys - todo ==>
                  Leaves(EntryName(name, AtomText(a)), t.elem, v.entries[a]) <= done
      invariant Written(old(output.entries), output.entries, done)
    {
      var key :| key in todo;
      ghost var before := output.entries;
      Unbind(output, EntryName(name, AtomText(key)), t.elem, v.entries[key]);
      ghost var part := Leaves(EntryName(name, AtomText(key)), t.elem, v.entries[key]);
      WrittenThen(old(output.entries), before, output.entries, done, part);
      done := done + part;
      todo := todo - {key};
    }
    assert v.entries.Keys - todo == v.entries.Keys;
    assert done == Leaves(name, t, v);
  }

  // ---------- Bind ----------

  method Bind(params: Params, name: string, t: Type) returns (r: Option<Value>)
    requires Supported(t)
    ensures BindsTo(params, name, t, r)
    decreases t, 1
  {
    match t
    case Scalar(s) => r := Some(Leaf(ScalarAt(params, name, s)));
    case Slice(elem) => r := BindSlice(params, name, elem);
    case Struct(_) => r := BindStruct(params, name, t);
    case Map(_, _) => r := BindMap(params, name, t);
  }

  method BindValue(text: string, t: Type) returns (r: Option<Value>)
    requires Supported(t)
    ensures BindsTo(Single(text), "", t, r)
    decreases t, 2
  {
    r := Bind(Single(text), "", t);
  }

  /** FieldByName: the position of a field, if the struct has it. */
  function FindField(fields: seq<Field>, name: string): (r: Option<nat>)
    ensures r.Some? ==> r.value < |fields| && fields[r.value].name == name
    ensures r.None? ==> forall i :: 0 <= i < |fields| ==> fields[i].name != name
  {
    if fields == [] then None
    else if fields[0].name == name then Some(0)
    else match FindField(fields[1..], name)
      case None => None
      case Some(i) => Some(i + 1)
  }

  /** Some parameter among `keys` belongs to the named field. */
  ghost predicate MentionedIn(keys: set<string>, name: string, field: string) {
    exists k :: k in keys && name + "." <= k && NextKey(k[|name| + 1..]) == field
  }

  /** The state of bindStruct after walking `done`: bound fields are bound, the rest are zero. */
  ghost predicate FieldsBound(params: Params, name: string, t: Type, done: set<string>, bound: set<string>,
                              vs: seq<Value>)
    requires t.Struct?
  {
    && |vs| == |t.fields|
    && (forall i :: 0 <= i < |vs| && t.fields[i].exported ==>
          (t.fields[i].name in bound <==> MentionedIn(done, name, t.fields[i].name)))
    && (forall i :: 0 <= i < |vs| ==>
          if t.fields[i].exported && t.fields[i].name in bound
          then BindsTo(params, FieldName(name, t.fields[i].name), t.fields[i].typ, Some(vs[i]))
          else vs[i] == Zero(t.fields[i].typ))
  }

  lemma MentionStep(done: set<string>, key: string, name: string, field: string)
    ensures MentionedIn(done + {key}, name, field) <==>
              MentionedIn(done, name, field) || (name + "." <= key && field == NextKey(key[|name| + 1..]))
  {
    assert key in done + {key};
    if MentionedIn(done, name, field) {
      var k :| k in done && name + "." <= k && NextKey(k[|name| + 1..]) == field;
      assert k in done + {key};
    }
  }

  lemma FieldBound(params: Params, name: string, t: Type, done: set<string>, bound: set<string>, vs: seq<Value>,
                   key: string, i: nat, v: Value)
    requires t.Struct? && Supported(t) && FieldsBound(params, name, t, done, bound, vs)
    requires i < |t.fields| && t.fields[i].exported
    requires name + "." <= key && NextKey(key[|name| + 1..]) == t.fields[i].name
    requires BindsTo(params, FieldName(name, t.fields[i].name), t.fields[i].typ, Some(v))
    ensures FieldsBound(params, name, t, done + {key}, bound + {t.fields[i].name}, vs[i := v])
  {
    forall j | 0 <= j < |t.fields| { MentionStep(done, key, name, t.fields[j].name); }
  }

  lemma FieldSkipped(params: Params, name: string, t: Type, done: set<string>, bound: set<string>, vs: seq<Value>,
                     key: string)
    requires t.Struct? && Supported(t) && FieldsBound(params, name, t, done, bound, vs)
    requires name + "." <= key ==>
               var field := FindField(t.fields, NextKey(key[|name| + 1..]));
               NextKey(key[|name| + 1..]) in bound || field.None? || !t.fields[field.value].exported
    ensures FieldsBound(params, name, t, done + {key}, bound, vs)
  {
    forall j | 0 <= j < |t.fields| { MentionStep(done, key, name, t.fields[j].name); }
  }

  lemma FieldNameOf(name: string, key: string)
    requires name + "." <= key
    ensures var f := NextKey(key[|name| + 1..]);
      |name| + 1 + |f| <= |key| && key[..|name| + 1 + |f|] == FieldName(name, f)
  {
    assert key == name + "." + key[|name| + 1..];
  }

  lemma FieldPanics(params: Params, name: string, t: Type, key: string, i: nat)
    requires t.Struct? && i < |t.fields| && t.fields[i].exported
    requires key in params && name + "." <= key && NextKey(key[|name| + 1..]) == t.fields[i].name
    requires BindsTo(params, FieldName(name, t.fields[i].name), t.fields[i].typ, None)
    ensures BindsTo(params, name, t, None)
  {
    assert Mentions(params, name, t.fields[i].name);
  }

  /** Binds the field whose name follows in the key. */
  method BindField(params: Params, name: string, f: Field, key: string) returns (bound: Option<Value>)
    requires Supported(f.typ) && name + "." <= key && NextKey(key[|name| + 1..]) == f.name
    ensures BindsTo(params, FieldName(name, f.name), f.typ, bound)
    decreases f.typ, 2
  {
    FieldNameOf(name, key);
    bound := Bind(params, key[..|name| + 1 + |f.name|], f.typ);
  }

  method BindStruct(params: Params, name: string, t: Type) returns (r: Option<Value>)
    requires t.Struct? && Supported(t)
    ensures BindsTo(params, name, t, r)
    decreases t, 0
  {
    var result := Zero(t).fields;
    var fieldValues: set<string> := {};
    var todo := params.Keys;
    ghost var done: set<string> := {};
    while todo != {}
      invariant todo <= params.Keys && done == params.Keys - todo
      invariant FieldsBound(params, name, t, done, fieldValues, result)
    {
      var key :| key in todo;
      var fieldName := if name + "." <= key then NextKey(key[|name| + 1..]) else "";
      var field := FindField(t.fields, fieldName);
      if name + "." <= key && fieldName !in fieldValues && field.Some? && t.fields[field.value].exported {
        var bound := BindField(params, name, t.fields[field.value], key);
        if bound.None? {
          FieldPanics(params, name, t, key, field.value);
          return None;
        }
        FieldBound(params, name, t, done, fieldValues, result, key, field.value, bound.value);
        result := result[field.value := bound.value];
        fieldValues := fieldValues + {fieldName};
      } else {
        FieldSkipped(params, name, t, done, fieldValues, result, key);
      }
      todo, done := todo - {key}, done + {key};
    }
    assert done == params.Keys;
    AllFieldsBound(params, name, t, fieldValues, result);
    return Some(Record(result));
  }

  lemma AllFieldsBound(params: Params, name: string, t: Type, bound: set<string>, vs: seq<Value>)
    requires t.Struct? && FieldsBound(params, name, t, params.Keys, bound, vs)
    ensures BindsTo(params, name, t, Some(Record(vs)))
  {
    forall i | 0 <= i < |t.fields|
      ensures MentionedIn(params.Keys, name, t.fields[i].name) <==> Mentions(params, name, t.fields[i].name)
    {
    }
  }

  ghost function ParsedKeys(key: ScalarType, fields: set<string>): set<Atom> {
    set f | f in fields :: ParseAtom(key, f)
  }

  /** The state of bindMap after walking `done`. */
  ghost predicate EntriesBound(params: Params, name: string, t: Type, done: set<string>, m: map<Atom, Value>)
    requires t.Map?
  {
    && name !in done
    && m.Keys == ParsedKeys(t.key, MapFields(done, name))
    && AllFrom(params, name, t, done, m)
  }

  ghost predicate AllFrom(params: Params, name: string, t: Type, done: set<string>, m: map<Atom, Value>)
    requires t.Map?
  {
    forall a {:trigger EntryFrom(params, name, t, done, a, m[a])} :: a in m ==> EntryFrom(params, name, t, done, a, m[a])
  }

  /** The entry was bound from one of the parameters in `done`. */
  ghost predicate EntryFrom(params: Params, name: string, t: Type, done: set<string>, a: Atom, v: Value)
    requires t.Map?
  {
    exists f :: f in MapFields(done, name) && ParseAtom(t.key, f) == a && BindsTo(params, EntryName(name, f), t.elem, Some(v))
  }

  lemma EntryFromMore(params: Params, name: string, t: Type, done: set<string>, key: string, a: Atom, v: Value)
    requires t.Map? && EntryFrom(params, name, t, done, a, v)
    ensures EntryFrom(params, name, t, done + {key}, a, v)
  {
    var f :| f in MapFields(done, name) && ParseAtom(t.key, f) == a
             && BindsTo(params, EntryName(name, f), t.elem, Some(v));
    MapFieldsStep(done, key, name);
    assert f in MapFields(done + {key}, name);
  }

  lemma AllEntriesBound(params: Params, name: string, t: Type, m: map<Atom, Value>)
    requires t.Map? && EntriesBound(params, name, t, params.Keys, m)
    ensures BindsTo(params, name, t, Some(Dict(m)))
  {
    forall a | a in m
      ensures exists f :: f in MapFields(params.Keys, name) && ParseAtom(t.key, f) == a
                          && BindsTo(params, EntryName(name, f), t.elem, Some(m[a]))
    {
      assert EntryFrom(params, name, t, params.Keys, a, m[a]);
    }
  }

  lemma MapFieldsStep(done: set<string>, key: string, name: string)
    ensures MapFields(done + {key}, name) == MapFields(done, name)
              + if name <= key && |name| < |key| && MapField(name, key).Some? then {MapField(name, key).value} else {}
  {
    var now, was := MapFields(done + {key}, name), MapFields(done, name);
    forall f | f in was ensures f in now {
      var k :| k in done && name <= k && |name| < |k| && MapField(name, k) == Some(f);
      assert k in done + {key};
    }
    assert key in done + {key};
  }

  lemma ParsedKeysStep(key: ScalarType, fields: set<string>, field: string)
    ensures ParsedKeys(key, fields + {field}) == ParsedKeys(key, fields) + {ParseAtom(key, field)}
  {
  }

  /** An entry that is written over, or was there before, comes from a parameter walked. */
  lemma EntriesStillFrom(params: Params, name: string, t: Type, done: set<string>, m: map<Atom, Value>, key: string,
                         field: string, v: Value)
    requires t.Map? && AllFrom(params, name, t, done, m) && field in MapFields(done + {key}, name)
    requires BindsTo(params, EntryName(name, field), t.elem, Some(v))
    ensures AllFrom(params, name, t, done + {key}, m[ParseAtom(t.key, field) := v])
  {
    var m' := m[ParseAtom(t.key, field) := v];
    forall a | a in m' ensures EntryFrom(params, name, t, done + {key}, a, m'[a]) {
      if a != ParseAtom(t.key, field) {
        assert EntryFrom(params, name, t, done, a, m[a]);
        EntryFromMore(params, name, t, done, key, a, m[a]);
      }
    }
  }

  lemma EntryBound(params: Params, name: string, t: Type, done: set<string>, m: map<Atom, Value>, key: string, v: Value)
    requires t.Map? && EntriesBound(params, name, t, done, m)
    requires name <= key && |name| < |key| && MapField(name, key).Some?
    requires BindsTo(params, EntryName(name, MapField(name, key).value), t.elem, Some(v))
    ensures EntriesBound(params, name, t, done + {key}, m[ParseAtom(t.key, MapField(name, key).value) := v])
  {
    var field := MapField(name, key).value;
    MapFieldsStep(done, key, name);
    ParsedKeysStep(t.key, MapFields(done, name), field);
    EntriesStillFrom(params, name, t, done, m, key, field, v);
    assert m[ParseAtom(t.key, field) := v].Keys == m.Keys + {ParseAtom(t.key, field)};
  }

  lemma EntrySkipped(params: Params, name: string, t: Type, done: set<string>, m: map<Atom, Value>, key: string)
    requires t.Map? && EntriesBound(params, name, t, done, m) && key != name
    requires name <= key ==> MapField(name, key).None?
    ensures EntriesBound(params, name, t, done + {key}, m)
  {
    MapFieldsStep(done, key, name);
    assert MapFields(done + {key}, name) == MapFields(done, name);
    forall a | a in m ensures EntryFrom(params, name, t, done + {key}, a, m[a]) {
      assert EntryFrom(params, name, t, done, a, m[a]);
    }
  }

  lemma EntryPanics(params: Params, name: string, t: Type, key: string)
    requires t.Map? && key in params && name <= key && |name| < |key| && MapField(name, key).Some?
    requires BindsTo(params, EntryName(name, MapField(name, key).value), t.elem, None)
    ensures BindsTo(params, name, t, None)
  {
    assert MapField(name, key).value in MapFields(params.Keys, name);
  }

  /** What one parameter does to the map; None is a panic. */
  method BindEntry(params: Params, name: string, t: Type, m: map<Atom, Value>, key: string, ghost done: set<string>)
    returns (r: Option<map<Atom, Value>>)
    requires t.Map? && Supported(t) && key in params && EntriesBound(params, name, t, done, m)
    ensures if r.Some? then EntriesBound(params, name, t, done + {key}, r.value) else BindsTo(params, name, t, None)
    decreases t.elem, 2
  {
    if key == name {
      return None;
    }
    var field := if name <= key then MapField(name, key) else None;
    if field.None? {
      EntrySkipped(params, name, t, done, m, key);
      return Some(m);
    }
    var bound := Bind(params, EntryName(name, field.value), t.elem);
    if bound.None? {
      EntryPanics(params, name, t, key);
      return None;
    }
    EntryBound(params, name, t, done, m, key, bound.value);
    return Some(m[ParseAtom(t.key, field.value) := bound.value]);
  }

  method BindMap(params: Params, name: string, t: Type) returns (r: Option<Value>)
    requires t.Map? && Supported(t)
    ensures BindsTo(params, name, t, r)
    decreases t, 0
  {
    var entries := BindEntries(params, name, t);
    if entries.None? {
      return None;
    }
    AllEntriesBound(params, name, t, entries.value);
    return Some(Dict(entries.value));
  }

  /** The loop over the parameters. */
  method BindEntries(params: Params, name: string, t: Type) returns (r: Option<map<Atom, Value>>)
    requires t.Map? && Supported(t)
    ensures if r.Some? then EntriesBound(params, name, t, params.Keys, r.value) else BindsTo(params, name, t, None)
    decreases t.elem, 3
  {
    var result: map<Atom, Value> := map[];
    var todo := params.Keys;
    ghost var done: set<string> := {};
    while todo != {}
      invariant todo <= params.Keys && done == params.Keys - todo
      invariant EntriesBound(params, name, t, done, result)
    {
      var paramName :| paramName in todo;
      var entry := BindEntry(params, name, t, result, paramName, done);
      if entry.None? {
        return None;
      }
      result := entry.value;
      todo, done := todo - {paramName}, done + {paramName};
    }
    assert done == params.Keys;
    return Some(result);
  }

  // ---------- slices ----------

  /** An element found while walking the parameters; the index is -1 if none was given. */
  datatype SliceValue = SliceValue(index: int, value: Value)

  /** The values without an index, in the order they were found. */
  function Loose(found: seq<SliceValue>): seq<Value> {
    if found == [] then []
    else
      var last := found[|found| - 1];
      Loose(found[..|found| - 1]) + if last.index == -1 then [last.value] else []
  }

  lemma LooseAppend(found: seq<SliceValue>, sv: SliceValue)
    ensures Loose(found + [sv]) == Loose(found) + if sv.index == -1 then [sv.value] else []
  {
    assert (found + [sv])[..|found|] == found;
  }

  lemma FlattenAppend(params: Params, order: seq<string>, key: string)
    requires key in params
    ensures Flatten(params, order + [key]) == Flatten(params, order) + params[key]
  {
    assert (order + [key])[..|order|] == order;
  }

  /** Each text bound on its own gives the value at the same place. */
  ghost predicate AllBound(texts: seq<string>, elem: Type, vs: seq<Value>) {
    |texts| == |vs| && forall j :: 0 <= j < |texts| ==> BindsTo(Single(texts[j]), "", elem, Some(vs[j]))
  }

  /** The index and the sub-key of an indexed parameter. */
  type Source = (int, string)

  ghost function Sources(name: string, keys: set<string>): set<Source> {
    set k | k in keys :: (SliceIndex(name, k), SubKey(name, k))
  }

  /** Which values the parameters below a key may bind to. */
  ghost function Binds(params: Params, elem: Type): (string, Value) -> bool {
    (key, v) => BindsTo(params, key, elem, Some(v))
  }

  /** What the first loop of bindSlice knows once the parameters behind `sources` have been walked. */
  ghost predicate Found(binds: (string, Value) -> bool, sources: set<Source>, maxIndex: int, found: seq<SliceValue>) {
    Reach(sources, maxIndex, found) && Covered(sources, found) && AllFromSources(binds, sources, found)
  }

  ghost predicate Reach(sources: set<Source>, maxIndex: int, found: seq<SliceValue>) {
    && -1 <= maxIndex
    && (forall s :: s in sources ==> s.0 <= maxIndex)
    && (maxIndex == -1 || exists s :: s in sources && s.0 == maxIndex)
    && (forall i :: 0 <= i < |found| ==> -1 <= found[i].index <= maxIndex)
  }

  ghost predicate Covered(sources: set<Source>, found: seq<SliceValue>) {
    forall s :: s in sources ==> exists i :: 0 <= i < |found| && found[i].index == s.0
  }

  ghost predicate AllFromSources(binds: (string, Value) -> bool, sources: set<Source>, found: seq<SliceValue>) {
    forall i {:trigger FromSource(binds, sources, found[i])} ::
      0 <= i < |found| && found[i].index != -1 ==> FromSource(binds, sources, found[i])
  }

  /** The element was bound from one of the sources. */
  ghost predicate FromSource(binds: (string, Value) -> bool, sources: set<Source>, sv: SliceValue) {
    exists s :: s in sources && s.0 == sv.index && binds(s.1, sv.value)
  }

  lemma FromSourceMore(binds: (string, Value) -> bool, sources: set<Source>, more: Source, sv: SliceValue)
    requires FromSource(binds, sources, sv)
    ensures FromSource(binds, sources + {more}, sv)
  {
    var s :| s in sources && s.0 == sv.index && binds(s.1, sv.value);
    assert s in sources + {more};
  }

  lemma AllFromSourcesStep(binds: (string, Value) -> bool, sources: set<Source>, found: seq<SliceValue>, s: Source,
                           v: Value)
    requires AllFromSources(binds, sources, found) && binds(s.1, v)
    ensures AllFromSources(binds, sources + {s}, found + [SliceValue(s.0, v)])
  {
    var found' := found + [SliceValue(s.0, v)];
    forall i | 0 <= i < |found'| && found'[i].index != -1 ensures FromSource(binds, sources + {s}, found'[i]) {
      if i < |found| {
        assert FromSource(binds, sources, found[i]);
        FromSourceMore(binds, sources, s, found[i]);
      } else {
        assert s in sources + {s};
      }
    }
  }

  lemma CoveredStep(sources: set<Source>, found: seq<SliceValue>, rest: seq<SliceValue>)
    requires Covered(sources, found)
    ensures Covered(sources, found + rest)
  {
    forall s | s in sources ensures exists i :: 0 <= i < |found + rest| && (found + rest)[i].index == s.0 {
      var i :| 0 <= i < |found| && found[i].index == s.0;
      assert (found + rest)[i] == found[i];
    }
  }

  lemma ReachStep(sources: set<Source>, maxIndex: int, found: seq<SliceValue>, s: Source, v: Value)
    requires Reach(sources, maxIndex, found) && s.0 > -1
    ensures Reach(sources + {s}, Max(maxIndex, s.0), found + [SliceValue(s.0, v)])
  {
    assert s in sources + {s};
    if maxIndex != -1 {
      var q :| q in sources && q.0 == maxIndex;
      assert q in sources + {s};
    }
  }

  lemma FoundIndexed(binds: (string, Value) -> bool, sources: set<Source>, maxIndex: int, found: seq<SliceValue>,
                     s: Source, v: Value)
    requires Found(binds, sources, maxIndex, found) && s.0 > -1 && binds(s.1, v)
    ensures Found(binds, sources + {s}, Max(maxIndex, s.0), found + [SliceValue(s.0, v)])
  {
    ReachStep(sources, maxIndex, found, s, v);
    AllFromSourcesStep(binds, sources, found, s, v);
    CoveredStep(sources, found, [SliceValue(s.0, v)]);
    assert (found + [SliceValue(s.0, v)])[|found|].index == s.0;
  }

  lemma FoundLoose(binds: (string, Value) -> bool, sources: set<Source>, maxIndex: int, found: seq<SliceValue>,
                   rest: seq<SliceValue>)
    requires Found(binds, sources, maxIndex, found)
    requires forall i :: 0 <= i < |rest| ==> rest[i].index == -1
    ensures Found(binds, sources, maxIndex, found + rest)
  {
    ReachLoose(sources, maxIndex, found, rest);
    CoveredStep(sources, found, rest);
    AllFromSourcesLoose(binds, sources, found, rest);
  }

  lemma ReachLoose(sources: set<Source>, maxIndex: int, found: seq<SliceValue>, rest: seq<SliceValue>)
    requires Reach(sources, maxIndex, found)
    requires forall i :: 0 <= i < |rest| ==> rest[i].index == -1
    ensures Reach(sources, maxIndex, found + rest)
  {
  }

  lemma AllFromSourcesLoose(binds: (string, Value) -> bool, sources: set<Source>, found: seq<SliceValue>,
                            rest: seq<SliceValue>)
    requires AllFromSources(binds, sources, found)
    requires forall i :: 0 <= i < |rest| ==> rest[i].index == -1
    ensures AllFromSources(binds, sources, found + rest)
  {
    forall i | 0 <= i < |found + rest| && (found + rest)[i].index != -1
      ensures FromSource(binds, sources, (found + rest)[i])
    {
      assert FromSource(binds, sources, found[i]);
    }
  }

  function Max(a: int, b: int): int {
    if a < b then b else a
  }

  function Values(found: seq<SliceValue>): seq<Value> {
    seq(|found|, i requires 0 <= i < |found| => found[i].value)
  }

  lemma {:induction false} LooseConcat(found: seq<SliceValue>, rest: seq<SliceValue>)
    requires forall i :: 0 <= i < |rest| ==> rest[i].index == -1
    ensures Loose(found + rest) == Loose(found) + Values(rest)
  {
    if rest == [] {
      assert found + rest == found;
    } else {
      var init := rest[..|rest| - 1];
      assert (found + rest)[..|found + rest| - 1] == found + init;
      LooseConcat(found, init);
    }
  }

  /** The values of a key such as ul[] are each bound on their own. */
  method BindUnindexed(vals: seq<string>, elem: Type) returns (r: Option<seq<SliceValue>>)
    requires Supported(elem)
    ensures r.None? ==> exists j :: 0 <= j < |vals| && BindsTo(Single(vals[j]), "", elem, None)
    ensures r.Some? ==> (forall i :: 0 <= i < |r.value| ==> r.value[i].index == -1) && AllBound(vals, elem, Values(r.value))
    decreases elem, 3
  {
    var out: seq<SliceValue> := [];
    for n := 0 to |vals|
      invariant |out| == n
      invariant forall i :: 0 <= i < n ==> out[i].index == -1 && BindsTo(Single(vals[i]), "", elem, Some(out[i].value))
    {
      var bound := BindValue(vals[n], elem);
      if bound.None? {
        return None;
      }
      out := out + [SliceValue(-1, bound.value)];
    }
    return Some(out);
  }

  /** The second loop of bindSlice: every indexed value goes to its slot, the others are appended. */
  method PlaceValues(length: nat, elem: Type, found: seq<SliceValue>) returns (slots: seq<Value>)
    requires forall i :: 0 <= i < |found| ==> -1 <= found[i].index < length
    ensures |slots| == length + |Loose(found)| && slots[length..] == Loose(found)
    ensures forall i :: 0 <= i < length ==> Placed(elem, found, i, slots[i])
  {
    slots := seq(length, _ => Zero(elem));
    for n := 0 to |found|
      invariant |slots| == length + |Loose(found[..n])| && slots[length..] == Loose(found[..n])
      invariant forall i :: 0 <= i < length ==> Placed(elem, found[..n], i, slots[i])
    {
      ghost var before := slots;
      assert found[..n + 1] == found[..n] + [found[n]];
      LooseAppend(found[..n], found[n]);
      if found[n].index != -1 {
        slots := slots[found[n].index := found[n].value];
      } else {
        slots := slots + [found[n].value];
      }
      forall i | 0 <= i < length ensures Placed(elem, found[..n + 1], i, slots[i]) {
        PlacedStep(elem, found, n, i, before[i], slots[i]);
      }
    }
    assert found[..|found|] == found;
  }

  /** The slot holds one of the values found for it, or zero if there is none. */
  ghost predicate Placed(elem: Type, found: seq<SliceValue>, i: int, v: Value) {
    if exists j :: 0 <= j < |found| && found[j].index == i
    then exists j :: 0 <= j < |found| && found[j].index == i && found[j].value == v
    else v == Zero(elem)
  }

  lemma PlacedStep(elem: Type, found: seq<SliceValue>, n: nat, i: nat, before: Value, after: Value)
    requires n < |found| && Placed(elem, found[..n], i, before)
    requires after == if found[n].index == i then found[n].value else before
    ensures Placed(elem, found[..n + 1], i, after)
  {
    var was, now := found[..n], found[..n + 1];
    assert now[n] == found[n];
    if found[n].index != i && (exists j :: 0 <= j < n && was[j].index == i) {
      var j :| 0 <= j < n && was[j].index == i && was[j].value == before;
      assert now[j] == was[j];
    } else if found[n].index != i {
      assert forall j :: 0 <= j < n ==> now[j] == was[j];
    }
  }

  /** Slots filled from what was found in every parameter are what Bind may return. */
  lemma PlacedIsSlot(params: Params, name: string, elem: Type, maxIndex: int, found: seq<SliceValue>, i: nat, v: Value)
    requires Found(Binds(params, elem), Sources(name, Indexed(params, name)), maxIndex, found) && Placed(elem, found, i, v)
    ensures SlotBindsTo(params, name, elem, i, v)
  {
    var keys := Indexed(params, name);
    forall j | 0 <= j < |found| && found[j].index == i
      ensures exists k :: k in keys && SliceIndex(name, k) == i
                          && BindsTo(params, SubKey(name, k), elem, Some(found[j].value))
    {
      assert FromSource(Binds(params, elem), Sources(name, keys), found[j]);
    }
    forall k | k in keys && SliceIndex(name, k) == i ensures exists j :: 0 <= j < |found| && found[j].index == i {
      assert (SliceIndex(name, k), SubKey(name, k)) in Sources(name, keys);
    }
  }

  /** Everything the first loop of bindSlice has gathered while only `todo` is left to walk. */
  ghost predicate Gathered(params: Params, name: string, elem: Type, todo: set<string>, order: seq<string>,
                           maxIndex: int, numNoIndex: nat, found: seq<SliceValue>)
  {
    && Found(Binds(params, elem), Sources(name, Indexed(params, name) - todo), maxIndex, found)
    && Enumerates(order, Unindexed(params, name) - todo)
    && numNoIndex == |Flatten(params, order)|
    && AllBound(Flatten(params, order), elem, Loose(found))
  }

  lemma GatherIndexed(params: Params, name: string, elem: Type, todo: set<string>, order: seq<string>,
                      maxIndex: int, numNoIndex: nat, found: seq<SliceValue>, key: string, v: Value)
    requires Gathered(params, name, elem, todo, order, maxIndex, numNoIndex, found)
    requires key in Indexed(params, name) && key in todo
    requires BindsTo(params, SubKey(name, key), elem, Some(v))
    ensures Gathered(params, name, elem, todo - {key}, order, Max(maxIndex, SliceIndex(name, key)), numNoIndex,
                     found + [SliceValue(SliceIndex(name, key), v)])
  {
    KeyIsOneKind(params, name, todo, key);
    var source := (SliceIndex(name, key), SubKey(name, key));
    FoundIndexed(Binds(params, elem), Sources(name, Indexed(params, name) - todo), maxIndex, found, source, v);
    assert Indexed(params, name) - (todo - {key}) == Indexed(params, name) - todo + {key};
    assert Sources(name, Indexed(params, name) - todo + {key}) == Sources(name, Indexed(params, name) - todo) + {source};
    LooseAppend(found, SliceValue(SliceIndex(name, key), v));
  }

  /** A key is indexed, un-indexed, or of no concern to the slice. */
  lemma KeyIsOneKind(params: Params, name: string, todo: set<string>, key: string)
    requires key in todo && key in params
    ensures key !in Indexed(params, name) ==> Indexed(params, name) - (todo - {key}) == Indexed(params, name) - todo
    ensures key !in Unindexed(params, name) ==> Unindexed(params, name) - (todo - {key}) == Unindexed(params, name) - todo
    ensures key in Unindexed(params, name) ==>
              Unindexed(params, name) - (todo - {key}) == Unindexed(params, name) - todo + {key}
    ensures key !in Indexed(params, name) || key !in Unindexed(params, name)
  {
  }

  lemma EnumeratesOneMore(order: seq<string>, keys: set<string>, key: string)
    requires Enumerates(order, keys) && key !in keys
    ensures Enumerates(order + [key], keys + {key})
  {
    assert forall k :: k in order + [key] <==> k in order || k == key;
  }

  lemma AllBoundConcat(elem: Type, a: seq<string>, va: seq<Value>, b: seq<string>, vb: seq<Value>)
    requires AllBound(a, elem, va) && AllBound(b, elem, vb)
    ensures AllBound(a + b, elem, va + vb)
  {
  }

  lemma GatherUnindexed(params: Params, name: string, elem: Type, todo: set<string>, order: seq<string>,
                        maxIndex: int, numNoIndex: nat, found: seq<SliceValue>, key: string, rest: seq<SliceValue>)
    requires Gathered(params, name, elem, todo, order, maxIndex, numNoIndex, found)
    requires key in Unindexed(params, name) && key in todo
    requires (forall i :: 0 <= i < |rest| ==> rest[i].index == -1) && AllBound(params[key], elem, Values(rest))
    ensures Gathered(params, name, elem, todo - {key}, order + [key], maxIndex, numNoIndex + |params[key]|, found + rest)
  {
    KeyIsOneKind(params, name, todo, key);
    EnumeratesOneMore(order, Unindexed(params, name) - todo, key);
    FlattenAppend(params, order, key);
    LooseConcat(found, rest);
    AllBoundConcat(elem, Flatten(params, order), Loose(found), params[key], Values(rest));
    FoundLoose(Binds(params, elem), Sources(name, Indexed(params, name) - todo), maxIndex, found, rest);
  }

  lemma GatherOther(params: Params, name: string, elem: Type, todo: set<string>, order: seq<string>,
                    maxIndex: int, numNoIndex: nat, found: seq<SliceValue>, key: string)
    requires Gathered(params, name, elem, todo, order, maxIndex, numNoIndex, found)
    requires key in params && key in todo && !(name + "[" <= key)
    ensures Gathered(params, name, elem, todo - {key}, order, maxIndex, numNoIndex, found)
  {
    KeyIsOneKind(params, name, todo, key);
  }

  lemma GatherStart(params: Params, name: string, elem: Type)
    ensures Gathered(params, name, elem, params.Keys, [], -1, 0, [])
  {
  }

  method BindSlice(params: Params, name: string, elem: Type) returns (r: Option<Value>)
    requires Supported(Slice(elem))
    ensures BindsTo(params, name, Slice(elem), r)
    decreases elem, 4
  {
    var maxIndex := -1;
    var numNoIndex: nat := 0;
    var sliceValues: seq<SliceValue> := [];
    var todo := params.Keys;
    ghost var order: seq<string> := [];
    GatherStart(params, name, elem);
    while todo != {}
      invariant todo <= params.Keys
      invariant Gathered(params, name, elem, todo, order, maxIndex, numNoIndex, sliceValues)
    {
      var key :| key in todo;
      if name + "[" <= key && SliceIndex(name, key) > -1 {
        var bound := Bind(params, SubKey(name, key), elem);
        if bound.None? {
          assert key in Indexed(params, name);
          return None;
        }
        GatherIndexed(params, name, elem, todo, order, maxIndex, numNoIndex, sliceValues, key, bound.value);
        if SliceIndex(name, key) > maxIndex {
          maxIndex := SliceIndex(name, key);
        }
        sliceValues := sliceValues + [SliceValue(SliceIndex(name, key), bound.value)];
      } else if name + "[" <= key {
        var rest := BindUnindexed(params[key], elem);
        if rest.None? {
          assert key in Unindexed(params, name);
          return None;
        }
        GatherUnindexed(params, name, elem, todo, order, maxIndex, numNoIndex, sliceValues, key, rest.value);
        numNoIndex := numNoIndex + |params[key]|;
        sliceValues := sliceValues + rest.value;
        order := order + [key];
      } else {
        GatherOther(params, name, elem, todo, order, maxIndex, numNoIndex, sliceValues, key);
      }
      todo := todo - {key};
    }
    if maxIndex + 1 + numNoIndex > MAX_INT64 {
      GatheredTooLong(params, name, elem, order, maxIndex, numNoIndex, sliceValues);
      return None;
    }
    var resultArray := PlaceValues(maxIndex + 1, elem, sliceValues);
    GatheredIsBound(params, name, elem, order, maxIndex, numNoIndex, sliceValues, resultArray);
    return Some(List(resultArray));
  }

  lemma GatheredExtent(params: Params, name: string, elem: Type, order: seq<string>, maxIndex: int, numNoIndex: nat,
                       found: seq<SliceValue>)
    requires Gathered(params, name, elem, {}, order, maxIndex, numNoIndex, found)
    ensures IsExtent(params, name, maxIndex + 1) && Enumerates(order, Unindexed(params, name))
    ensures Found(Binds(params, elem), Sources(name, Indexed(params, name)), maxIndex, found)
  {
    assert Unindexed(params, name) - {} == Unindexed(params, name);
    assert Indexed(params, name) - {} == Indexed(params, name);
    forall k | k in Indexed(params, name)
      ensures (SliceIndex(name, k), SubKey(name, k)) in Sources(name, Indexed(params, name))
    {
    }
    assert forall s :: s in Sources(name, Indexed(params, name)) ==> s.0 <= maxIndex;
  }

  lemma GatheredTooLong(params: Params, name: string, elem: Type, order: seq<string>, maxIndex: int, numNoIndex: nat,
                        found: seq<SliceValue>)
    requires Gathered(params, name, elem, {}, order, maxIndex, numNoIndex, found)
    requires maxIndex + 1 + numNoIndex > MAX_INT64
    ensures SlicePanics(params, name, elem)
  {
    GatheredExtent(params, name, elem, order, maxIndex, numNoIndex, found);
  }

  lemma SlicePieces(params: Params, name: string, elem: Type, slots: seq<Value>, m: nat, order: seq<string>)
    requires IsExtent(params, name, m) && Enumerates(order, Unindexed(params, name))
    requires m + |Flatten(params, order)| <= MAX_INT64 && m <= |slots|
    requires AllBound(Flatten(params, order), elem, slots[m..])
    requires forall i {:trigger SlotBindsTo(params, name, elem, i, slots[i])} ::
               0 <= i < m ==> SlotBindsTo(params, name, elem, i, slots[i])
    ensures SliceBindsTo(params, name, elem, List(slots))
  {
    var flat := Flatten(params, order);
    forall j | 0 <= j < |flat| ensures BindsTo(Single(flat[j]), "", elem, Some(slots[m + j])) {
      assert slots[m + j] == slots[m..][j];
    }
    assert SliceMadeOf(params, name, elem, slots, m, order);
  }

  lemma GatheredIsBound(params: Params, name: string, elem: Type, order: seq<string>, maxIndex: int, numNoIndex: nat,
                        found: seq<SliceValue>, slots: seq<Value>)
    requires Gathered(params, name, elem, {}, order, maxIndex, numNoIndex, found)
    requires maxIndex + 1 + numNoIndex <= MAX_INT64
    requires |slots| == maxIndex + 1 + |Loose(found)| && slots[maxIndex + 1..] == Loose(found)
    requires forall i :: 0 <= i < maxIndex + 1 ==> Placed(elem, found, i, slots[i])
    ensures SliceBindsTo(params, name, elem, List(slots))
  {
    GatheredExtent(params, name, elem, order, maxIndex, numNoIndex, found);
    var m: nat := maxIndex + 1;
    forall i | 0 <= i < m ensures SlotBindsTo(params, name, elem, i, slots[i]) {
      PlacedIsSlot(params, name, elem, maxIndex, found, i, slots[i]);
    }
    SlicePieces(params, name, elem, slots, m, order);
  }

  // ---------- both ways ----------

  /** The unbound form of v, sent as parameters among others that do not concern the name, binds back to v. */
  method UnbindThenBind(name: string, t: Type, v: Value, others: Params) returns (r: Option<Value>)
    requires Supported(t) && HasType(v, t)
    requires forall k :: k in others ==> !Under(name, k)
    ensures r == Some(v) <==> Faithful(t, v)
  {
    var output := new Output();
    Unbind(output, name, t, v);
    var params := others + map k | k in output.entries :: [output.entries[k]];
    LeavesUnder(name, t, v);
    r := Bind(params, name, t);
    RoundTrip(params, name, t, v, r);
  }
}
