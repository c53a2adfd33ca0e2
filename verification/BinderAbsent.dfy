/** What Bind makes of parameters that are absent, incomplete or no numbers. */
module BinderAbsent {
  import opened Text
  import opened BinderTypes
  import opened BinderSpec
  import opened BinderRoundTrip
  import opened NumberText

  // ---------- blank values ----------

  /** Every number is 0, every flag false, every string empty, every slice and map empty, and so in every field. */
  predicate Blank(t: Type, v: Value) {
    match t
    case Scalar(SInt(_)) => v == Leaf(Int(0))
    case Scalar(SUint(_)) => v == Leaf(Uint(0))
    case Scalar(SBool) => v == Leaf(Bool(false))
    case Scalar(SString) => v == Leaf(Str(""))
    case Slice(_) => v == List([])
    case Map(_, _) => v == Dict(map[])
    case Struct(fields) =>
      v.Record? && |v.fields| == |fields| && forall i :: 0 <= i < |fields| ==> Blank(fields[i].typ, v.fields[i])
  }

  lemma {:induction false} ZeroIsBlank(t: Type, v: Value)
    ensures Blank(t, v) <==> v == Zero(t)
    decreases t
  {
    match t
    case Struct(fields) =>
      if v.Record? && |v.fields| == |fields| {
        forall i | 0 <= i < |fields| ensures Blank(fields[i].typ, v.fields[i]) <==> v.fields[i] == Zero(fields[i].typ) {
          ZeroIsBlank(fields[i].typ, v.fields[i]);
        }
        assert v.fields == Zero(t).fields <==> forall i :: 0 <= i < |fields| ==> v.fields[i] == Zero(fields[i].typ);
      }
    case _ =>
  }

  /** No parameter is the name or one of its components. */
  ghost predicate Absent(params: Params, name: string) {
    forall k :: k in params ==> !Under(name, k)
  }

  /** An absent parameter binds to the blank value of its type, and to nothing else. */
  lemma AbsentIsBlank(params: Params, name: string, t: Type, r: Option<Value>)
    requires Absent(params, name)
    ensures BindsTo(params, name, t, r) <==> r.Some? && Blank(t, r.value)
  {
    if r.Some? {
      ZeroIsBlank(t, r.value);
    }
    match t
    case Scalar(_) => assert Under(name, name);
    case Slice(elem) => AbsentSlice(params, name, elem, r);
    case Struct(fields) => AbsentStruct(params, name, t, r);
    case Map(_, _) => AbsentMap(params, name, t, r);
  }

  lemma AbsentSlice(params: Params, name: string, elem: Type, r: Option<Value>)
    requires Absent(params, name)
    ensures BindsTo(params, name, Slice(elem), r) <==> r == Some(List([]))
  {
    NoSliceKeys(params, name);
    if r.Some? {
      EmptySlice(params, name, elem, r.value);
    } else {
      EmptySliceDoesNotPanic(params, name, elem);
    }
  }

  lemma NoSliceKeys(params: Params, name: string)
    requires Absent(params, name)
    ensures Indexed(params, name) == {} == Unindexed(params, name)
  {
    assert forall k :: k in params && name + "[" <= k ==> Under(name, k);
  }

  lemma EmptyEnumerated()
    ensures forall order :: Enumerates(order, {}) <==> order == []
  {
    assert forall order :: Enumerates(order, {}) && order != [] ==> order[0] in order;
  }

  lemma EmptySlice(params: Params, name: string, elem: Type, v: Value)
    requires Indexed(params, name) == {} == Unindexed(params, name)
    ensures SliceBindsTo(params, name, elem, v) <==> v == List([])
  {
    EmptyEnumerated();
    assert Flatten(params, []) == [] && IsExtent(params, name, 0);
    if v == List([]) {
      assert SliceMadeOf(params, name, elem, [], 0, []);
    }
  }

  lemma EmptySliceDoesNotPanic(params: Params, name: string, elem: Type)
    requires Indexed(params, name) == {} == Unindexed(params, name)
    ensures !SlicePanics(params, name, elem)
  {
    EmptyEnumerated();
    assert Flatten(params, []) == [];
  }

  lemma AbsentStruct(params: Params, name: string, t: Type, r: Option<Value>)
    requires t.Struct? && Absent(params, name)
    ensures BindsTo(params, name, t, r) <==> r == Some(Zero(t))
  {
    forall f ensures !Mentions(params, name, f) {
    }
    if r.Some? && r.value.Record? && |r.value.fields| == |t.fields| {
      assert r.value.fields == Zero(t).fields
        <==> forall i :: 0 <= i < |t.fields| ==> r.value.fields[i] == Zero(t.fields[i].typ);
    }
  }

  lemma EntryIsUnder(name: string, k: string)
    requires name <= k && |name| < |k|
    ensures MapField(name, k).Some? ==> Under(name, k)
  {
    if MapField(name, k).Some? {
      assert name + "[" <= EntryName(name, MapField(name, k).value) <= k;
    }
  }

  lemma AbsentMap(params: Params, name: string, t: Type, r: Option<Value>)
    requires t.Map? && Absent(params, name)
    ensures BindsTo(params, name, t, r) <==> r == Some(Dict(map[]))
  {
    assert Under(name, name);
    forall k | k in params && name <= k && |name| < |k| ensures MapField(name, k).None? {
      EntryIsUnder(name, k);
    }
    assert MapFields(params.Keys, name) == {};
  }

  /** A field that is unexported, or has no parameter, is left blank. */
  lemma UnboundFieldIsBlank(params: Params, name: string, t: Type, v: Value, i: nat)
    requires t.Struct? && BindsTo(params, name, t, Some(v)) && i < |t.fields|
    requires !t.fields[i].exported || Absent(params, FieldName(name, t.fields[i].name))
    requires Supported(t)
    ensures v.Record? && i < |v.fields| && Blank(t.fields[i].typ, v.fields[i])
  {
    var f := t.fields[i];
    if f.exported && Mentions(params, name, f.name) {
      AbsentIsBlank(params, FieldName(name, f.name), f.typ, Some(v.fields[i]));
    } else {
      ZeroIsBlank(f.typ, v.fields[i]);
    }
  }

  /** The elements of a slice between those with an index are blank. */
  lemma GapIsBlank(params: Params, name: string, elem: Type, v: Value, i: nat, last: string)
    requires BindsTo(params, name, Slice(elem), Some(v))
    requires last in params && name + "[" <= last && SliceIndex(name, last) > i
    requires forall k :: k in params && name + "[" <= k ==> SliceIndex(name, k) != i
    ensures v.List? && i < |v.elems| && Blank(elem, v.elems[i])
  {
    assert last in Indexed(params, name);
    assert SliceBindsTo(params, name, elem, v);
    var m: nat, order :| SliceMadeOf(params, name, elem, v.elems, m, order);
    assert SlotBindsTo(params, name, elem, i, v.elems[i]);
    ZeroIsBlank(elem, v.elems[i]);
  }

  /** A parameter without any text counts as absent. */
  lemma NoTextIsBlank(params: Params, name: string, s: ScalarType, r: Option<Value>)
    requires name in params && params[name] == []
    ensures BindsTo(params, name, Scalar(s), r) <==> r.Some? && Blank(Scalar(s), r.value)
  {
  }

  /** A parameter that is the name of a map makes binding it panic, whatever else there is. */
  lemma MapNamePanics(params: Params, name: string, key: ScalarType, s: ScalarType, r: Option<Value>)
    requires BindsTo(params, name, Map(key, Scalar(s)), r)
    ensures r.None? <==> name in params
  {
  }

  // ---------- indices ----------

  /** The index is the number between the brackets; a text that starts like no number counts as index 0. */
  lemma IndexBetweenBrackets(name: string, d: string, rest: string)
    requires ']' !in d
    ensures var i := SliceIndex(name, name + "[" + d + "]" + rest); var n := NumberIn(d, true);
      && (d == "" ==> i == -1)
      && (n.Some? && -0x8000_0000_0000_0000 <= n.value < 0x8000_0000_0000_0000 ==> i == n.value)
      && (n.Some? && n.value >= 0x8000_0000_0000_0000 ==> i == 0x7FFF_FFFF_FFFF_FFFF)
      && (d != "" && !IsDigit(d[0]) && d[0] !in "+-" ==> i == 0)
  {
    var key := name + "[" + d + "]" + rest;
    BracketAfter(name, d, rest);
    assert key[|name| + 1..|name| + 1 + |d|] == d;
    IntReadsNumber(d);
  }

  // ---------- un-indexed values ----------

  function AllParsed(s: ScalarType, texts: seq<string>): seq<Value> {
    seq(|texts|, i requires 0 <= i < |texts| => Leaf(ParseAtom(s, texts[i])))
  }

  /** name[]: the texts become the elements, in their order. */
  lemma UnindexedInOrder(params: Params, name: string, s: ScalarType, r: Option<Value>)
    requires name + "[]" in params && |params[name + "[]"]| <= MAX_INT64
    requires forall k :: k in params && k != name + "[]" ==> !Under(name, k)
    ensures BindsTo(params, name, Slice(Scalar(s)), r) <==> r == Some(List(AllParsed(s, params[name + "[]"])))
  {
    var key := name + "[]";
    OnlyUnindexed(params, name);
    OneEnumerated(key);
    FlattenOne(params, key);
    if r.Some? {
      UnindexedElements(params, name, s, r.value, key);
      if r.value.List? {
        assert r.value.elems == AllParsed(s, params[key]) <==> AreParsed(s, params[key], r.value.elems);
      }
    } else {
      UnindexedDoesNotPanic(params, name, s, key);
    }
  }

  lemma FlattenOne(params: Params, key: string)
    requires key in params
    ensures Flatten(params, [key]) == params[key]
  {
    assert [key][..0] == [];
    assert Flatten(params, []) == [];
  }

  lemma OnlyUnindexed(params: Params, name: string)
    requires name + "[]" in params
    requires forall k :: k in params && k != name + "[]" ==> !Under(name, k)
    ensures Indexed(params, name) == {} && Unindexed(params, name) == {name + "[]"}
  {
    var key := name + "[]";
    assert key[|name|..] == "[]";
    assert IndexOf("[]", ']') == 1;
    assert SliceIndex(name, key) == -1 && name + "[" <= key;
    assert forall k :: k in params && name + "[" <= k ==> k == key;
  }

  lemma OneEnumerated(key: string)
    ensures forall order :: Enumerates(order, {key}) <==> order == [key]
  {
    forall order | Enumerates(order, {key}) ensures order == [key] {
      assert key in order;
      forall i | 0 <= i < |order| ensures order[i] == key {
        assert order[i] in order;
      }
      if |order| > 1 {
        TwiceTheSame(order, key);
      }
    }
  }

  lemma TwiceTheSame(order: seq<string>, key: string)
    requires |order| > 1 && forall i :: 0 <= i < |order| ==> order[i] == key
    ensures exists i, j :: 0 <= i < j < |order| && order[i] == order[j]
  {
    assert order[0] == order[1];
  }

  predicate AreParsed(s: ScalarType, texts: seq<string>, vs: seq<Value>) {
    |vs| == |texts| && forall i :: 0 <= i < |vs| ==> vs[i] == Leaf(ParseAtom(s, texts[i]))
  }

  lemma SingleBinds(s: ScalarType, text: string, v: Value)
    ensures BindsTo(Single(text), "", Scalar(s), Some(v)) <==> v == Leaf(ParseAtom(s, text))
  {
  }

  lemma UnindexedElements(params: Params, name: string, s: ScalarType, v: Value, key: string)
    requires Indexed(params, name) == {} && Unindexed(params, name) == {key} && key in params
    requires Flatten(params, [key]) == params[key] && |params[key]| <= MAX_INT64
    requires forall order :: Enumerates(order, {key}) <==> order == [key]
    ensures SliceBindsTo(params, name, Scalar(s), v) <==> v.List? && AreParsed(s, params[key], v.elems)
  {
    if SliceBindsTo(params, name, Scalar(s), v) {
      UnindexedParsed(params, name, s, v, key);
    }
    if v.List? && AreParsed(s, params[key], v.elems) {
      ParsedUnindexed(params, name, s, v, key);
    }
  }

  lemma UnindexedParsed(params: Params, name: string, s: ScalarType, v: Value, key: string)
    requires Indexed(params, name) == {} && Unindexed(params, name) == {key} && key in params
    requires Flatten(params, [key]) == params[key] && SliceBindsTo(params, name, Scalar(s), v)
    requires forall order :: Enumerates(order, {key}) <==> order == [key]
    ensures v.List? && AreParsed(s, params[key], v.elems)
  {
    var m: nat, order :| SliceMadeOf(params, name, Scalar(s), v.elems, m, order);
    assert m == 0 && order == [key];
    AllBindParsed(s, params[key], v.elems);
  }

  lemma AllBindParsed(s: ScalarType, texts: seq<string>, vs: seq<Value>)
    requires |vs| == |texts|
    requires forall j :: 0 <= j < |texts| ==> BindsTo(Single(texts[j]), "", Scalar(s), Some(vs[0 + j]))
    ensures AreParsed(s, texts, vs)
  {
    forall j | 0 <= j < |texts| ensures vs[j] == Leaf(ParseAtom(s, texts[j])) {
      assert vs[0 + j] == vs[j];
      SingleBinds(s, texts[j], vs[j]);
    }
  }

  lemma ParsedAllBind(s: ScalarType, texts: seq<string>, vs: seq<Value>)
    requires AreParsed(s, texts, vs)
    ensures forall j :: 0 <= j < |texts| ==> BindsTo(Single(texts[j]), "", Scalar(s), Some(vs[0 + j]))
  {
    forall j | 0 <= j < |texts| ensures BindsTo(Single(texts[j]), "", Scalar(s), Some(vs[0 + j])) {
      SingleBinds(s, texts[j], vs[0 + j]);
    }
  }

  lemma ParsedUnindexed(params: Params, name: string, s: ScalarType, v: Value, key: string)
    requires Indexed(params, name) == {} && Unindexed(params, name) == {key} && key in params
    requires Flatten(params, [key]) == params[key] && |params[key]| <= MAX_INT64
    requires Enumerates([key], {key}) && v.List? && AreParsed(s, params[key], v.elems)
    ensures SliceBindsTo(params, name, Scalar(s), v)
  {
    ParsedAllBind(s, params[key], v.elems);
    assert IsExtent(params, name, 0);
    assert SliceMadeOf(params, name, Scalar(s), v.elems, 0, [key]);
  }

  lemma UnindexedDoesNotPanic(params: Params, name: string, s: ScalarType, key: string)
    requires Indexed(params, name) == {} && Unindexed(params, name) == {key} && key in params
    requires Flatten(params, [key]) == params[key] && |params[key]| <= MAX_INT64
    requires forall order :: Enumerates(order, {key}) <==> order == [key]
    ensures !SlicePanics(params, name, Scalar(s))
  {
  }
}
