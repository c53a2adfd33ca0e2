/**
 * What Bind makes of any printed value, faithful or not: it is the same for every iteration order and whatever
 * foreign keys are present.
 */
module BinderOrder {
  import opened Text
  import opened BinderTypes
  import opened BinderSpec
  import opened BinderRoundTrip
  import opened BinderLeaves

  /** One more than the last element that writes a key. */
  function Extent(elem: Type, es: seq<Value>): (n: nat)
    ensures LastSpeaks(elem, es, n)
  {
    if es == [] then 0
    else if Speaks(elem, es[|es| - 1]) then |es|
    else
      assert forall i :: 0 <= i < |es| - 1 ==> es[..|es| - 1][i] == es[i];
      Extent(elem, es[..|es| - 1])
  }

  /**
   * What is kept of a value: a slice ends with its last element that writes a key; elements and fields that write
   * none, and unexported fields, are zero; a map has the entries that write a key.
   */
  function Kept(t: Type, v: Value): Value
    decreases t, 0
  {
    match (t, v)
    case (Slice(elem), List(es)) =>
      List(seq(Extent(elem, es), i requires 0 <= i < Extent(elem, es) => KeptPart(elem, es[i])))
    case (Struct(fields), Record(vs)) =>
      Record(seq(|fields|, i requires 0 <= i < |fields| =>
        if i < |vs| && fields[i].exported then KeptPart(fields[i].typ, vs[i]) else Zero(fields[i].typ)))
    case (Map(_, elem), Dict(m)) => Dict(KeptEntries(elem, m))
    case _ => v
  }

  function KeptPart(t: Type, v: Value): Value
    decreases t, 1
  {
    if Speaks(t, v) then Kept(t, v) else Zero(t)
  }

  function KeptEntries(elem: Type, m: map<Atom, Value>): map<Atom, Value>
    decreases elem, 1
  {
    map a | a in m && Speaks(elem, m[a]) :: Kept(elem, m[a])
  }

  // ---------- slices ----------

  lemma {:induction false} SlotIsKept(params: Params, name: string, elem: Type, v: Value, i: nat, w: Value)
    requires Supported(elem) && HasType(v, Slice(elem)) && CleanKeys(Slice(elem), v) && i < |v.elems|
    requires Carries(params, name, Leaves(name, Slice(elem), v)) && SlotBindsTo(params, name, elem, i, w)
    ensures w == KeptPart(elem, v.elems[i])
    decreases elem, 4
  {
    SlotIsElement(params, name, elem, v, i, w);
    if Speaks(elem, v.elems[i]) {
      ElementCarries(params, name, elem, v, i);
      BindsKept(params, ElementName(name, i), elem, v.elems[i], Some(w));
    }
  }

  lemma {:induction false} SlotIsKeptAt(params: Params, name: string, elem: Type, v: Value, slots: seq<Value>, i: nat)
    requires Supported(elem) && HasType(v, Slice(elem)) && CleanKeys(Slice(elem), v) && i < |slots| <= |v.elems|
    requires Carries(params, name, Leaves(name, Slice(elem), v)) && AllSlots(params, name, elem, slots)
    ensures slots[i] == KeptPart(elem, v.elems[i])
    decreases elem, 5
  {
    assert SlotBindsTo(params, name, elem, i, slots[i]);
    SlotIsKept(params, name, elem, v, i, slots[i]);
  }

  lemma IsKeptSlice(elem: Type, es: seq<Value>, slots: seq<Value>)
    requires LastSpeaks(elem, es, |slots|)
    requires forall i :: 0 <= i < |slots| ==> slots[i] == KeptPart(elem, es[i])
    ensures List(slots) == Kept(Slice(elem), List(es))
  {
    assert |slots| == Extent(elem, es);
    assert slots == Kept(Slice(elem), List(es)).elems;
  }

  lemma {:induction false} SliceIsKept(params: Params, name: string, elem: Type, v: Value, w: Value)
    requires Supported(elem) && HasType(v, Slice(elem)) && CleanKeys(Slice(elem), v)
    requires Carries(params, name, Leaves(name, Slice(elem), v)) && SliceBindsTo(params, name, elem, w)
    ensures w == Kept(Slice(elem), v)
    decreases elem, 6
  {
    SliceIsSlots(params, name, elem, v, w);
    ExtentIsLastSpeaking(params, name, elem, v, |w.elems|);
    forall i: nat | i < |w.elems| ensures w.elems[i] == KeptPart(elem, v.elems[i]) {
      SlotIsKeptAt(params, name, elem, v, w.elems, i);
    }
    IsKeptSlice(elem, v.elems, w.elems);
  }

  lemma {:induction false} SliceDoesNotPanic(params: Params, name: string, elem: Type, v: Value)
    requires Supported(elem) && HasType(v, Slice(elem)) && CleanKeys(Slice(elem), v)
    requires Carries(params, name, Leaves(name, Slice(elem), v))
    ensures !SlicePanics(params, name, elem)
    decreases elem, 4
  {
    if SlicePanics(params, name, elem) {
      var i := SlicePanicIsElementPanic(params, name, elem, v);
      ElementCarries(params, name, elem, v, i);
      BindsKept(params, ElementName(name, i), elem, v.elems[i], None);
    }
  }

  // ---------- structs ----------

  lemma {:induction false} FieldIsKept(params: Params, name: string, t: Type, v: Value, i: nat, r: Option<Value>)
    requires t.Struct? && Supported(t) && HasType(v, t) && CleanKeys(t, v)
    requires Carries(params, name, Leaves(name, t, v))
    requires i < |t.fields| && t.fields[i].exported && Mentions(params, name, t.fields[i].name)
    requires BindsTo(params, FieldName(name, t.fields[i].name), t.fields[i].typ, r)
    ensures r == Some(Kept(t.fields[i].typ, v.fields[i])) && Speaks(t.fields[i].typ, v.fields[i])
    decreases t, 0
  {
    FieldMentionedIffSpeaks(params, name, t, v, i);
    FieldCarries(params, name, t, v, i);
    BindsKept(params, FieldName(name, t.fields[i].name), t.fields[i].typ, v.fields[i], r);
  }

  lemma {:induction false} StructIsKept(params: Params, name: string, t: Type, v: Value, r: Option<Value>)
    requires t.Struct? && Supported(t) && HasType(v, t) && CleanKeys(t, v)
    requires Carries(params, name, Leaves(name, t, v)) && BindsTo(params, name, t, r)
    ensures r == Some(Kept(t, v))
    decreases t, 1
  {
    var fields := t.fields;
    if r.None? {
      var i :| 0 <= i < |fields| && fields[i].exported && Mentions(params, name, fields[i].name)
               && BindsTo(params, FieldName(name, fields[i].name), fields[i].typ, None);
      FieldIsKept(params, name, t, v, i, None);
    } else {
      forall i: nat | i < |fields|
        ensures r.value.fields[i] ==
                if fields[i].exported then KeptPart(fields[i].typ, v.fields[i]) else Zero(fields[i].typ)
      {
        if fields[i].exported {
          FieldMentionedIffSpeaks(params, name, t, v, i);
          if Mentions(params, name, fields[i].name) {
            FieldIsKept(params, name, t, v, i, Some(r.value.fields[i]));
          }
        }
      }
      assert r.value.fields == Kept(t, v).fields;
    }
  }

  // ---------- maps ----------

  lemma {:induction false} EntryIsKept(params: Params, name: string, t: Type, v: Value, f: string, r: Option<Value>)
    returns (a: Atom)
    requires t.Map? && Supported(t) && HasType(v, t) && CleanKeys(t, v)
    requires Carries(params, name, Leaves(name, t, v))
    requires f in MapFields(params.Keys, name) && BindsTo(params, EntryName(name, f), t.elem, r)
    ensures a in v.entries && Speaks(t.elem, v.entries[a]) && ParseAtom(t.key, f) == a
    ensures r == Some(Kept(t.elem, v.entries[a]))
    decreases t, 0
  {
    MapFieldsAreSpeakingKeys(params, name, t, v);
    a :| a in v.entries && Speaks(t.elem, v.entries[a]) && AtomText(a) == f;
    ParseAtomOfText(t.key, a);
    EntryCarries(params, name, t, v, a);
    BindsKept(params, EntryName(name, f), t.elem, v.entries[a], r);
  }

  lemma {:induction false} MapDoesNotPanic(params: Params, name: string, t: Type, v: Value)
    requires t.Map? && Supported(t) && HasType(v, t) && CleanKeys(t, v)
    requires Carries(params, name, Leaves(name, t, v))
    ensures !BindsTo(params, name, t, None)
    decreases t, 1
  {
    NameNotAParameter(params, name, t, v);
    if f :| f in MapFields(params.Keys, name) && BindsTo(params, EntryName(name, f), t.elem, None) {
      var a := EntryIsKept(params, name, t, v, f, None);
    }
  }

  lemma {:induction false} ValueIsKept(params: Params, name: string, t: Type, v: Value, w: Value, a: Atom)
    requires t.Map? && Supported(t) && HasType(v, t) && CleanKeys(t, v)
    requires Carries(params, name, Leaves(name, t, v)) && MapBindsTo(params, name, t.key, t.elem, w)
    requires a in w.entries
    ensures a in v.entries && Speaks(t.elem, v.entries[a]) && w.entries[a] == Kept(t.elem, v.entries[a])
    decreases t, 1
  {
    var f :| f in MapFields(params.Keys, name) && ParseAtom(t.key, f) == a
             && BindsTo(params, EntryName(name, f), t.elem, Some(w.entries[a]));
    var b := EntryIsKept(params, name, t, v, f, Some(w.entries[a]));
  }

  lemma AreKeptEntries(elem: Type, m: map<Atom, Value>, w: map<Atom, Value>)
    requires forall a :: a in w ==> a in m && Speaks(elem, m[a]) && w[a] == Kept(elem, m[a])
    requires forall a :: a in m && Speaks(elem, m[a]) ==> a in w
    ensures w == KeptEntries(elem, m)
  {
  }

  lemma {:induction false} MapIsKept(params: Params, name: string, t: Type, v: Value, w: Value)
    requires t.Map? && Supported(t) && HasType(v, t) && CleanKeys(t, v)
    requires Carries(params, name, Leaves(name, t, v)) && MapBindsTo(params, name, t.key, t.elem, w)
    ensures w == Kept(t, v)
    decreases t, 2
  {
    forall a | a in w.entries
      ensures a in v.entries && Speaks(t.elem, v.entries[a]) && w.entries[a] == Kept(t.elem, v.entries[a])
    {
      ValueIsKept(params, name, t, v, w, a);
    }
    RestoredKeys(params, name, t, v, w.entries);
    AreKeptEntries(t.elem, v.entries, w.entries);
  }

  // ---------- the theorem ----------

  /** Every run of Bind over what Unbind wrote for v, among any foreign keys, returns what is kept of v. */
  lemma {:induction false} BindsKept(params: Params, name: string, t: Type, v: Value, r: Option<Value>)
    requires Supported(t) && HasType(v, t) && CleanKeys(t, v)
    requires Carries(params, name, Leaves(name, t, v)) && BindsTo(params, name, t, r)
    ensures r == Some(Kept(t, v))
    decreases t, 3
  {
    match t
    case Scalar(_) => RoundTrip(params, name, t, v, r);
    case Slice(elem) =>
      if r.Some? {
        SliceIsKept(params, name, elem, v, r.value);
      } else {
        SliceDoesNotPanic(params, name, elem, v);
      }
    case Struct(_) => StructIsKept(params, name, t, v, r);
    case Map(_, _) =>
      if r.Some? {
        MapIsKept(params, name, t, v, r.value);
      } else {
        MapDoesNotPanic(params, name, t, v);
      }
  }

  /** Two results for the same printed value agree, whatever orders produced them and whatever foreign keys there are. */
  lemma OrderIndependent(params: Params, params': Params, name: string, t: Type, v: Value,
                         r: Option<Value>, r': Option<Value>)
    requires Supported(t) && HasType(v, t) && CleanKeys(t, v)
    requires Carries(params, name, Leaves(name, t, v)) && Carries(params', name, Leaves(name, t, v))
    requires BindsTo(params, name, t, r) && BindsTo(params', name, t, r')
    ensures r == r' == Some(Kept(t, v))
  {
    BindsKept(params, name, t, v, r);
    BindsKept(params', name, t, v, r');
  }

  // ---------- what is kept whole ----------

  /** The faithful values are those with clean keys of which all is kept. */
  lemma {:induction false} FaithfulIsKept(t: Type, v: Value)
    requires HasType(v, t)
    ensures Faithful(t, v) <==> CleanKeys(t, v) && Kept(t, v) == v
    decreases t, 2
  {
    match t
    case Scalar(_) =>
    case Slice(elem) => FaithfulSliceIsKept(elem, v);
    case Struct(_) => FaithfulStructIsKept(t, v);
    case Map(_, _) => FaithfulMapIsKept(t, v);
  }

  lemma {:induction false} PartIsKept(t: Type, v: Value)
    requires HasType(v, t)
    ensures Faithful(t, v) <==> CleanKeys(t, v) && v == KeptPart(t, v)
    decreases t, 3
  {
    FaithfulIsKept(t, v);
    if !Speaks(t, v) {
      SilentFaithfulIsZero(t, v);
    }
  }

  lemma SliceKeptWhole(elem: Type, es: seq<Value>)
    ensures Kept(Slice(elem), List(es)) == List(es) <==>
            (es != [] ==> Speaks(elem, es[|es| - 1])) && forall i :: 0 <= i < |es| ==> es[i] == KeptPart(elem, es[i])
  {
    var kept := Kept(Slice(elem), List(es)).elems;
    assert |kept| == |es| <==> es != [] ==> Speaks(elem, es[|es| - 1]);
    assert kept == es <==> |kept| == |es| && forall i :: 0 <= i < |es| ==> es[i] == kept[i];
  }

  lemma {:induction false} FaithfulSliceIsKept(elem: Type, v: Value)
    requires HasType(v, Slice(elem))
    ensures Faithful(Slice(elem), v) <==> CleanKeys(Slice(elem), v) && Kept(Slice(elem), v) == v
    decreases elem, 5
  {
    var es := v.elems;
    forall i | 0 <= i < |es|
      ensures Faithful(elem, es[i]) <==>
              CleanKeys(elem, es[i]) && es[i] == KeptPart(elem, es[i])
    {
      PartIsKept(elem, es[i]);
    }
    SliceKeptWhole(elem, es);
  }

  lemma {:induction false} FaithfulStructIsKept(t: Type, v: Value)
    requires t.Struct? && HasType(v, t)
    ensures Faithful(t, v) <==> CleanKeys(t, v) && Kept(t, v) == v
    decreases t, 1
  {
    var fields, vs, kept := t.fields, v.fields, Kept(t, v).fields;
    forall i | 0 <= i < |fields| && fields[i].exported
      ensures Faithful(fields[i].typ, vs[i]) <==> CleanKeys(fields[i].typ, vs[i]) && vs[i] == kept[i]
    {
      PartIsKept(fields[i].typ, vs[i]);
    }
    assert kept == vs <==> Kept(t, v) == v;
    assert kept == vs <==> forall i :: 0 <= i < |fields| ==> vs[i] == kept[i];
  }

  lemma {:induction false} FaithfulMapIsKept(t: Type, v: Value)
    requires t.Map? && HasType(v, t)
    ensures Faithful(t, v) <==> CleanKeys(t, v) && Kept(t, v) == v
    decreases t, 1
  {
    var m, kept := v.entries, KeptEntries(t.elem, v.entries);
    forall a | a in m
      ensures Faithful(t.elem, m[a]) <==> CleanKeys(t.elem, m[a]) && Kept(t.elem, m[a]) == m[a]
    {
      FaithfulIsKept(t.elem, m[a]);
    }
    assert kept == m <==> Kept(t, v) == v;
    assert kept == m <==> forall a :: a in m ==> a in kept && m[a] == kept[a];
  }

  // ---------- clean keys are needed ----------

  const NUMBERED: Type := Map(SString, Map(SInt(W64), Scalar(SString)))

  /** {"a": {1: x}, "a][+1": {2: y}} */
  function Numbered(x: string, y: string): Value {
    Dict(map[Str("a") := Dict(map[Int(1) := Leaf(Str(x))]), Str("a][+1") := Dict(map[Int(2) := Leaf(Str(y))])])
  }

  /** {"a": {1: x}} */
  function One(x: string): Value {
    Dict(map[Str("a") := OneEntry(x)])
  }

  function OneEntry(x: string): Value {
    Dict(map[Int(1) := Leaf(Str(x))])
  }

  /** The key printed for x, name[a][1]. */
  function FirstKey(name: string): string {
    EntryName(EntryName(name, "a"), "1")
  }

  /** The key printed for y, name[a][+1][2]. */
  function SecondKey(name: string): string {
    EntryName(EntryName(name, "a][+1"), "2")
  }

  function NumberedParams(name: string, x: string, y: string): Params {
    map[FirstKey(name) := [x], SecondKey(name) := [y]]
  }

  /**
   * Both keys printed for this value show the entry "a", and the two fields found below it, 1 and +1, are the same
   * number: the entry holds x or the empty text, as the walk of the parameters has it.
   */
  lemma UncleanKeysDependOnOrder(name: string, x: string, y: string)
    ensures Supported(NUMBERED) && HasType(Numbered(x, y), NUMBERED)
    ensures Carries(NumberedParams(name, x, y), name, Leaves(name, NUMBERED, Numbered(x, y)))
    ensures BindsTo(NumberedParams(name, x, y), name, NUMBERED, Some(One(x)))
    ensures BindsTo(NumberedParams(name, x, y), name, NUMBERED, Some(One("")))
    ensures One(x) == One("") <==> x == ""
  {
    NumberedTyped(x, y);
    OnesDiffer(x);
    NumberedCarried(name, x, y);
    OneBinds(name, x, y, "1");
    OneBinds(name, x, y, "+1");
  }

  lemma NumberedTyped(x: string, y: string)
    ensures Supported(NUMBERED) && HasType(Numbered(x, y), NUMBERED)
  {
    var inner := Map(SInt(W64), Scalar(SString));
    assert HasType(OneEntry(x), inner) && HasType(Dict(map[Int(2) := Leaf(Str(y))]), inner);
  }

  lemma OnesDiffer(x: string)
    ensures One(x) == One("") <==> x == ""
  {
    assert One(x).entries[Str("a")].entries[Int(1)] == Leaf(Str(x));
    assert One("").entries[Str("a")].entries[Int(1)] == Leaf(Str(""));
  }

  lemma NumberedKeys(name: string)
    ensures FirstKey(name) != SecondKey(name)
    ensures name <= FirstKey(name) && |name| < |FirstKey(name)| && MapField(name, FirstKey(name)) == Some("a")
    ensures name <= SecondKey(name) && |name| < |SecondKey(name)| && MapField(name, SecondKey(name)) == Some("a")
  {
    assert |FirstKey(name)| < |SecondKey(name)|;
    EntryKeyParses(name, "a", FirstKey(name));
    assert SecondKey(name) == EntryName(name, "a") + "[+1][2]";
    EntryKeyParses(name, "a", SecondKey(name));
  }

  lemma NumberedInnerKeys(name: string, a: string)
    requires a == EntryName(name, "a")
    ensures a <= FirstKey(name) && |a| < |FirstKey(name)| && MapField(a, FirstKey(name)) == Some("1")
    ensures a <= SecondKey(name) && |a| < |SecondKey(name)| && MapField(a, SecondKey(name)) == Some("+1")
    ensures EntryName(a, "1") == FirstKey(name)
    ensures EntryName(a, "+1") != FirstKey(name) && EntryName(a, "+1") != SecondKey(name)
    ensures a != FirstKey(name) && a != SecondKey(name)
  {
    EntryKeyParses(a, "1", FirstKey(name));
    assert SecondKey(name) == EntryName(a, "+1") + "[2]";
    EntryKeyParses(a, "+1", SecondKey(name));
    assert |EntryName(a, "+1")| == |FirstKey(name)| + 1;
  }

  lemma FieldsOfTwo(name: string, k: string, k': string)
    requires name <= k && |name| < |k| && MapField(name, k).Some?
    requires name <= k' && |name| < |k'| && MapField(name, k').Some?
    ensures MapFields({k, k'}, name) == {MapField(name, k).value, MapField(name, k').value}
  {
  }

  lemma LeavesOfOne(name: string, t: Type, a: Atom, s: string)
    requires t.Map? && t.elem == Scalar(SString)
    ensures Leaves(name, t, Dict(map[a := Leaf(Str(s))])) == {(EntryName(name, AtomText(a)), s)}
  {
    var l, m := (EntryName(name, AtomText(a)), s), map[a := Leaf(Str(s))];
    assert m.Keys == {a};
    assert Leaves(l.0, Scalar(SString), Leaf(Str(s))) == {l};
    forall k | k in Leaves(name, t, Dict(m)) ensures k == l {
      var b :| b in m.Keys && k in Leaves(EntryName(name, AtomText(b)), t.elem, m[b]);
    }
    assert l in Leaves(name, t, Dict(m));
  }

  lemma LeavesOfTwo(name: string, t: Type, a: Atom, u: Value, b: Atom, w: Value)
    requires t.Map? && a != b
    ensures Leaves(name, t, Dict(map[a := u, b := w]))
            == Leaves(EntryName(name, AtomText(a)), t.elem, u) + Leaves(EntryName(name, AtomText(b)), t.elem, w)
  {
    var m := map[a := u, b := w];
    var first, second := Leaves(EntryName(name, AtomText(a)), t.elem, u), Leaves(EntryName(name, AtomText(b)), t.elem, w);
    forall l | l in Leaves(name, t, Dict(m)) ensures l in first + second {
      var c :| c in m.Keys && l in Leaves(EntryName(name, AtomText(c)), t.elem, m[c]);
    }
    assert a in m.Keys && m[a] == u && b in m.Keys && m[b] == w;
    forall l | l in first + second ensures l in Leaves(name, t, Dict(m)) {
    }
  }

  lemma CarriesTwo(name: string, k: string, x: string, k': string, y: string)
    requires k != k'
    ensures Carries(map[k := [x], k' := [y]], name, {(k, x)} + {(k', y)})
  {
    var leaves := {(k, x)} + {(k', y)};
    assert (k, x) in leaves && (k', y) in leaves;
    assert KeysOf(leaves) == {k, k'};
  }

  lemma NumberedCarried(name: string, x: string, y: string)
    ensures Carries(NumberedParams(name, x, y), name, Leaves(name, NUMBERED, Numbered(x, y)))
  {
    NumberedKeys(name);
    LeavesOfTwo(name, NUMBERED, Str("a"), OneEntry(x), Str("a][+1"), Dict(map[Int(2) := Leaf(Str(y))]));
    LeavesOfOne(EntryName(name, "a"), NUMBERED.elem, Int(1), x);
    LeavesOfOne(EntryName(name, "a][+1"), NUMBERED.elem, Int(2), y);
    CarriesTwo(name, FirstKey(name), x, SecondKey(name), y);
  }

  /** When all fields are the same key, the map may hold what any of them gives. */
  lemma OneKeyBinds(params: Params, name: string, t: Type, f: string, a: Atom, w: Value)
    requires t.Map? && name !in params && f in MapFields(params.Keys, name)
    requires forall g :: g in MapFields(params.Keys, name) ==> ParseAtom(t.key, g) == a
    requires BindsTo(params, EntryName(name, f), t.elem, Some(w))
    ensures BindsTo(params, name, t, Some(Dict(map[a := w])))
  {
    var keys := set g | g in MapFields(params.Keys, name) :: ParseAtom(t.key, g);
    assert a in keys;
    assert keys == {a};
    assert MapBindsTo(params, name, t.key, t.elem, Dict(map[a := w]));
  }

  lemma OneIsPlusOne()
    ensures ParseAtom(SInt(W64), "1") == ParseAtom(SInt(W64), "+1") == Int(1)
  {
    assert "+1"[1..] == "1";
  }

  lemma EitherBinds(params: Params, name: string, t: Type, k: string, x: string, f: string)
    requires t.Map? && t.key == SInt(W64) && t.elem == Scalar(SString) && k in params && params[k] == [x]
    requires name !in params && MapFields(params.Keys, name) == {"1", "+1"} && (f == "1" || f == "+1")
    requires EntryName(name, "1") == k && EntryName(name, "+1") !in params
    ensures BindsTo(params, name, t, Some(OneEntry(if f == "1" then x else "")))
  {
    OneIsPlusOne();
    StringBinds(params, EntryName(name, f), if f == "1" then x else "");
    OneKeyBinds(params, name, t, f, Int(1), Leaf(Str(if f == "1" then x else "")));
  }

  lemma StringBinds(params: Params, key: string, x: string)
    requires if key in params then params[key] == [x] else x == ""
    ensures BindsTo(params, key, Scalar(SString), Some(Leaf(Str(x))))
  {
  }

  lemma InnerBinds(name: string, a: string, x: string, y: string, f: string)
    requires (f == "1" || f == "+1") && a == EntryName(name, "a")
    ensures BindsTo(NumberedParams(name, x, y), a, NUMBERED.elem, Some(OneEntry(if f == "1" then x else "")))
  {
    var params := NumberedParams(name, x, y);
    NumberedKeys(name);
    NumberedInnerKeys(name, a);
    FieldsOfTwo(a, FirstKey(name), SecondKey(name));
    assert params.Keys == {FirstKey(name), SecondKey(name)};
    EitherBinds(params, a, NUMBERED.elem, FirstKey(name), x, f);
  }

  lemma OuterField(name: string, x: string, y: string)
    ensures MapFields(NumberedParams(name, x, y).Keys, name) == {"a"} && name !in NumberedParams(name, x, y)
  {
    NumberedKeys(name);
    FieldsOfTwo(name, FirstKey(name), SecondKey(name));
    assert NumberedParams(name, x, y).Keys == {FirstKey(name), SecondKey(name)};
  }

  lemma OneBinds(name: string, x: string, y: string, f: string)
    requires f == "1" || f == "+1"
    ensures BindsTo(NumberedParams(name, x, y), name, NUMBERED, Some(One(if f == "1" then x else "")))
  {
    OuterField(name, x, y);
    InnerBinds(name, EntryName(name, "a"), x, y, f);
    OneKeyBinds(NumberedParams(name, x, y), name, NUMBERED, "a", Str("a"), OneEntry(if f == "1" then x else ""));
  }
}
