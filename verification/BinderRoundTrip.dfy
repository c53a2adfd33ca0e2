/** Bind undoes Unbind, exactly on the faithful values and whatever order the maps are walked in. */
module BinderRoundTrip {
  import opened Text
  import opened BinderTypes
  import opened BinderSpec

  // ---------- keys ----------

  lemma {:induction false} NextKeyStops(seg: string, rest: string)
    requires Clean(seg)
    requires rest == "" || IsBreak(rest[0])
    ensures NextKey(seg + rest) == seg
  {
    if seg == "" {
      assert seg + rest == rest;
    } else {
      assert (seg + rest)[1..] == seg[1..] + rest;
      NextKeyStops(seg[1..], rest);
    }
  }

  /** A key under prefix + seg shows seg as its next component. */
  lemma UnderShowsSegment(prefix: string, seg: string, key: string)
    requires Clean(seg) && Under(prefix + seg, key)
    ensures prefix + seg <= key && NextKey(key[|prefix|..]) == seg
  {
    var rest := key[|prefix + seg|..];
    assert key[|prefix|..] == seg + rest;
    NextKeyStops(seg, rest);
  }

  lemma UnderComponent(name: string, seg: string, key: string)
    requires seg != "" && IsBreak(seg[0]) && Under(name + seg, key)
    ensures Under(name, key)
  {
  }

  lemma {:induction false} FirstBracket(head: string, rest: string)
    requires ']' !in head
    ensures IndexOf(head + "]" + rest, ']') == |head|
  {
    var s := head + "]" + rest;
    if head != "" {
      assert s[1..] == head[1..] + "]" + rest;
      FirstBracket(head[1..], rest);
    }
  }

  lemma BracketAfter(name: string, d: string, rest: string)
    requires ']' !in d
    ensures ClosingBracket(name, name + "[" + d + "]" + rest) == |d| + 1
  {
    var key, tail := name + "[" + d + "]" + rest, "[" + d + "]" + rest;
    assert key == name + tail;
    assert key[|name|..] == tail;
    FirstBracket("[" + d, rest);
  }

  lemma ElementKeyBracket(name: string, i: nat, key: string)
    requires Under(ElementName(name, i), key)
    ensures name + "[" <= key && ClosingBracket(name, key) == |Decimal(i)| + 1
    ensures key[|name| + 1..|name| + |Decimal(i)| + 1] == Decimal(i)
  {
    var rest := key[|ElementName(name, i)|..];
    assert key == name + "[" + Decimal(i) + "]" + rest;
    BracketAfter(name, Decimal(i), rest);
  }

  /** Every key of the i-th element is read back as belonging to the i-th element. */
  lemma ElementKeyParses(name: string, i: nat, key: string)
    requires i <= MAX_INT64 && Under(ElementName(name, i), key)
    ensures name + "[" <= key && SliceIndex(name, key) == i && SubKey(name, key) == ElementName(name, i)
  {
    ElementKeyBracket(name, i, key);
    ParseFormatted(i);
  }

  lemma CleanDecimal(n: nat)
    ensures Clean(Decimal(n)) && Clean(Decimal(n) + "]")
  {
    var d := Decimal(n);
    forall i | 0 <= i < |d| ensures !IsBreak(d[i]) {
      assert d[i] in d;
    }
  }

  lemma AtomTextClean(t: ScalarType, a: Atom)
    requires HasAtomType(a, t) && !a.Str?
    ensures Clean(AtomText(a))
  {
    match a
    case Int(n) => if n < 0 { CleanDecimal(-n); } else { CleanDecimal(n); }
    case Uint(u) => CleanDecimal(u);
    case Bool(_) =>
  }

  /** Every key of an entry whose map key is clean is read back as that entry. */
  lemma EntryKeyParses(name: string, f: string, key: string)
    requires Clean(f) && Under(EntryName(name, f), key)
    ensures name <= key && |name| < |key| && MapField(name, key) == Some(f)
  {
    assert EntryName(name, f) == (name + "[") + (f + "]");
    UnderShowsSegment(name + "[", f + "]", key);
  }

  lemma MapFieldClean(name: string, key: string)
    requires name <= key && |name| < |key| && MapField(name, key).Some?
    ensures Clean(MapField(name, key).value)
  {
  }

  // ---------- leaves ----------

  lemma {:induction false} LeavesUnder(name: string, t: Type, v: Value)
    ensures forall k :: k in KeysOf(Leaves(name, t, v)) ==> Under(name, k)
    decreases t, 1
  {
    forall l | l in Leaves(name, t, v) ensures Under(name, l.0) {
      OneLeafUnder(name, t, v, l);
    }
  }

  lemma {:induction false} OneLeafUnder(name: string, t: Type, v: Value, l: Pair)
    requires l in Leaves(name, t, v)
    ensures Under(name, l.0)
    decreases t, 0
  {
    match (t, v)
    case (Scalar(_), Leaf(_)) =>
    case (Slice(elem), List(es)) =>
      var i :| 0 <= i < |es| && l in Leaves(ElementName(name, i), elem, es[i]);
      Bracketed(name, Decimal(i));
      LeafUnder(name, "[" + Decimal(i) + "]", elem, es[i], l);
    case (Struct(fields), Record(vs)) =>
      var i :| 0 <= i < |fields| && i < |vs| && fields[i].exported
               && l in Leaves(FieldName(name, fields[i].name), fields[i].typ, vs[i]);
      assert FieldName(name, fields[i].name) == name + ("." + fields[i].name);
      LeafUnder(name, "." + fields[i].name, fields[i].typ, vs[i], l);
    case (Map(_, elem), Dict(m)) =>
      var a :| a in m.Keys && l in Leaves(EntryName(name, AtomText(a)), elem, m[a]);
      Bracketed(name, AtomText(a));
      LeafUnder(name, "[" + AtomText(a) + "]", elem, m[a], l);
  }

  lemma Bracketed(name: string, s: string)
    ensures name + "[" + s + "]" == name + ("[" + s + "]")
  {
  }

  lemma {:induction false} LeafUnder(name: string, seg: string, t: Type, v: Value, l: Pair)
    requires l in Leaves(name + seg, t, v)
    ensures Under(name + seg, l.0)
    ensures seg != "" && IsBreak(seg[0]) ==> Under(name, l.0)
    decreases t, 2
  {
    LeavesUnder(name + seg, t, v);
    assert l.0 in KeysOf(Leaves(name + seg, t, v));
    if seg != "" && IsBreak(seg[0]) {
      UnderComponent(name, seg, l.0);
    }
  }

  lemma {:induction false} SpeaksIffLeaves(name: string, t: Type, v: Value)
    ensures Speaks(t, v) <==> Leaves(name, t, v) != {}
    decreases t
  {
    match (t, v)
    case (Scalar(_), Leaf(_)) =>
    case (Slice(elem), List(es)) =>
      forall i | 0 <= i < |es| { SpeaksIffLeaves(ElementName(name, i), elem, es[i]); }
      if i :| 0 <= i < |es| && Speaks(elem, es[i]) {
        var l :| l in Leaves(ElementName(name, i), elem, es[i]);
        assert l in Leaves(name, t, v);
      }
    case (Struct(fields), Record(vs)) =>
      forall i | 0 <= i < |fields| && i < |vs| {
        SpeaksIffLeaves(FieldName(name, fields[i].name), fields[i].typ, vs[i]);
      }
      if i :| 0 <= i < |fields| && i < |vs| && fields[i].exported && Speaks(fields[i].typ, vs[i]) {
        var l :| l in Leaves(FieldName(name, fields[i].name), fields[i].typ, vs[i]);
        assert l in Leaves(name, t, v);
      }
    case (Map(_, elem), Dict(m)) =>
      forall a | a in m.Keys { SpeaksIffLeaves(EntryName(name, AtomText(a)), elem, m[a]); }
      if a :| a in m.Keys && Speaks(elem, m[a]) {
        var l :| l in Leaves(EntryName(name, AtomText(a)), elem, m[a]);
        assert l in Leaves(name, t, v);
      }
    case _ =>
  }

  /** A value that writes nothing is restored exactly when it is the zero value. */
  lemma {:induction false} SilentFaithfulIsZero(t: Type, v: Value)
    requires HasType(v, t) && !Speaks(t, v)
    ensures Faithful(t, v) <==> v == Zero(t)
    decreases t
  {
    match t
    case Scalar(_) =>
    case Slice(elem) =>
    case Struct(fields) =>
      forall i | 0 <= i < |fields| && fields[i].exported {
        SilentFaithfulIsZero(fields[i].typ, v.fields[i]);
      }
      if Faithful(t, v) {
        assert v.fields == Zero(t).fields;
      }
    case Map(_, _) =>
  }

  // ---------- framing ----------

  /** What carries a value carries each of its components under the component's own name. */
  lemma ComponentCarries(params: Params, name: string, leaves: set<Pair>, prefix: string, seg: string, part: set<Pair>)
    requires Carries(params, name, leaves)
    requires prefix == name + "." || prefix == name + "["
    requires Clean(seg) && part <= leaves
    requires forall k :: k in KeysOf(part) ==> Under(prefix + seg, k)
    requires forall l :: l in leaves && l !in part ==> exists s :: s != seg && Clean(s) && Under(prefix + s, l.0)
    ensures Carries(params, prefix + seg, part)
  {
    forall l | l in leaves && l !in part ensures !Under(prefix + seg, l.0) {
      var s :| s != seg && Clean(s) && Under(prefix + s, l.0);
      UnderShowsSegment(prefix, s, l.0);
      if Under(prefix + seg, l.0) {
        UnderShowsSegment(prefix, seg, l.0);
      }
    }
    assert forall l :: l in part ==> l.0 in KeysOf(part);
    forall k | k in params && Under(prefix + seg, k) ensures k in KeysOf(leaves) {
      assert prefix + seg == name + (prefix[|name|..] + seg);
      UnderComponent(name, prefix[|name|..] + seg, k);
    }
  }

  lemma DecimalInjective(i: nat, j: nat)
    requires i <= MAX_INT64 && j <= MAX_INT64
    ensures Decimal(i) == Decimal(j) <==> i == j
  {
    ParseFormatted(i);
    ParseFormatted(j);
  }

  lemma OtherElementLeaf(name: string, elem: Type, v: Value, i: nat, j: nat, l: Pair)
    requires HasType(v, Slice(elem)) && i < |v.elems| && j < |v.elems| && i != j
    requires l in Leaves(ElementName(name, j), elem, v.elems[j])
    ensures Decimal(j) + "]" != Decimal(i) + "]" && Clean(Decimal(j) + "]")
    ensures Under(name + "[" + (Decimal(j) + "]"), l.0)
  {
    assert ElementName(name, j) == name + "[" + (Decimal(j) + "]");
    LeafUnder(name + "[", Decimal(j) + "]", elem, v.elems[j], l);
    CleanDecimal(j);
    DecimalInjective(i, j);
    SegmentsDiffer(Decimal(i), Decimal(j));
  }

  lemma ElementCarries(params: Params, name: string, elem: Type, v: Value, i: nat)
    requires HasType(v, Slice(elem)) && i < |v.elems|
    requires Carries(params, name, Leaves(name, Slice(elem), v))
    ensures Carries(params, ElementName(name, i), Leaves(ElementName(name, i), elem, v.elems[i]))
  {
    var all, part := Leaves(name, Slice(elem), v), Leaves(ElementName(name, i), elem, v.elems[i]);
    var seg := Decimal(i) + "]";
    assert ElementName(name, i) == name + "[" + seg;
    CleanDecimal(i);
    LeavesUnder(ElementName(name, i), elem, v.elems[i]);
    forall l | l in all && l !in part ensures exists s :: s != seg && Clean(s) && Under(name + "[" + s, l.0) {
      var j :| 0 <= j < |v.elems| && l in Leaves(ElementName(name, j), elem, v.elems[j]);
      OtherElementLeaf(name, elem, v, i, j, l);
    }
    ComponentCarries(params, name, all, name + "[", seg, part);
  }

  lemma SegmentsDiffer(a: string, b: string)
    ensures a + "]" == b + "]" <==> a == b
  {
    assert a == (a + "]")[..|a|] && b == (b + "]")[..|b|];
    assert |a + "]"| == |a| + 1 && |b + "]"| == |b| + 1;
  }

  lemma FieldCarries(params: Params, name: string, t: Type, v: Value, i: nat)
    requires t.Struct? && Supported(t) && HasType(v, t) && i < |t.fields| && t.fields[i].exported
    requires Carries(params, name, Leaves(name, t, v))
    ensures Carries(params, FieldName(name, t.fields[i].name),
                    Leaves(FieldName(name, t.fields[i].name), t.fields[i].typ, v.fields[i]))
  {
    var seg := t.fields[i].name;
    var all, part := Leaves(name, t, v), Leaves(FieldName(name, seg), t.fields[i].typ, v.fields[i]);
    LeavesUnder(FieldName(name, seg), t.fields[i].typ, v.fields[i]);
    forall l | l in all && l !in part ensures exists s :: s != seg && Clean(s) && Under(name + "." + s, l.0) {
      var j :| 0 <= j < |t.fields| && j < |v.fields| && t.fields[j].exported
               && l in Leaves(FieldName(name, t.fields[j].name), t.fields[j].typ, v.fields[j]);
      LeafUnder(name + ".", t.fields[j].name, t.fields[j].typ, v.fields[j], l);
    }
    ComponentCarries(params, name, all, name + ".", seg, part);
  }

  lemma AtomTextInjective(t: ScalarType, a: Atom, b: Atom)
    requires HasAtomType(a, t) && HasAtomType(b, t)
    ensures AtomText(a) == AtomText(b) <==> a == b
  {
    ParseAtomOfText(t, a);
    ParseAtomOfText(t, b);
  }

  lemma EntryCarries(params: Params, name: string, t: Type, v: Value, a: Atom)
    requires t.Map? && HasType(v, t) && a in v.entries
    requires forall b :: b in v.entries ==> Clean(AtomText(b))
    requires Carries(params, name, Leaves(name, t, v))
    ensures Carries(params, EntryName(name, AtomText(a)), Leaves(EntryName(name, AtomText(a)), t.elem, v.entries[a]))
  {
    var seg := AtomText(a) + "]";
    var all, part := Leaves(name, t, v), Leaves(EntryName(name, AtomText(a)), t.elem, v.entries[a]);
    assert EntryName(name, AtomText(a)) == name + "[" + seg;
    LeavesUnder(EntryName(name, AtomText(a)), t.elem, v.entries[a]);
    forall l | l in all && l !in part ensures exists s :: s != seg && Clean(s) && Under(name + "[" + s, l.0) {
      var b :| b in v.entries.Keys && l in Leaves(EntryName(name, AtomText(b)), t.elem, v.entries[b]);
      OtherEntryLeaf(name, t, v, a, b, l);
    }
    ComponentCarries(params, name, all, name + "[", seg, part);
  }

  lemma OtherEntryLeaf(name: string, t: Type, v: Value, a: Atom, b: Atom, l: Pair)
    requires t.Map? && HasType(v, t) && a in v.entries && b in v.entries && a != b && Clean(AtomText(b))
    requires l in Leaves(EntryName(name, AtomText(b)), t.elem, v.entries[b])
    ensures AtomText(b) + "]" != AtomText(a) + "]" && Clean(AtomText(b) + "]")
    ensures Under(name + "[" + (AtomText(b) + "]"), l.0)
  {
    assert EntryName(name, AtomText(b)) == name + "[" + (AtomText(b) + "]");
    LeafUnder(name + "[", AtomText(b) + "]", t.elem, v.entries[b], l);
    AtomTextInjective(t.key, a, b);
    SegmentsDiffer(AtomText(a), AtomText(b));
  }

  // ---------- one level of each kind of value ----------

  /** A parameter below the name of a slice is a leaf of one of its elements. */
  lemma SliceKeyOwner(params: Params, name: string, elem: Type, v: Value, k: string) returns (i: nat)
    requires HasType(v, Slice(elem))
    requires Carries(params, name, Leaves(name, Slice(elem), v))
    requires k in params && name + "[" <= k
    ensures i < |v.elems| && Speaks(elem, v.elems[i])
    ensures SliceIndex(name, k) == i && SubKey(name, k) == ElementName(name, i)
  {
    assert (k, params[k][0]) in Leaves(name, Slice(elem), v);
    i :| 0 <= i < |v.elems| && (k, params[k][0]) in Leaves(ElementName(name, i), elem, v.elems[i]);
    SpeaksIffLeaves(ElementName(name, i), elem, v.elems[i]);
    LeavesUnder(ElementName(name, i), elem, v.elems[i]);
    assert (k, params[k][0]).0 in KeysOf(Leaves(ElementName(name, i), elem, v.elems[i]));
    ElementKeyParses(name, i, k);
  }

  lemma SpeakingElementIndexed(params: Params, name: string, elem: Type, v: Value, i: nat)
    requires HasType(v, Slice(elem)) && i < |v.elems| && Speaks(elem, v.elems[i])
    requires Carries(params, name, Leaves(name, Slice(elem), v))
    ensures exists k :: k in Indexed(params, name) && SliceIndex(name, k) == i
  {
    SpeaksIffLeaves(ElementName(name, i), elem, v.elems[i]);
    var l :| l in Leaves(ElementName(name, i), elem, v.elems[i]);
    assert l in Leaves(name, Slice(elem), v);
    assert l.0 in KeysOf(Leaves(name, Slice(elem), v));
    LeavesUnder(ElementName(name, i), elem, v.elems[i]);
    assert l.0 in KeysOf(Leaves(ElementName(name, i), elem, v.elems[i]));
    ElementKeyParses(name, i, l.0);
    assert l.0 in Indexed(params, name);
  }

  lemma EveryKeyIndexed(params: Params, name: string, elem: Type, v: Value)
    requires HasType(v, Slice(elem))
    requires Carries(params, name, Leaves(name, Slice(elem), v))
    ensures forall order :: Enumerates(order, Unindexed(params, name)) ==> order == []
  {
    forall k | k in Unindexed(params, name) ensures false {
      var i := SliceKeyOwner(params, name, elem, v, k);
    }
    assert forall order :: Enumerates(order, Unindexed(params, name)) && order != [] ==> order[0] in order;
  }

  /** The elements from n on write no key, and the one before does. */
  predicate LastSpeaks(elem: Type, es: seq<Value>, n: nat) {
    && n <= |es| && (n > 0 ==> Speaks(elem, es[n - 1]))
    && forall i :: n <= i < |es| ==> !Speaks(elem, es[i])
  }

  lemma ExtentIsLastSpeaking(params: Params, name: string, elem: Type, v: Value, m: nat)
    requires HasType(v, Slice(elem)) && IsExtent(params, name, m)
    requires Carries(params, name, Leaves(name, Slice(elem), v))
    ensures LastSpeaks(elem, v.elems, m)
  {
    if m > 0 {
      var k :| k in Indexed(params, name) && SliceIndex(name, k) == m - 1;
      var i := SliceKeyOwner(params, name, elem, v, k);
    }
    forall i: nat | m <= i < |v.elems| ensures !Speaks(elem, v.elems[i]) {
      if Speaks(elem, v.elems[i]) {
        SpeakingElementIndexed(params, name, elem, v, i);
      }
    }
  }

  /** A slot below the extent is bound from the parameters of its own element, or left zero. */
  lemma SlotIsElement(params: Params, name: string, elem: Type, v: Value, i: nat, w: Value)
    requires HasType(v, Slice(elem)) && i < |v.elems|
    requires Carries(params, name, Leaves(name, Slice(elem), v))
    requires SlotBindsTo(params, name, elem, i, w)
    ensures if Speaks(elem, v.elems[i]) then BindsTo(params, ElementName(name, i), elem, Some(w)) else w == Zero(elem)
  {
    if k :| k in Indexed(params, name) && SliceIndex(name, k) == i {
      var owner := SliceKeyOwner(params, name, elem, v, k);
      var bound :| bound in Indexed(params, name) && SliceIndex(name, bound) == i
                   && BindsTo(params, SubKey(name, bound), elem, Some(w));
      owner := SliceKeyOwner(params, name, elem, v, bound);
    } else if Speaks(elem, v.elems[i]) {
      SpeakingElementIndexed(params, name, elem, v, i);
      assert false;
    }
  }

  lemma {:induction false} RoundTripSlot(params: Params, name: string, elem: Type, v: Value, i: nat, w: Value)
    requires Supported(elem) && HasType(v, Slice(elem)) && i < |v.elems|
    requires Carries(params, name, Leaves(name, Slice(elem), v))
    requires SlotBindsTo(params, name, elem, i, w)
    ensures w == v.elems[i] <==> Faithful(elem, v.elems[i])
    decreases elem, 3
  {
    SlotIsElement(params, name, elem, v, i, w);
    if Speaks(elem, v.elems[i]) {
      ElementCarries(params, name, elem, v, i);
      RoundTrip(params, ElementName(name, i), elem, v.elems[i], Some(w));
    } else {
      SilentFaithfulIsZero(elem, v.elems[i]);
    }
  }

  lemma SliceIsSlots(params: Params, name: string, elem: Type, v: Value, w: Value)
    requires HasType(v, Slice(elem))
    requires Carries(params, name, Leaves(name, Slice(elem), v))
    requires SliceBindsTo(params, name, elem, w)
    ensures w.List? && IsExtent(params, name, |w.elems|) && AllSlots(params, name, elem, w.elems)
  {
    EveryKeyIndexed(params, name, elem, v);
  }

  ghost predicate AllSlots(params: Params, name: string, elem: Type, slots: seq<Value>) {
    forall i {:trigger SlotBindsTo(params, name, elem, i, slots[i])} ::
      0 <= i < |slots| ==> SlotBindsTo(params, name, elem, i, slots[i])
  }

  /** Each slot holds its element exactly if that one is faithful. */
  ghost predicate SlotsRestored(elem: Type, es: seq<Value>, slots: seq<Value>) {
    |slots| <= |es| && forall i :: 0 <= i < |slots| ==> (slots[i] == es[i] <==> Faithful(elem, es[i]))
  }

  lemma {:induction false} RoundTripSlots(params: Params, name: string, elem: Type, v: Value, slots: seq<Value>)
    requires Supported(elem) && HasType(v, Slice(elem)) && |slots| <= |v.elems|
    requires Carries(params, name, Leaves(name, Slice(elem), v)) && AllSlots(params, name, elem, slots)
    ensures SlotsRestored(elem, v.elems, slots)
    decreases elem, 4
  {
    forall i: nat | i < |slots| ensures slots[i] == v.elems[i] <==> Faithful(elem, v.elems[i]) {
      assert SlotBindsTo(params, name, elem, i, slots[i]);
      RoundTripSlot(params, name, elem, v, i, slots[i]);
    }
  }

  lemma {:induction false} RoundTripSlice(params: Params, name: string, elem: Type, v: Value, w: Value)
    requires Supported(elem) && HasType(v, Slice(elem))
    requires Carries(params, name, Leaves(name, Slice(elem), v))
    requires SliceBindsTo(params, name, elem, w)
    ensures w == v <==> Faithful(Slice(elem), v)
    decreases elem, 5
  {
    SliceIsSlots(params, name, elem, v, w);
    ExtentIsLastSpeaking(params, name, elem, v, |w.elems|);
    RoundTripSlots(params, name, elem, v, w.elems);
    RoundTripElements(elem, v.elems, w.elems);
  }

  /** Slot by slot, what the parameters restore is the slice just when every element is restorable and the last speaks. */
  lemma RoundTripElements(elem: Type, es: seq<Value>, got: seq<Value>)
    requires LastSpeaks(elem, es, |got|) && SlotsRestored(elem, es, got)
    ensures got == es <==> Faithful(Slice(elem), List(es))
  {
    if got == es {
      assert forall i :: 0 <= i < |es| ==> got[i] == es[i];
    } else if |got| == |es| {
      var i :| 0 <= i < |es| && got[i] != es[i];
    }
  }

  /** If binding the slice panics, binding one of its elements does. */
  lemma SlicePanicIsElementPanic(params: Params, name: string, elem: Type, v: Value) returns (i: nat)
    requires HasType(v, Slice(elem))
    requires Carries(params, name, Leaves(name, Slice(elem), v))
    requires SlicePanics(params, name, elem)
    ensures i < |v.elems| && BindsTo(params, ElementName(name, i), elem, None)
  {
    EveryKeyIndexed(params, name, elem, v);
    if m: nat, order :| IsExtent(params, name, m) && Enumerates(order, Unindexed(params, name))
                        && m + |Flatten(params, order)| > MAX_INT64 {
      ExtentIsLastSpeaking(params, name, elem, v, m);
      assert false;
    } else if k :| k in Indexed(params, name) && BindsTo(params, SubKey(name, k), elem, None) {
      i := SliceKeyOwner(params, name, elem, v, k);
    } else {
      var k, j :| k in Unindexed(params, name) && 0 <= j < |params[k]| && BindsTo(Single(params[k][j]), "", elem, None);
      i := SliceKeyOwner(params, name, elem, v, k);
      assert false;
    }
  }

  lemma {:induction false} RoundTripSlicePanic(params: Params, name: string, elem: Type, v: Value)
    requires Supported(elem) && HasType(v, Slice(elem))
    requires Carries(params, name, Leaves(name, Slice(elem), v))
    requires SlicePanics(params, name, elem)
    ensures !Faithful(Slice(elem), v)
    decreases elem, 3
  {
    var i := SlicePanicIsElementPanic(params, name, elem, v);
    ElementCarries(params, name, elem, v, i);
    RoundTrip(params, ElementName(name, i), elem, v.elems[i], None);
  }

  lemma FieldMentionedIffSpeaks(params: Params, name: string, t: Type, v: Value, i: nat)
    requires t.Struct? && Supported(t) && HasType(v, t) && i < |t.fields| && t.fields[i].exported
    requires Carries(params, name, Leaves(name, t, v))
    ensures Mentions(params, name, t.fields[i].name) <==> Speaks(t.fields[i].typ, v.fields[i])
  {
    var f := t.fields[i].name;
    var part := Leaves(FieldName(name, f), t.fields[i].typ, v.fields[i]);
    SpeaksIffLeaves(FieldName(name, f), t.fields[i].typ, v.fields[i]);
    LeavesUnder(FieldName(name, f), t.fields[i].typ, v.fields[i]);
    if Speaks(t.fields[i].typ, v.fields[i]) {
      var l :| l in part;
      assert l in Leaves(name, t, v);
      assert l.0 in KeysOf(part) && l.0 in KeysOf(Leaves(name, t, v));
      UnderShowsSegment(name + ".", f, l.0);
    }
    if Mentions(params, name, f) {
      var k :| k in params && name + "." <= k && NextKey(k[|name| + 1..]) == f;
      assert (k, params[k][0]) in Leaves(name, t, v);
      var j :| 0 <= j < |t.fields| && t.fields[j].exported
               && (k, params[k][0]) in Leaves(FieldName(name, t.fields[j].name), t.fields[j].typ, v.fields[j]);
      LeavesUnder(FieldName(name, t.fields[j].name), t.fields[j].typ, v.fields[j]);
      assert (k, params[k][0]).0 in KeysOf(Leaves(FieldName(name, t.fields[j].name), t.fields[j].typ, v.fields[j]));
      UnderShowsSegment(name + ".", t.fields[j].name, k);
      assert i == j;
    }
  }

  lemma {:induction false} RoundTripStruct(params: Params, name: string, t: Type, v: Value, r: Option<Value>)
    requires t.Struct? && Supported(t) && HasType(v, t)
    requires Carries(params, name, Leaves(name, t, v)) && BindsTo(params, name, t, r)
    ensures r == Some(v) <==> Faithful(t, v)
    decreases t, 0
  {
    var fields := t.fields;
    forall i: nat | i < |fields| && fields[i].exported
      ensures Mentions(params, name, fields[i].name) <==> Speaks(fields[i].typ, v.fields[i])
      ensures !Mentions(params, name, fields[i].name) ==>
                (Faithful(fields[i].typ, v.fields[i]) <==> v.fields[i] == Zero(fields[i].typ))
    {
      FieldMentionedIffSpeaks(params, name, t, v, i);
      if !Mentions(params, name, fields[i].name) {
        SilentFaithfulIsZero(fields[i].typ, v.fields[i]);
      }
    }
    if r.None? {
      var i :| 0 <= i < |fields| && fields[i].exported && Mentions(params, name, fields[i].name)
               && BindsTo(params, FieldName(name, fields[i].name), fields[i].typ, None);
      FieldCarries(params, name, t, v, i);
      RoundTrip(params, FieldName(name, fields[i].name), fields[i].typ, v.fields[i], None);
    } else {
      forall i: nat | i < |fields| && fields[i].exported && Mentions(params, name, fields[i].name)
        ensures r.value.fields[i] == v.fields[i] <==> Faithful(fields[i].typ, v.fields[i])
      {
        FieldCarries(params, name, t, v, i);
        RoundTrip(params, FieldName(name, fields[i].name), fields[i].typ, v.fields[i], Some(r.value.fields[i]));
      }
      if Faithful(t, v) {
        assert r.value.fields == v.fields;
      }
    }
  }

  /** With clean keys, the map keys found among the parameters are those of the entries that write something. */
  lemma MapFieldsAreSpeakingKeys(params: Params, name: string, t: Type, v: Value)
    requires t.Map? && HasType(v, t)
    requires forall a :: a in v.entries ==> Clean(AtomText(a))
    requires Carries(params, name, Leaves(name, t, v))
    ensures MapFields(params.Keys, name) == set a | a in v.entries && Speaks(t.elem, v.entries[a]) :: AtomText(a)
  {
    forall a | a in v.entries && Speaks(t.elem, v.entries[a]) ensures AtomText(a) in MapFields(params.Keys, name) {
      var part := Leaves(EntryName(name, AtomText(a)), t.elem, v.entries[a]);
      SpeaksIffLeaves(EntryName(name, AtomText(a)), t.elem, v.entries[a]);
      LeavesUnder(EntryName(name, AtomText(a)), t.elem, v.entries[a]);
      var l :| l in part;
      assert a in v.entries.Keys && l in Leaves(name, t, v);
      assert l.0 in KeysOf(part) && l.0 in KeysOf(Leaves(name, t, v));
      EntryKeyParses(name, AtomText(a), l.0);
    }
    forall f | f in MapFields(params.Keys, name)
      ensures exists a :: a in v.entries && Speaks(t.elem, v.entries[a]) && AtomText(a) == f
    {
      var k :| k in params && name <= k && |name| < |k| && MapField(name, k) == Some(f);
      assert Under(name, k);
      assert (k, params[k][0]) in Leaves(name, t, v);
      var a :| a in v.entries.Keys && (k, params[k][0]) in Leaves(EntryName(name, AtomText(a)), t.elem, v.entries[a]);
      LeavesUnder(EntryName(name, AtomText(a)), t.elem, v.entries[a]);
      SpeaksIffLeaves(EntryName(name, AtomText(a)), t.elem, v.entries[a]);
      assert (k, params[k][0]).0 in KeysOf(Leaves(EntryName(name, AtomText(a)), t.elem, v.entries[a]));
      EntryKeyParses(name, AtomText(a), k);
    }
  }

  /** A key with a dot or an opening bracket in it is never restored. */
  lemma DirtyKeyLost(params: Params, name: string, t: Type, v: Value, r: Option<Value>, a: Atom)
    requires t.Map? && HasType(v, t) && BindsTo(params, name, t, r)
    requires a in v.entries && !Clean(AtomText(a))
    ensures r != Some(v)
  {
    if !a.Str? {
      AtomTextClean(t.key, a);
    }
    if r.Some? && a in r.value.entries {
      var f :| f in MapFields(params.Keys, name) && ParseAtom(t.key, f) == a;
      var k :| k in params && name <= k && |name| < |k| && MapField(name, k) == Some(f);
      MapFieldClean(name, k);
    }
  }

  lemma NameNotAParameter(params: Params, name: string, t: Type, v: Value)
    requires t.Map? && Carries(params, name, Leaves(name, t, v))
    ensures name !in params
  {
    if name in params {
      var a :| v.Dict? && a in v.entries.Keys
               && (name, params[name][0]) in Leaves(EntryName(name, AtomText(a)), t.elem, v.entries[a]);
      LeavesUnder(EntryName(name, AtomText(a)), t.elem, v.entries[a]);
      assert (name, params[name][0]).0 in KeysOf(Leaves(EntryName(name, AtomText(a)), t.elem, v.entries[a]));
    }
  }

  lemma {:induction false} RoundTripEntry(params: Params, name: string, t: Type, v: Value, f: string, r: Option<Value>)
    returns (a: Atom)
    requires t.Map? && Supported(t) && HasType(v, t)
    requires forall a :: a in v.entries ==> Clean(AtomText(a))
    requires Carries(params, name, Leaves(name, t, v))
    requires f in MapFields(params.Keys, name) && BindsTo(params, EntryName(name, f), t.elem, r)
    ensures a in v.entries && Speaks(t.elem, v.entries[a]) && ParseAtom(t.key, f) == a
    ensures r == Some(v.entries[a]) <==> Faithful(t.elem, v.entries[a])
    decreases t, 0
  {
    MapFieldsAreSpeakingKeys(params, name, t, v);
    a :| a in v.entries && Speaks(t.elem, v.entries[a]) && AtomText(a) == f;
    ParseAtomOfText(t.key, a);
    EntryCarries(params, name, t, v, a);
    RoundTrip(params, EntryName(name, f), t.elem, v.entries[a], r);
  }

  lemma {:induction false} RoundTripMap(params: Params, name: string, t: Type, v: Value, r: Option<Value>)
    requires t.Map? && Supported(t) && HasType(v, t)
    requires forall a :: a in v.entries ==> Clean(AtomText(a))
    requires Carries(params, name, Leaves(name, t, v)) && BindsTo(params, name, t, r)
    ensures r == Some(v) <==> Faithful(t, v)
    decreases t, 1
  {
    if r.None? {
      NameNotAParameter(params, name, t, v);
      var f :| f in MapFields(params.Keys, name) && BindsTo(params, EntryName(name, f), t.elem, None);
      var a := RoundTripEntry(params, name, t, v, f, None);
    } else {
      var m := r.value.entries;
      forall a | a in m
        ensures a in v.entries && Speaks(t.elem, v.entries[a])
        ensures m[a] == v.entries[a] <==> Faithful(t.elem, v.entries[a])
      {
        var f :| f in MapFields(params.Keys, name) && ParseAtom(t.key, f) == a
                 && BindsTo(params, EntryName(name, f), t.elem, Some(m[a]));
        var b := RoundTripEntry(params, name, t, v, f, Some(m[a]));
      }
      RestoredKeys(params, name, t, v, m);
      if Faithful(t, v) {
        assert m == v.entries;
      }
    }
  }

  lemma RestoredKeys(params: Params, name: string, t: Type, v: Value, m: map<Atom, Value>)
    requires t.Map? && HasType(v, t)
    requires forall a :: a in v.entries ==> Clean(AtomText(a))
    requires Carries(params, name, Leaves(name, t, v))
    requires m.Keys == (set f | f in MapFields(params.Keys, name) :: ParseAtom(t.key, f))
    ensures forall a :: a in v.entries && Speaks(t.elem, v.entries[a]) ==> a in m
  {
    MapFieldsAreSpeakingKeys(params, name, t, v);
    forall a | a in v.entries && Speaks(t.elem, v.entries[a]) ensures a in m {
      ParseAtomOfText(t.key, a);
      assert AtomText(a) in MapFields(params.Keys, name);
    }
  }

  // ---------- the theorem ----------

  /**
   * From any parameters that hold what Unbind wrote for v under a name, plus keys that do not concern that name,
   * every run of Bind gives v back if v is faithful, and no run does if it is not.
   */
  lemma {:induction false} RoundTrip(params: Params, name: string, t: Type, v: Value, r: Option<Value>)
    requires Supported(t) && HasType(v, t)
    requires Carries(params, name, Leaves(name, t, v))
    requires BindsTo(params, name, t, r)
    ensures r == Some(v) <==> Faithful(t, v)
    decreases t, 2
  {
    match t
    case Scalar(s) =>
      assert (name, AtomText(v.atom)) in Leaves(name, t, v);
      assert name in KeysOf(Leaves(name, t, v));
      ParseAtomOfText(s, v.atom);
    case Slice(elem) =>
      if r.Some? { RoundTripSlice(params, name, elem, v, r.value); } else { RoundTripSlicePanic(params, name, elem, v); }
    case Struct(_) => RoundTripStruct(params, name, t, v, r);
    case Map(_, _) =>
      if a :| a in v.entries && !Clean(AtomText(a)) {
        DirtyKeyLost(params, name, t, v, r, a);
      } else {
        RoundTripMap(params, name, t, v, r);
      }
  }

  /** Whatever the parameters hold, a result is a value of the type asked for. */
  lemma {:induction false} BoundHasType(params: Params, name: string, t: Type, v: Value)
    requires BindsTo(params, name, t, Some(v))
    ensures HasType(v, t)
    decreases t, 1
  {
    match t
    case Scalar(s) =>
    case Slice(elem) => SliceHasType(params, name, elem, v);
    case Struct(_) => StructHasType(params, name, t, v);
    case Map(key, elem) => MapHasType(params, name, key, elem, v);
  }

  lemma {:induction false} StructHasType(params: Params, name: string, t: Type, v: Value)
    requires t.Struct? && BindsTo(params, name, t, Some(v))
    ensures HasType(v, t)
    decreases t, 0
  {
    forall i | 0 <= i < |t.fields| ensures HasType(v.fields[i], t.fields[i].typ) {
      ZeroHasType(t.fields[i].typ);
      if t.fields[i].exported && Mentions(params, name, t.fields[i].name) {
        BoundHasType(params, FieldName(name, t.fields[i].name), t.fields[i].typ, v.fields[i]);
      }
    }
  }

  lemma {:induction false} MapHasType(params: Params, name: string, key: ScalarType, elem: Type, v: Value)
    requires MapBindsTo(params, name, key, elem, v)
    ensures HasType(v, Map(key, elem))
    decreases elem, 2
  {
    forall a | a in v.entries ensures HasAtomType(a, key) && HasType(v.entries[a], elem) {
      var f :| f in MapFields(params.Keys, name) && ParseAtom(key, f) == a
               && BindsTo(params, EntryName(name, f), elem, Some(v.entries[a]));
      ParsedAtomHasType(key, f);
      BoundHasType(params, EntryName(name, f), elem, v.entries[a]);
    }
  }

  lemma {:induction false} SliceHasType(params: Params, name: string, elem: Type, v: Value)
    requires SliceBindsTo(params, name, elem, v)
    ensures HasType(v, Slice(elem))
    decreases elem, 3
  {
    var m: nat, order :| IsExtent(params, name, m) && Enumerates(order, Unindexed(params, name))
      && |v.elems| == m + |Flatten(params, order)| <= MAX_INT64
      && (forall i {:trigger SlotBindsTo(params, name, elem, i, v.elems[i])} ::
            0 <= i < m ==> SlotBindsTo(params, name, elem, i, v.elems[i]))
      && (forall j :: 0 <= j < |Flatten(params, order)| ==>
            BindsTo(Single(Flatten(params, order)[j]), "", elem, Some(v.elems[m + j])));
    forall i | 0 <= i < m ensures HasType(v.elems[i], elem) {
      assert SlotBindsTo(params, name, elem, i, v.elems[i]);
      SlotHasType(params, name, elem, i, v.elems[i]);
    }
    forall i | m <= i < |v.elems| ensures HasType(v.elems[i], elem) {
      assert v.elems[i] == v.elems[m + (i - m)];
      BoundHasType(Single(Flatten(params, order)[i - m]), "", elem, v.elems[i]);
    }
  }

  lemma {:induction false} SlotHasType(params: Params, name: string, elem: Type, i: nat, w: Value)
    requires SlotBindsTo(params, name, elem, i, w)
    ensures HasType(w, elem)
    decreases elem, 2
  {
    ZeroHasType(elem);
    if k :| k in Indexed(params, name) && SliceIndex(name, k) == i {
      var bound :| bound in Indexed(params, name) && SliceIndex(name, bound) == i
                   && BindsTo(params, SubKey(name, bound), elem, Some(w));
      BoundHasType(params, SubKey(name, bound), elem, w);
    }
  }
}
