/** No two leaves of a whole value get the same key, wherever in the tree they are. */
module BinderLeaves {
  import opened Text
  import opened BinderTypes
  import opened BinderSpec
  import opened BinderRoundTrip

  /** One step down the tree: an element, a field by its number, or a map entry. */
  datatype Part = Element(i: nat) | Member(i: nat) | Entry(key: Atom)

  type Path = seq<Part>

  /** What Unbind writes for the scalar at the end of the path, if there is one and it is exported. */
  ghost function LeafAt(name: string, t: Type, v: Value, path: Path): Option<Pair>
    decreases t
  {
    match (t, v)
    case (Scalar(_), Leaf(a)) => if path == [] then Some((name, AtomText(a))) else None
    case (Slice(elem), List(es)) =>
      if path != [] && path[0].Element? && path[0].i < |es|
      then LeafAt(ElementName(name, path[0].i), elem, es[path[0].i], path[1..]) else None
    case (Struct(fields), Record(vs)) =>
      if path != [] && path[0].Member? && path[0].i < |fields| && path[0].i < |vs| && fields[path[0].i].exported
      then LeafAt(FieldName(name, fields[path[0].i].name), fields[path[0].i].typ, vs[path[0].i], path[1..]) else None
    case (Map(_, elem), Dict(m)) =>
      if path != [] && path[0].Entry? && path[0].key in m
      then LeafAt(EntryName(name, AtomText(path[0].key)), elem, m[path[0].key], path[1..]) else None
    case _ => None
  }

  /** No map key in the whole value holds a dot or an opening bracket. */
  predicate CleanKeys(t: Type, v: Value) {
    match (t, v)
    case (Slice(elem), List(es)) => forall i :: 0 <= i < |es| ==> CleanKeys(elem, es[i])
    case (Struct(fields), Record(vs)) =>
      forall i :: 0 <= i < |fields| && i < |vs| && fields[i].exported ==> CleanKeys(fields[i].typ, vs[i])
    case (Map(_, elem), Dict(m)) => forall a :: a in m.Keys ==> Clean(AtomText(a)) && CleanKeys(elem, m[a])
    case _ => true
  }

  /** A closing bracket with a dot or an opening bracket behind it, and an opening bracket from there on. */
  predicate Reopens(s: string) {
    exists i, j :: 0 <= i < j < |s| && s[i] == ']' && IsBreak(s[i + 1]) && s[j] == '['
  }

  /** No map key in the whole value reopens, so none reads like a key with more of the name behind it. */
  predicate ClosedKeys(t: Type, v: Value) {
    match (t, v)
    case (Slice(elem), List(es)) => forall i :: 0 <= i < |es| ==> ClosedKeys(elem, es[i])
    case (Struct(fields), Record(vs)) =>
      forall i :: 0 <= i < |fields| && i < |vs| && fields[i].exported ==> ClosedKeys(fields[i].typ, vs[i])
    case (Map(_, elem), Dict(m)) => forall a :: a in m.Keys ==> !Reopens(AtomText(a)) && ClosedKeys(elem, m[a])
    case _ => true
  }

  /** The paths reach leaves only. */
  lemma {:induction false} PathReachesLeaf(name: string, t: Type, v: Value, path: Path)
    requires HasType(v, t) && LeafAt(name, t, v, path).Some?
    ensures LeafAt(name, t, v, path).value in Leaves(name, t, v)
    decreases t
  {
    match t
    case Scalar(_) =>
    case Slice(elem) => PathReachesLeaf(ElementName(name, path[0].i), elem, v.elems[path[0].i], path[1..]);
    case Struct(fields) =>
      var f := fields[path[0].i];
      PathReachesLeaf(FieldName(name, f.name), f.typ, v.fields[path[0].i], path[1..]);
    case Map(_, elem) =>
      PathReachesLeaf(EntryName(name, AtomText(path[0].key)), elem, v.entries[path[0].key], path[1..]);
  }

  /** And they reach every leaf. */
  lemma {:induction false} LeafHasPath(name: string, t: Type, v: Value, l: Pair) returns (path: Path)
    requires HasType(v, t) && l in Leaves(name, t, v)
    ensures LeafAt(name, t, v, path) == Some(l)
    decreases t
  {
    match t
    case Scalar(_) => path := [];
    case Slice(elem) =>
      var i :| 0 <= i < |v.elems| && l in Leaves(ElementName(name, i), elem, v.elems[i]);
      var rest := LeafHasPath(ElementName(name, i), elem, v.elems[i], l);
      path := [Element(i)] + rest;
      assert path[1..] == rest;
    case Struct(fields) =>
      var i :| 0 <= i < |fields| && fields[i].exported
               && l in Leaves(FieldName(name, fields[i].name), fields[i].typ, v.fields[i]);
      var rest := LeafHasPath(FieldName(name, fields[i].name), fields[i].typ, v.fields[i], l);
      path := [Member(i)] + rest;
      assert path[1..] == rest;
    case Map(_, elem) =>
      var a :| a in v.entries.Keys && l in Leaves(EntryName(name, AtomText(a)), elem, v.entries[a]);
      var rest := LeafHasPath(EntryName(name, AtomText(a)), elem, v.entries[a], l);
      path := [Entry(a)] + rest;
      assert path[1..] == rest;
  }

  lemma KeyOfLeaf(name: string, t: Type, v: Value, path: Path)
    requires HasType(v, t) && LeafAt(name, t, v, path).Some?
    ensures LeafAt(name, t, v, path).value.0 in KeysOf(Leaves(name, t, v))
  {
    PathReachesLeaf(name, t, v, path);
  }

  // ---------- what follows the name of a component ----------

  /** What follows the name begins with a dot or a bracket, and has no closing bracket before an opening one. */
  predicate Continues(name: string, key: string) {
    && name <= key
    && (|name| < |key| ==> IsBreak(key[|name|]))
    && forall j :: |name| <= j < |key| && key[j] == ']' ==> exists i :: |name| <= i < j && key[i] == '['
  }

  lemma ContinuesUp(name: string, seg: string, key: string)
    requires seg != "" && IsBreak(seg[0]) && (seg[0] == '[' || ']' !in seg) && Continues(name + seg, key)
    ensures Continues(name, key)
  {
    var whole := name + seg;
    assert forall j :: |name| <= j < |whole| ==> key[j] == whole[j] == seg[j - |name|];
    forall j | |name| <= j < |key| && key[j] == ']' ensures exists i :: |name| <= i < j && key[i] == '[' {
      assert seg[0] == '[' ==> key[|name|] == '[';
    }
  }

  lemma {:induction false} LeafContinues(name: string, t: Type, v: Value, path: Path)
    requires Supported(t) && HasType(v, t) && LeafAt(name, t, v, path).Some?
    ensures Continues(name, LeafAt(name, t, v, path).value.0)
    decreases t
  {
    match t
    case Scalar(_) =>
    case Slice(elem) =>
      var seg := "[" + Decimal(path[0].i) + "]";
      assert ElementName(name, path[0].i) == name + seg;
      LeafContinues(name + seg, elem, v.elems[path[0].i], path[1..]);
      ContinuesUp(name, seg, LeafAt(name, t, v, path).value.0);
    case Struct(fields) =>
      var f := fields[path[0].i];
      var seg := "." + f.name;
      assert FieldName(name, f.name) == name + seg;
      LeafContinues(name + seg, f.typ, v.fields[path[0].i], path[1..]);
      ContinuesUp(name, seg, LeafAt(name, t, v, path).value.0);
    case Map(_, elem) =>
      var seg := "[" + AtomText(path[0].key) + "]";
      assert EntryName(name, AtomText(path[0].key)) == name + seg;
      LeafContinues(name + seg, elem, v.entries[path[0].key], path[1..]);
      ContinuesUp(name, seg, LeafAt(name, t, v, path).value.0);
  }

  lemma KeyContinues(name: string, t: Type, v: Value, k: string)
    requires Supported(t) && HasType(v, t) && k in KeysOf(Leaves(name, t, v))
    ensures Continues(name, k)
  {
    var l :| l in Leaves(name, t, v) && l.0 == k;
    var path := LeafHasPath(name, t, v, l);
    LeafContinues(name, t, v, path);
  }

  lemma LongerReopens(f: string, g: string, r: string)
    requires f + "]" <= r && g + "]" <= r && |f| < |g|
    requires IsBreak(r[|f| + 1])
    requires forall j :: |f| < j < |r| && r[j] == ']' ==> exists i :: |f| < i < j && r[i] == '['
    ensures Reopens(g)
  {
    assert forall i :: 0 <= i <= |g| ==> r[i] == (g + "]")[i];
    assert r[|f|] == (f + "]")[|f|] == ']' && r[|g|] == ']';
    var i :| |f| < i < |g| && r[i] == '[';
    assert g[|f|] == ']' && g[|f| + 1] == r[|f| + 1] && g[i] == '[';
  }

  /** A key that continues two entries shows that the longer map key reopens. */
  lemma SharedKeyReopens(name: string, f: string, g: string, k: string)
    requires Continues(EntryName(name, f), k) && Continues(EntryName(name, g), k) && |f| <= |g| && f != g
    ensures Reopens(g)
  {
    var start := |name| + 1;
    var r := k[start..];
    assert EntryName(name, f)[start..] == f + "]" && EntryName(name, g)[start..] == g + "]";
    assert f + "]" <= r && g + "]" <= r;
    assert f == r[..|f|] && g == r[..|g|];
    forall j | |f| < j < |r| && r[j] == ']' ensures exists i :: |f| < i < j && r[i] == '[' {
      assert k[start + j] == ']';
      var i :| start + |f| < i < start + j && k[i] == '[';
      assert r[i - start] == '[';
    }
    LongerReopens(f, g, r);
  }

  /** Different elements, fields or entries of one value never write the same key. */
  lemma SiblingsWriteApart(name: string, t: Type, v: Value)
    requires Supported(t) && HasType(v, t)
    ensures t.Slice? ==> forall i, j :: 0 <= i < j < |v.elems| ==>
              KeysOf(Leaves(ElementName(name, i), t.elem, v.elems[i]))
                !! KeysOf(Leaves(ElementName(name, j), t.elem, v.elems[j]))
    ensures t.Struct? ==> forall i, j :: 0 <= i < j < |t.fields| && t.fields[i].exported && t.fields[j].exported ==>
              KeysOf(Leaves(FieldName(name, t.fields[i].name), t.fields[i].typ, v.fields[i]))
                !! KeysOf(Leaves(FieldName(name, t.fields[j].name), t.fields[j].typ, v.fields[j]))
    ensures t.Map? ==> forall a, b :: a in v.entries && b in v.entries && a != b
                                      && !Reopens(AtomText(a)) && !Reopens(AtomText(b)) ==>
              KeysOf(Leaves(EntryName(name, AtomText(a)), t.elem, v.entries[a]))
                !! KeysOf(Leaves(EntryName(name, AtomText(b)), t.elem, v.entries[b]))
  {
    match t
    case Scalar(_) =>
    case Slice(elem) =>
      forall i, j, k | 0 <= i < j < |v.elems|
                       && k in KeysOf(Leaves(ElementName(name, i), elem, v.elems[i]))
                       && k in KeysOf(Leaves(ElementName(name, j), elem, v.elems[j]))
        ensures false
      {
        LeavesUnder(ElementName(name, i), elem, v.elems[i]);
        LeavesUnder(ElementName(name, j), elem, v.elems[j]);
        ElementKeyParses(name, i, k);
        ElementKeyParses(name, j, k);
      }
    case Struct(fields) =>
      forall i, j, k | 0 <= i < j < |fields| && fields[i].exported && fields[j].exported
                       && k in KeysOf(Leaves(FieldName(name, fields[i].name), fields[i].typ, v.fields[i]))
                       && k in KeysOf(Leaves(FieldName(name, fields[j].name), fields[j].typ, v.fields[j]))
        ensures false
      {
        LeavesUnder(FieldName(name, fields[i].name), fields[i].typ, v.fields[i]);
        LeavesUnder(FieldName(name, fields[j].name), fields[j].typ, v.fields[j]);
        UnderShowsSegment(name + ".", fields[i].name, k);
        UnderShowsSegment(name + ".", fields[j].name, k);
      }
    case Map(_, elem) =>
      forall a, b, k | a in v.entries && b in v.entries && a != b && !Reopens(AtomText(a)) && !Reopens(AtomText(b))
                       && k in KeysOf(Leaves(EntryName(name, AtomText(a)), elem, v.entries[a]))
                       && k in KeysOf(Leaves(EntryName(name, AtomText(b)), elem, v.entries[b]))
        ensures false
      {
        EntriesWriteApart(name, t, v, a, b, k);
      }
  }

  lemma EntriesWriteApart(name: string, t: Type, v: Value, a: Atom, b: Atom, k: string)
    requires t.Map? && Supported(t) && HasType(v, t) && a in v.entries && b in v.entries && a != b
    requires k in KeysOf(Leaves(EntryName(name, AtomText(a)), t.elem, v.entries[a]))
    requires k in KeysOf(Leaves(EntryName(name, AtomText(b)), t.elem, v.entries[b]))
    ensures Reopens(AtomText(a)) || Reopens(AtomText(b))
  {
    KeyContinues(EntryName(name, AtomText(a)), t.elem, v.entries[a], k);
    KeyContinues(EntryName(name, AtomText(b)), t.elem, v.entries[b], k);
    AtomTextInjective(t.key, a, b);
    if |AtomText(a)| <= |AtomText(b)| {
      SharedKeyReopens(name, AtomText(a), AtomText(b), k);
    } else {
      SharedKeyReopens(name, AtomText(b), AtomText(a), k);
    }
  }

  /** Different paths have different keys: the whole output of Unbind holds one key for each leaf. */
  lemma {:induction false} LeavesApart(name: string, t: Type, v: Value, p: Path, q: Path)
    requires Supported(t) && HasType(v, t) && ClosedKeys(t, v) && p != q
    requires LeafAt(name, t, v, p).Some? && LeafAt(name, t, v, q).Some?
    ensures LeafAt(name, t, v, p).value.0 != LeafAt(name, t, v, q).value.0
    decreases t
  {
    if t.Scalar? {
    } else if p[0] != q[0] {
      SiblingsWriteApart(name, t, v);
      PartKey(name, t, v, p);
      PartKey(name, t, v, q);
    } else {
      assert p == [p[0]] + p[1..] && q == [q[0]] + q[1..];
      match t
      case Slice(elem) => LeavesApart(ElementName(name, p[0].i), elem, v.elems[p[0].i], p[1..], q[1..]);
      case Struct(fields) =>
        var f := fields[p[0].i];
        LeavesApart(FieldName(name, f.name), f.typ, v.fields[p[0].i], p[1..], q[1..]);
      case Map(_, elem) =>
        LeavesApart(EntryName(name, AtomText(p[0].key)), elem, v.entries[p[0].key], p[1..], q[1..]);
    }
  }

  /** The key at a path is one of the keys of the component the path starts with. */
  lemma PartKey(name: string, t: Type, v: Value, path: Path)
    requires HasType(v, t) && !t.Scalar? && LeafAt(name, t, v, path).Some?
    ensures t.Slice? ==>
              LeafAt(name, t, v, path).value.0
                in KeysOf(Leaves(ElementName(name, path[0].i), t.elem, v.elems[path[0].i]))
    ensures t.Struct? ==>
              LeafAt(name, t, v, path).value.0
                in KeysOf(Leaves(FieldName(name, t.fields[path[0].i].name), t.fields[path[0].i].typ,
                                 v.fields[path[0].i]))
    ensures t.Map? ==>
              LeafAt(name, t, v, path).value.0
                in KeysOf(Leaves(EntryName(name, AtomText(path[0].key)), t.elem, v.entries[path[0].key]))
  {
    match t
    case Slice(elem) => KeyOfLeaf(ElementName(name, path[0].i), elem, v.elems[path[0].i], path[1..]);
    case Struct(fields) =>
      var f := fields[path[0].i];
      KeyOfLeaf(FieldName(name, f.name), f.typ, v.fields[path[0].i], path[1..]);
    case Map(_, elem) =>
      KeyOfLeaf(EntryName(name, AtomText(path[0].key)), elem, v.entries[path[0].key], path[1..]);
  }

  /** So each key Unbind writes has the text of one leaf: no leaf overwrites another. */
  lemma EachKeyOnce(name: string, t: Type, v: Value, l: Pair, m: Pair)
    requires Supported(t) && HasType(v, t) && ClosedKeys(t, v)
    requires l in Leaves(name, t, v) && m in Leaves(name, t, v) && l.0 == m.0
    ensures l == m
  {
    var p := LeafHasPath(name, t, v, l);
    var q := LeafHasPath(name, t, v, m);
    if p != q {
      LeavesApart(name, t, v, p, q);
    }
  }

  /** Clean keys are closed. */
  lemma {:induction false} CleanKeysAreClosed(t: Type, v: Value)
    requires CleanKeys(t, v)
    ensures ClosedKeys(t, v)
    decreases t
  {
    match (t, v)
    case (Slice(elem), List(es)) =>
      forall i | 0 <= i < |es| ensures ClosedKeys(elem, es[i]) { CleanKeysAreClosed(elem, es[i]); }
    case (Struct(fields), Record(vs)) =>
      forall i | 0 <= i < |fields| && i < |vs| && fields[i].exported ensures ClosedKeys(fields[i].typ, vs[i]) {
        CleanKeysAreClosed(fields[i].typ, vs[i]);
      }
    case (Map(_, elem), Dict(m)) =>
      forall a | a in m.Keys ensures ClosedKeys(elem, m[a]) { CleanKeysAreClosed(elem, m[a]); }
    case _ =>
  }

  // ---------- keys that reopen collide ----------

  const NESTED: Type := Map(SString, Map(SString, Scalar(SString)))

  /** {f: {f': x}, g: {g': y}} */
  function TwoByTwo(f: string, f': string, x: string, g: string, g': string, y: string): Value {
    Dict(map[Str(f) := Dict(map[Str(f') := Leaf(Str(x))]), Str(g) := Dict(map[Str(g') := Leaf(Str(y))])])
  }

  /**
   * Any key of the form a][c shares what Unbind prints with an entry for a: both leaves print as name[a][c][d], so
   * one text is lost.
   */
  lemma ReopeningKeysCollide(name: string, a: string, c: string, d: string, x: string, y: string)
    ensures Reopens(a + "][" + c) && HasType(TwoByTwo(a, c + "][" + d, x, a + "][" + c, d, y), NESTED)
    ensures LeafAt(name, NESTED, TwoByTwo(a, c + "][" + d, x, a + "][" + c, d, y), [Entry(Str(a)), Entry(Str(c + "][" + d))])
            == Some((name + "[" + a + "][" + c + "][" + d + "]", x))
    ensures LeafAt(name, NESTED, TwoByTwo(a, c + "][" + d, x, a + "][" + c, d, y), [Entry(Str(a + "][" + c)), Entry(Str(d))])
            == Some((name + "[" + a + "][" + c + "][" + d + "]", y))
  {
    ReopenedAt(a, c);
    TwoByTwoLeaves(name, a, c + "][" + d, x, a + "][" + c, d, y);
    SameName(name, a, c, d);
  }

  lemma SameName(name: string, a: string, c: string, d: string)
    ensures EntryName(EntryName(name, a), c + "][" + d) == name + "[" + a + "][" + c + "][" + d + "]"
    ensures EntryName(EntryName(name, a + "][" + c), d) == name + "[" + a + "][" + c + "][" + d + "]"
  {
  }

  lemma TwoByTwoLeaves(name: string, f: string, f': string, x: string, g: string, g': string, y: string)
    requires f != g
    ensures HasType(TwoByTwo(f, f', x, g, g', y), NESTED)
    ensures LeafAt(name, NESTED, TwoByTwo(f, f', x, g, g', y), [Entry(Str(f)), Entry(Str(f'))])
            == Some((EntryName(EntryName(name, f), f'), x))
    ensures LeafAt(name, NESTED, TwoByTwo(f, f', x, g, g', y), [Entry(Str(g)), Entry(Str(g'))])
            == Some((EntryName(EntryName(name, g), g'), y))
  {
    NestedLeaf(name, TwoByTwo(f, f', x, g, g', y), f, f', x);
    NestedLeaf(name, TwoByTwo(f, f', x, g, g', y), g, g', y);
  }

  lemma NestedLeaf(name: string, v: Value, f: string, g: string, x: string)
    requires v.Dict? && Str(f) in v.entries && v.entries[Str(f)].Dict?
    requires Str(g) in v.entries[Str(f)].entries && v.entries[Str(f)].entries[Str(g)] == Leaf(Str(x))
    ensures LeafAt(name, NESTED, v, [Entry(Str(f)), Entry(Str(g))]) == Some((EntryName(EntryName(name, f), g), x))
  {
    var p := [Entry(Str(f)), Entry(Str(g))];
    assert p[1..] == [Entry(Str(g))];
    assert p[1..][1..] == [];
  }

  lemma ReopenedAt(a: string, c: string)
    ensures Reopens(a + "][" + c) && |a| != |a + "][" + c|
  {
    var s := a + "][" + c;
    assert s[|a|] == ']' && s[|a| + 1] == '[';
  }
}
