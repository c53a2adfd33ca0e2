/**
 * The meaning of Bind and Unbind, independent of the order in which Go walks a map.
 *
 * Unbind is described by the set of (key, text) pairs it writes; Bind by a relation between the parameters and
 * every result some iteration order can lead to. A result of None is a run-time panic.
 */
module BinderSpec {
  import opened Text
  import opened BinderTypes

  type Params = map<string, seq<string>>

  // ---------- parameter keys ----------

  /** Break on dots and brackets: bar.baz and bar[0] both give bar. */
  function NextKey(key: string): (r: string)
    ensures Clean(r) && r <= key
  {
    if key == "" || IsBreak(key[0]) then "" else [key[0]] + NextKey(key[1..])
  }

  /** strings.Index for one character. */
  function IndexOf(s: string, c: char): (r: int)
    ensures -1 <= r < |s|
    ensures r == -1 ==> c !in s
    ensures r >= 0 ==> s[r] == c && c !in s[..r]
  {
    if s == "" then -1
    else if s[0] == c then 0
    else
      var r := IndexOf(s[1..], c);
      if r == -1 then -1 else assert s[..r + 1] == [s[0]] + s[1..][..r]; r + 1
  }

  function ElementName(name: string, i: nat): string {
    name + "[" + Decimal(i) + "]"
  }

  function FieldName(name: string, field: string): string {
    name + "." + field
  }

  function EntryName(name: string, key: string): string {
    name + "[" + key + "]"
  }

  /** The offset, from the end of name, of the bracket closing the index; -1 when there is none. */
  function ClosingBracket(name: string, key: string): (r: int)
    ensures r == -1 || 0 <= r < |key| - |name|
  {
    if |name| <= |key| then IndexOf(key[|name|..], ']') else -1
  }

  /** The index written in a slice key, or a negative number when it has none. Atoi's error is ignored. */
  function SliceIndex(name: string, key: string): int {
    var close := ClosingBracket(name, key);
    if close > 1 then ParseInt(key[|name| + 1..|name| + close]).value else -1
  }

  /** The key up to and including the bracket that closes the index. */
  function SubKey(name: string, key: string): string {
    if |name| <= |key| then key[..|name| + ClosingBracket(name, key) + 1] else key
  }

  function Indexed(params: Params, name: string): set<string> {
    set k | k in params && name + "[" <= k && SliceIndex(name, k) > -1
  }

  function Unindexed(params: Params, name: string): set<string> {
    set k | k in params && name + "[" <= k && SliceIndex(name, k) <= -1
  }

  /** m is one more than the largest index in use. */
  ghost predicate IsExtent(params: Params, name: string, m: nat) {
    && (forall k :: k in Indexed(params, name) ==> SliceIndex(name, k) < m)
    && (m == 0 || exists k :: k in Indexed(params, name) && SliceIndex(name, k) == m - 1)
  }

  ghost predicate Enumerates(order: seq<string>, keys: set<string>) {
    && (forall i, j :: 0 <= i < j < |order| ==> order[i] != order[j])
    && (forall k :: k in keys <==> k in order)
  }

  function Flatten(params: Params, order: seq<string>): seq<string> {
    if order == [] then []
    else
      var last := order[|order| - 1];
      Flatten(params, order[..|order| - 1]) + if last in params then params[last] else []
  }

  /** The parameters BindValue makes up for a single text. */
  function Single(text: string): Params {
    map["" := [text]]
  }

  /** Some parameter belongs to the named field of the struct. */
  ghost predicate Mentions(params: Params, name: string, field: string) {
    exists k :: k in params && name + "." <= k && NextKey(k[|name| + 1..]) == field
  }

  /** The map key a parameter carries, if it is an entry of the map. */
  function MapField(name: string, key: string): Option<string>
    requires name <= key && |name| < |key|
  {
    var next := NextKey(key[|name| + 1..]);
    var field := if next != "" then next[..|next| - 1] else "";
    if EntryName(name, field) <= key then Some(field) else None
  }

  function MapFields(keys: set<string>, name: string): set<string> {
    set k | k in keys && name <= k && |name| < |k| && MapField(name, k).Some? :: MapField(name, k).value
  }

  // ---------- what Bind may return ----------

  ghost predicate BindsTo(params: Params, name: string, t: Type, r: Option<Value>)
    decreases t, 1
  {
    match t
    case Scalar(s) => r == Some(Leaf(ScalarAt(params, name, s)))
    case Slice(elem) => if r.None? then SlicePanics(params, name, elem) else SliceBindsTo(params, name, elem, r.value)
    case Struct(fields) =>
      if r.None? then
        exists i :: 0 <= i < |fields| && fields[i].exported && Mentions(params, name, fields[i].name)
                    && BindsTo(params, FieldName(name, fields[i].name), fields[i].typ, None)
      else
        && r.value.Record? && |r.value.fields| == |fields|
        && forall i :: 0 <= i < |fields| ==>
             if fields[i].exported && Mentions(params, name, fields[i].name)
             then BindsTo(params, FieldName(name, fields[i].name), fields[i].typ, Some(r.value.fields[i]))
             else r.value.fields[i] == Zero(fields[i].typ)
    case Map(key, elem) =>
      if r.None? then
        name in params || exists f :: f in MapFields(params.Keys, name) && BindsTo(params, EntryName(name, f), elem, None)
      else MapBindsTo(params, name, key, elem, r.value)
  }

  function ScalarAt(params: Params, name: string, s: ScalarType): Atom {
    if name in params && params[name] != [] then ParseAtom(s, params[name][0]) else ZeroAtom(s)
  }

  /**
   * Indexed parameters fill the slots below the extent, the last one walked winning; the values of un-indexed
   * parameters follow in the order in which those keys were walked.
   */
  ghost predicate SliceBindsTo(params: Params, name: string, elem: Type, v: Value)
    decreases elem, 4
  {
    v.List? && exists m: nat, order :: SliceMadeOf(params, name, elem, v.elems, m, order)
  }

  /** The first m elements are the slots; the un-indexed parameters were walked in this order. */
  ghost predicate SliceMadeOf(params: Params, name: string, elem: Type, vs: seq<Value>, m: nat, order: seq<string>)
    decreases elem, 3
  {
    && IsExtent(params, name, m) && Enumerates(order, Unindexed(params, name))
    && |vs| == m + |Flatten(params, order)| <= MAX_INT64
    && (forall i {:trigger SlotBindsTo(params, name, elem, i, vs[i])} ::
          0 <= i < m ==> SlotBindsTo(params, name, elem, i, vs[i]))
    && (forall j :: 0 <= j < |Flatten(params, order)| ==>
          BindsTo(Single(Flatten(params, order)[j]), "", elem, Some(vs[m + j])))
  }

  ghost predicate SlotBindsTo(params: Params, name: string, elem: Type, i: nat, w: Value)
    decreases elem, 2
  {
    if exists k :: k in Indexed(params, name) && SliceIndex(name, k) == i
    then exists k :: k in Indexed(params, name) && SliceIndex(name, k) == i
                     && BindsTo(params, SubKey(name, k), elem, Some(w))
    else w == Zero(elem)
  }

  /** The slice would be longer than an int can say, or binding an element panics. */
  ghost predicate SlicePanics(params: Params, name: string, elem: Type)
    decreases elem, 2
  {
    || (exists m: nat, order :: IsExtent(params, name, m) && Enumerates(order, Unindexed(params, name))
                                && m + |Flatten(params, order)| > MAX_INT64)
    || (exists k :: k in Indexed(params, name) && BindsTo(params, SubKey(name, k), elem, None))
    || (exists k, j :: k in Unindexed(params, name) && 0 <= j < |params[k]|
                       && BindsTo(Single(params[k][j]), "", elem, None))
  }

  ghost predicate MapBindsTo(params: Params, name: string, key: ScalarType, elem: Type, v: Value)
    decreases elem, 2
  {
    && name !in params
    && v.Dict?
    && v.entries.Keys == (set f | f in MapFields(params.Keys, name) :: ParseAtom(key, f))
    && forall a :: a in v.entries ==>
         exists f :: f in MapFields(params.Keys, name) && ParseAtom(key, f) == a
                     && BindsTo(params, EntryName(name, f), elem, Some(v.entries[a]))
  }

  // ---------- what Unbind writes ----------

  type Pair = (string, string)

  ghost function Leaves(name: string, t: Type, v: Value): set<Pair>
    decreases t
  {
    match (t, v)
    case (Scalar(_), Leaf(a)) => {(name, AtomText(a))}
    case (Slice(elem), List(es)) =>
      set i, l | 0 <= i < |es| && l in Leaves(ElementName(name, i), elem, es[i]) :: l
    case (Struct(fields), Record(vs)) =>
      set i, l | 0 <= i < |fields| && i < |vs| && fields[i].exported
                 && l in Leaves(FieldName(name, fields[i].name), fields[i].typ, vs[i]) :: l
    case (Map(_, elem), Dict(m)) =>
      set a, l | a in m.Keys && l in Leaves(EntryName(name, AtomText(a)), elem, m[a]) :: l
    case _ => {}
  }

  ghost function KeysOf(leaves: set<Pair>): set<string> {
    set l | l in leaves :: l.0
  }

  /** `after` is `before` with the leaves written over it, in whatever order. */
  ghost predicate Written(before: map<string, string>, after: map<string, string>, leaves: set<Pair>) {
    && after.Keys == before.Keys + KeysOf(leaves)
    && forall k :: k in after ==>
         if k in KeysOf(leaves) then (k, after[k]) in leaves else after[k] == before[k]
  }

  /** Unbind writes at least one key. */
  predicate Speaks(t: Type, v: Value) {
    match (t, v)
    case (Scalar(_), Leaf(_)) => true
    case (Slice(elem), List(es)) => exists i :: 0 <= i < |es| && Speaks(elem, es[i])
    case (Struct(fields), Record(vs)) =>
      exists i :: 0 <= i < |fields| && i < |vs| && fields[i].exported && Speaks(fields[i].typ, vs[i])
    case (Map(_, elem), Dict(m)) => exists a :: a in m.Keys && Speaks(elem, m[a])
    case _ => false
  }

  /**
   * What a caller can look at before relying on the round trip: nothing hides in unexported fields, the last
   * element of a slice and every map value write a key, and no map key holds a dot or an opening bracket.
   */
  predicate Faithful(t: Type, v: Value) {
    match (t, v)
    case (Scalar(_), Leaf(_)) => true
    case (Slice(elem), List(es)) =>
      && (forall i :: 0 <= i < |es| ==> Faithful(elem, es[i]))
      && (es != [] ==> Speaks(elem, es[|es| - 1]))
    case (Struct(fields), Record(vs)) =>
      forall i :: 0 <= i < |fields| && i < |vs| ==>
        if fields[i].exported then Faithful(fields[i].typ, vs[i]) else vs[i] == Zero(fields[i].typ)
    case (Map(_, elem), Dict(m)) =>
      forall a :: a in m.Keys ==> Clean(AtomText(a)) && Speaks(elem, m[a]) && Faithful(elem, m[a])
    case _ => false
  }

  // ---------- framing ----------

  /** The key is the name itself or one of its components. */
  predicate Under(name: string, key: string) {
    key == name || name + "." <= key || name + "[" <= key
  }

  /** The parameters hold the leaves, and otherwise only keys that do not concern the name. */
  ghost predicate Carries(params: Params, name: string, leaves: set<Pair>) {
    && KeysOf(leaves) <= params.Keys
    && forall k :: k in params ==>
         if k in KeysOf(leaves) then params[k] != [] && (k, params[k][0]) in leaves else !Under(name, k)
  }
}
