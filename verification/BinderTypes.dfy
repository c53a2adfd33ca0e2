/** Go types and values as the parameter binder sees them through reflection. */
module BinderTypes {
  import opened Text

  datatype Width = W8 | W16 | W32 | W64

  datatype ScalarType = SInt(width: Width) | SUint(width: Width) | SBool | SString

  datatype Field = Field(name: string, exported: bool, typ: Type)

  datatype Type =
    | Scalar(scalar: ScalarType)
    | Slice(elem: Type)
    | Struct(fields: seq<Field>)
    | Map(key: ScalarType, elem: Type)

  datatype Atom = Int(n: int) | Uint(u: int) | Bool(b: bool) | Str(s: string)

  /** A nil slice and an empty one are the same List, a nil map and an empty one the same Dict. */
  datatype Value =
    | Leaf(atom: Atom)
    | List(elems: seq<Value>)
    | Record(fields: seq<Value>)
    | Dict(entries: map<Atom, Value>)

  function Modulus(w: Width): int {
    match w
    case W8 => 0x100
    case W16 => 0x1_0000
    case W32 => 0x1_0000_0000
    case W64 => 0x1_0000_0000_0000_0000
  }

  /** reflect.Value.SetInt keeps the low bits of a 64-bit number. */
  function TruncateInt(w: Width, n: int): int {
    (n + Modulus(w) / 2) % Modulus(w) - Modulus(w) / 2
  }

  /** reflect.Value.SetUint keeps the low bits as well. */
  function TruncateUint(w: Width, n: int): int {
    n % Modulus(w)
  }

  predicate HasAtomType(a: Atom, t: ScalarType) {
    match t
    case SInt(w) => a.Int? && -(Modulus(w) / 2) <= a.n < Modulus(w) / 2
    case SUint(w) => a.Uint? && 0 <= a.u < Modulus(w)
    case SBool => a.Bool?
    case SString => a.Str?
  }

  /** v is a value of type t. A slice is never longer than the largest int. */
  ghost predicate HasType(v: Value, t: Type) {
    match t
    case Scalar(s) => v.Leaf? && HasAtomType(v.atom, s)
    case Slice(elem) => v.List? && |v.elems| <= MAX_INT64 && forall i :: 0 <= i < |v.elems| ==> HasType(v.elems[i], elem)
    case Struct(fields) =>
      v.Record? && |v.fields| == |fields| && forall i :: 0 <= i < |fields| ==> HasType(v.fields[i], fields[i].typ)
    case Map(key, elem) =>
      v.Dict? && forall a :: a in v.entries ==> HasAtomType(a, key) && HasType(v.entries[a], elem)
  }

  function ZeroAtom(t: ScalarType): Atom {
    match t
    case SInt(_) => Int(0)
    case SUint(_) => Uint(0)
    case SBool => Bool(false)
    case SString => Str("")
  }

  /** reflect.Zero */
  function Zero(t: Type): Value {
    match t
    case Scalar(s) => Leaf(ZeroAtom(s))
    case Slice(_) => List([])
    case Struct(fields) => Record(seq(|fields|, i requires 0 <= i < |fields| => Zero(fields[i].typ)))
    case Map(_, _) => Dict(map[])
  }

  predicate IsBreak(c: char) {
    c == '.' || c == '['
  }

  /** No character at which nextKey stops. */
  predicate Clean(s: string) {
    forall i :: 0 <= i < |s| ==> !IsBreak(s[i])
  }

  /**
   * What the Go compiler guarantees about a struct type: field names are identifiers, and an exported
   * name occurs once. []byte has a binder of its own and is not one of the types modelled.
   */
  predicate Supported(t: Type) {
    match t
    case Scalar(_) => true
    case Slice(elem) => elem != Scalar(SUint(W8)) && Supported(elem)
    case Struct(fields) =>
      forall i :: 0 <= i < |fields| ==>
        && Supported(fields[i].typ)
        && fields[i].name != "" && Clean(fields[i].name) && ']' !in fields[i].name
        && (fields[i].exported ==> forall j :: 0 <= j < |fields| && j != i ==> fields[j].name != fields[i].name)
    case Map(_, elem) => Supported(elem)
  }

  /** fmt.Sprintf with %d, %t or %v, which agree on these kinds. */
  function AtomText(a: Atom): string {
    match a
    case Int(n) => FormatInt(n)
    case Uint(u) => FormatInt(u)
    case Bool(b) => if b then "true" else "false"
    case Str(s) => s
  }

  function Lower(c: char): char {
    if 'A' <= c <= 'Z' then (c as int - 'A' as int + 'a' as int) as char else c
  }

  function ToLower(s: string): string {
    seq(|s|, i requires 0 <= i < |s| => Lower(s[i]))
  }

  /** unicode.IsSpace */
  predicate IsSpace(c: char) {
    || '\t' <= c <= '\r'
    || c in {' ', 0x85 as char, 0xA0 as char, 0x1680 as char, 0x2028 as char, 0x2029 as char, 0x202F as char,
             0x205F as char, 0x3000 as char}
    || 0x2000 as char <= c <= 0x200A as char
  }

  function TrimLeft(s: string): string {
    if s != "" && IsSpace(s[0]) then TrimLeft(s[1..]) else s
  }

  function TrimRight(s: string): string {
    if s != "" && IsSpace(s[|s| - 1]) then TrimRight(s[..|s| - 1]) else s
  }

  /** revel.Atob: everything is true but six spellings of false. */
  predicate Atob(s: string) {
    TrimRight(TrimLeft(ToLower(s))) !in {"", "false", "off", "f", "0", "0.0"}
  }

  /** IntBinder, UintBinder, BoolBinder and StringBinder on the text of one parameter. */
  function ParseAtom(t: ScalarType, text: string): Atom {
    match t
    case SInt(w) => if ParseInt(text).ok then Int(TruncateInt(w, ParseInt(text).value)) else Int(0)
    case SUint(w) => if ParseUint(text).ok then Uint(TruncateUint(w, ParseUint(text).value)) else Uint(0)
    case SBool => Bool(Atob(text))
    case SString => Str(text)
  }

  lemma TruncateInRange(w: Width, n: int)
    ensures -(Modulus(w) / 2) <= n < Modulus(w) / 2 ==> TruncateInt(w, n) == n
    ensures 0 <= n < Modulus(w) ==> TruncateUint(w, n) == n
  {
  }

  lemma AtobOfBool()
    ensures Atob("true") && !Atob("false")
  {
    assert ToLower("true") == "true" && ToLower("false") == "false";
    assert TrimLeft("true") == TrimRight("true") == "true";
    assert TrimLeft("false") == TrimRight("false") == "false";
  }

  /** Reading back the text of a number, a flag or a string gives it back. */
  lemma ParseAtomOfText(t: ScalarType, a: Atom)
    requires HasAtomType(a, t)
    ensures ParseAtom(t, AtomText(a)) == a
  {
    match t
    case SInt(w) => ParseFormatted(a.n); TruncateInRange(w, a.n);
    case SUint(w) => ParseFormatted(a.u); TruncateInRange(w, a.u);
    case SBool => AtobOfBool();
    case SString =>
  }

  lemma ParsedAtomHasType(t: ScalarType, text: string)
    ensures HasAtomType(ParseAtom(t, text), t)
  {
  }

  lemma ZeroHasType(t: Type)
    ensures HasType(Zero(t), t)
  {
  }
}
