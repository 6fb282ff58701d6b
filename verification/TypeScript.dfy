/** The TypeScript type expressions the generator emits, what JSON values they admit, and how they print. */
module TypeScript {
  import opened Wrappers
  import opened Json
  import opened Text

  datatype Prop = Prop(key: string, doc: seq<string>, optional: bool, ty: Ty)

  /** `note` is a trailing comment, printed verbatim. */
  datatype Ty =
    | TUnknown(note: string)
    | TNever
    | TLit(value: Json)
    | TString(note: string)
    | TNumber
    | TBoolean
    | TNull
    | TArray(elem: Ty)
    | TUnion(arms: seq<Ty>)
    | TInter(parts: seq<Ty>)
    | TRecord(value_: Ty)
    | TEmpty
    | TObject(props: seq<Prop>, index: Option<Ty>)

  predicate Listed(props: seq<Prop>, key: string) {
    exists p | p in props :: p.key == key
  }

  /** Structural reading of a type over JSON values. An index signature covers the keys not listed. */
  ghost predicate Inhabits(v: Json, t: Ty)
    decreases t
  {
    match t
    case TUnknown(_) => true
    case TNever => false
    case TLit(x) => v == x
    case TString(_) => v.JStr?
    case TNumber => v.JNum?
    case TBoolean => v.JBool?
    case TNull => v.JNull?
    case TArray(elem) => v.JArr? && forall x | x in v.items :: Inhabits(x, elem)
    case TUnion(arms) => exists a | a in arms :: Inhabits(v, a)
    case TInter(parts) => forall a | a in parts :: Inhabits(v, a)
    case TRecord(value) => v.JObj? && forall m | m in v.members :: Inhabits(m.value, value)
    case TEmpty => v.JObj?
    case TObject(props, index) =>
      && v.JObj?
      && (forall p | p in props && !p.optional :: Find(v.members, p.key).Some?)
      && (forall m, p | m in v.members && p in props && p.key == m.key :: Inhabits(m.value, p.ty))
      && (index.Some? ==> forall m | m in v.members && !Listed(props, m.key) :: Inhabits(m.value, index.value))
  }

  // ---------- printing ----------

  /** `JSON.stringify` on primitive values and on property names. */
  type Stringify = Json -> string

  function Indent(depth: nat): string {
    Spaces(2 * depth)
  }

  predicate IdentStart(c: char) {
    'a' <= c <= 'z' || 'A' <= c <= 'Z' || c == '_' || c == '$'
  }

  predicate IsIdentifier(s: string) {
    s != "" && IdentStart(s[0]) && forall i | 1 <= i < |s| :: IdentStart(s[i]) || '0' <= s[i] <= '9'
  }

  function PropKey(str: Stringify, key: string): string {
    if IsIdentifier(key) then key else str(JStr(key))
  }

  function Print(str: Stringify, t: Ty, depth: nat): string
    decreases t, 1
  {
    match t
    case TUnknown(note) => "unknown" + note
    case TNever => "never"
    case TLit(x) => str(x)
    case TString(note) => "string" + note
    case TNumber => "number"
    case TBoolean => "boolean"
    case TNull => "null"
    case TArray(elem) => "Array<" + Print(str, elem, depth + 1) + ">"
    case TUnion(arms) => Join(PrintAll(str, arms, depth), " | ")
    case TInter(parts) => Join(PrintAll(str, parts, depth), " & ")
    case TRecord(value) => "Record<string, " + Print(str, value, depth + 1) + ">"
    case TEmpty => "{}"
    case TObject(props, index) =>
      Join(["{"] + PrintProps(str, props, depth) + PrintIndex(str, index, depth) + [Indent(depth) + "}"], "\n")
  }

  function PrintAll(str: Stringify, ts: seq<Ty>, depth: nat): (r: seq<string>)
    ensures |r| == |ts|
    decreases ts, 0
  {
    if ts == [] then [] else [Print(str, ts[0], depth)] + PrintAll(str, ts[1..], depth)
  }

  function DocLines(doc: seq<string>, depth: nat): seq<string> {
    if doc == [] then [] else [Indent(depth + 1) + "/** " + doc[0] + " */"] + DocLines(doc[1..], depth)
  }

  function PrintProps(str: Stringify, props: seq<Prop>, depth: nat): seq<string>
    decreases props, 0
  {
    if props == [] then []
    else PrintProp(str, props[0], depth) + PrintProps(str, props[1..], depth)
  }

  function PrintProp(str: Stringify, p: Prop, depth: nat): seq<string>
    decreases p, 1
  {
    DocLines(p.doc, depth) +
    var mark := if p.optional then "?" else "";
    [Indent(depth + 1) + PropKey(str, p.key) + mark + ": " + Print(str, p.ty, depth + 1) + ";"]
  }

  function PrintIndex(str: Stringify, index: Option<Ty>, depth: nat): seq<string>
    decreases index, 0
  {
    match index
    case None => []
    case Some(t) => [Indent(depth + 1) + "[key: string]: " + Print(str, t, depth + 1) + ";"]
  }
}
