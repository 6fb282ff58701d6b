/** The schema compiler of packages/cli/src/capabilities-gen-cli.ts as a function from schemas to type expressions. */
module SchemaTypes {
  import opened Wrappers
  import opened Json
  import opened Text
  import opened CapabilitySchema
  import opened TypeScript

  // ---------- sorted keys ----------

  /** Order of `Array.prototype.sort` on strings: by code unit. */
  predicate Less(a: string, b: string) {
    if b == "" then false
    else if a == "" then true
    else a[0] < b[0] || (a[0] == b[0] && Less(a[1..], b[1..]))
  }

  predicate StrictlySorted(s: seq<string>) {
    forall i, j | 0 <= i < j < |s| :: Less(s[i], s[j])
  }

  lemma {:induction false} LessTotal(a: string, b: string)
    ensures a == b || Less(a, b) || Less(b, a)
    ensures !(Less(a, b) && Less(b, a)) && !Less(a, a)
  {
    if a != "" && b != "" && a[0] == b[0] {
      LessTotal(a[1..], b[1..]);
      if a[1..] == b[1..] {
        assert a == [a[0]] + a[1..] == [b[0]] + b[1..] == b;
      }
    }
    if a != "" {
      LessIrreflexive(a);
    }
  }

  lemma {:induction false} LessIrreflexive(a: string)
    ensures !Less(a, a)
  {
    if a != "" { LessIrreflexive(a[1..]); }
  }

  lemma {:induction false} LessTransitive(a: string, b: string, c: string)
    requires Less(a, b) && Less(b, c)
    ensures Less(a, c)
  {
    if a != "" && a[0] == b[0] && b[0] == c[0] {
      LessTransitive(a[1..], b[1..], c[1..]);
    }
  }

  function Insert(key: string, s: seq<string>): seq<string> {
    if s == [] then [key]
    else if key == s[0] then s
    else if Less(key, s[0]) then [key] + s
    else [s[0]] + Insert(key, s[1..])
  }

  lemma {:induction false} InsertSorted(key: string, s: seq<string>)
    requires StrictlySorted(s)
    ensures StrictlySorted(Insert(key, s))
    ensures forall k :: k in Insert(key, s) <==> k == key || k in s
  {
    if s != [] && key != s[0] {
      LessTotal(key, s[0]);
      if Less(key, s[0]) {
        forall j | 1 <= j < |s| ensures Less(key, s[j]) { LessTransitive(key, s[0], s[j]); }
      } else {
        InsertSorted(key, s[1..]);
        var r := Insert(key, s[1..]);
        forall j | 0 <= j < |r| ensures Less(s[0], r[j]) {
          assert r[j] in r;
          if r[j] != key {
            var i :| 0 <= i < |s| - 1 && s[1..][i] == r[j];
            assert s[i + 1] == r[j];
          }
        }
        assert s == [s[0]] + s[1..];
      }
    }
  }

  /** `Object.keys(props).sort()`. */
  function SortedKeys(members: seq<Member>): (r: seq<string>) {
    if members == [] then [] else Insert(members[0].key, SortedKeys(members[1..]))
  }

  lemma {:induction false} SortedKeysCorrect(members: seq<Member>)
    ensures StrictlySorted(SortedKeys(members))
    ensures forall k :: k in SortedKeys(members) <==> Find(members, k).Some?
  {
    if members != [] {
      SortedKeysCorrect(members[1..]);
      InsertSorted(members[0].key, SortedKeys(members[1..]));
    }
  }

  /** A strictly sorted list is determined by its elements. */
  lemma {:induction false} SortedUnique(a: seq<string>, b: seq<string>)
    requires StrictlySorted(a) && StrictlySorted(b)
    requires forall k :: k in a <==> k in b
    ensures a == b
  {
    assert a != [] ==> a[0] in a;
    assert b != [] ==> b[0] in b;
    if a != [] {
      HeadLeast(a, b[0]);
      HeadLeast(b, a[0]);
      LessTotal(a[0], b[0]);
      TailElements(a);
      TailElements(b);
      SortedUnique(a[1..], b[1..]);
      assert a == [a[0]] + a[1..] && b == [b[0]] + b[1..];
    }
  }

  lemma HeadLeast(a: seq<string>, k: string)
    requires StrictlySorted(a) && k in a
    ensures a[0] == k || Less(a[0], k)
  {
    var i :| 0 <= i < |a| && a[i] == k;
  }

  lemma TailElements(a: seq<string>)
    requires a != [] && StrictlySorted(a)
    ensures StrictlySorted(a[1..])
    ensures forall k :: k in a[1..] <==> k in a && k != a[0]
  {
    LessIrreflexive(a[0]);
    forall k ensures k in a[1..] <==> k in a && k != a[0] {
      if k in a[1..] {
        var i :| 0 <= i < |a| - 1 && a[1..][i] == k;
        assert Less(a[0], a[i + 1]);
      }
    }
  }

  // ---------- compilation ----------

  function LitOrUnknown(c: Json): Ty {
    if IsPrimitive(c) then TLit(c) else TUnknown("")
  }

  function LitAll(es: seq<Json>): (r: seq<Ty>)
    ensures |r| == |es| && forall i | 0 <= i < |es| :: r[i] == LitOrUnknown(es[i])
  {
    seq(|es|, i requires 0 <= i < |es| => LitOrUnknown(es[i]))
  }

  /** `extractDescription`, already split into lines. */
  function DocOf(schema: Json): seq<string> {
    match Get(schema, "description")
    case Some(JStr(d)) => if d == "" then [] else SplitLines(d)
    case _ => []
  }

  function FormatNote(j: Json): string {
    match Get(j, "format")
    case Some(JStr(f)) => " /* format: " + f + " */"
    case _ => ""
  }

  /** `renderType` without the printing. */
  function Compile(schema: Json): Ty
    decreases schema, 5
  {
    match schema
    case JBool(b) => if b then TUnknown("") else TNever
    case JObj(_) => CompileNode(schema)
    case _ => TUnknown("")
  }

  function CompileNode(j: Json): Ty
    requires j.JObj?
    decreases j, 4
  {
    if IsRef(j) then TUnknown(" /* $ref: " + Get(j, "$ref").value.s + " */")
    else if ListAt(j, "enum").Some? then TUnion(LitAll(ListAt(j, "enum").value))
    else if Get(j, "const").Some? then LitOrUnknown(Get(j, "const").value)
    else if ListAt(j, "oneOf").Some? then TUnion(CompileAll(j, ListAt(j, "oneOf").value))
    else if ListAt(j, "anyOf").Some? then TUnion(CompileAll(j, ListAt(j, "anyOf").value))
    else if ListAt(j, "allOf").Some? then TInter(CompileAll(j, ListAt(j, "allOf").value))
    else if Get(j, "type").Some? then CompileTypes(j, Get(j, "type").value)
    else TUnknown("")
  }

  function CompileAll(j: Json, subs: seq<Json>): (r: seq<Ty>)
    requires forall i | 0 <= i < |subs| :: subs[i] < j
    ensures |r| == |subs|
    decreases j, 0, |subs|
  {
    if subs == [] then [] else [Compile(subs[0])] + CompileAll(j, subs[1..])
  }

  /** The `type` keyword: one name, or a list of alternatives each compiled on its own. */
  function CompileTypes(j: Json, t: Json): Ty
    requires j.JObj?
    decreases j, 3, t, 1
  {
    match t
    case JStr(_) => CompileName(j, t)
    case JArr(ts) =>
      if ts == [] then TUnknown("")
      else if |ts| == 1 then CompileName(j, ts[0])
      else TUnion(CompileEach(j, ts))
    case _ => TUnknown("")
  }

  function CompileEach(j: Json, ts: seq<Json>): (r: seq<Ty>)
    requires j.JObj?
    ensures |r| == |ts|
    decreases j, 3, ts, 0
  {
    if ts == [] then [] else [CompileTypes(j, ts[0])] + CompileEach(j, ts[1..])
  }

  function CompileName(j: Json, t: Json): Ty
    requires j.JObj?
    decreases j, 2
  {
    if !t.JStr? then TUnknown("")
    else
      match t.s
      case "string" => TString(FormatNote(j))
      case "integer" => TNumber
      case "number" => TNumber
      case "boolean" => TBoolean
      case "null" => TNull
      case "array" => TArray(if Get(j, "items").Some? then Compile(Get(j, "items").value) else TUnknown(""))
      case "object" => CompileObject(j)
      case _ => TUnknown("")
  }

  /** `renderObject` without the printing. */
  function CompileObject(j: Json): Ty
    requires j.JObj?
    decreases j, 1
  {
    var keys := SortedKeys(PropsOf(j));
    if keys == [] then
      if Get(j, "additionalProperties") == Some(JBool(false)) then TEmpty
      else TRecord(if ExtraSchema(j).Some? then Compile(ExtraSchema(j).value) else TUnknown(""))
    else TObject(CompileProps(j, keys), CompileIndex(j))
  }

  function CompileIndex(j: Json): Option<Ty>
    decreases j, 0, 0
  {
    match ExtraSchema(j)
    case None => None
    case Some(s) => Some(Compile(s))
  }

  function CompileProps(j: Json, keys: seq<string>): (r: seq<Prop>)
    ensures |r| == |keys|
    decreases j, 0, |keys|
  {
    if keys == [] then [] else [CompileProp(j, keys[0])] + CompileProps(j, keys[1..])
  }

  function CompileProp(j: Json, key: string): Prop
    decreases j, 0, 0
  {
    match PropOf(j, key)
    case Some(s) => Prop(key, DocOf(s), !Requires(j, key), Compile(s))
    case None => Prop(key, [], !Requires(j, key), TUnknown(""))
  }

  lemma {:induction false} CompileAllAt(j: Json, subs: seq<Json>, i: nat)
    requires forall k | 0 <= k < |subs| :: subs[k] < j
    requires i < |subs|
    ensures CompileAll(j, subs)[i] == Compile(subs[i])
    decreases |subs|
  {
    if i > 0 { CompileAllAt(j, subs[1..], i - 1); }
  }

  lemma {:induction false} CompileEachAt(j: Json, ts: seq<Json>, i: nat)
    requires j.JObj? && i < |ts|
    ensures CompileEach(j, ts)[i] == CompileTypes(j, ts[i])
  {
    if i > 0 { CompileEachAt(j, ts[1..], i - 1); }
  }

  lemma {:induction false} CompilePropsAt(j: Json, keys: seq<string>, i: nat)
    requires i < |keys|
    ensures CompileProps(j, keys)[i] == CompileProp(j, keys[i])
  {
    if i > 0 { CompilePropsAt(j, keys[1..], i - 1); }
  }
}
