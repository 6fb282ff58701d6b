/** Where the compiled type is exact, and two places where the promise of over-approximation ends. */
module SchemaExactness {
  import opened Wrappers
  import opened Json
  import opened CapabilitySchema
  import opened TypeScript
  import opened SchemaTypes
  import opened SchemaSoundness

  // ---------- the plain fragment ----------

  /** None of the keywords that name a single value or combine schemas. */
  predicate NoChoice(j: Json) {
    && Get(j, "$ref").None? && Get(j, "not").None? && Get(j, "oneOf").None?
    && Get(j, "enum").None? && Get(j, "const").None? && Get(j, "anyOf").None? && Get(j, "allOf").None?
  }

  /** None of the keywords about types and parts. */
  predicate NoShape(j: Json) {
    && Get(j, "type").None? && Get(j, "items").None? && Get(j, "properties").None? && Get(j, "required").None?
    && Get(j, "additionalProperties").None?
  }

  predicate PlainName(t: Json) {
    t.JStr? && t.s in {"string", "number", "boolean", "null", "array", "object"}
  }

  predicate PlainTypes(t: Json) {
    PlainName(t) || (t.JArr? && t.items != [] && forall x | x in t.items :: PlainName(x))
  }

  /** Every required name is listed, and the object is open or its extra properties have a schema. */
  predicate PlainShape(j: Json) {
    && (forall k | k in RequiredNames(j) :: PropOf(j, k).Some?)
    && Get(j, "additionalProperties") != Some(JBool(false))
  }

  function RequiredNames(j: Json): (r: set<string>)
    ensures forall k :: k in r <==> Requires(j, k)
  {
    match ListAt(j, "required")
    case Some(rs) => set r | r in rs && r.JStr? :: r.s
    case None => {}
  }

  /** Schemas with one keyword group, primitive enumerations, no bounds, no `integer`, and `oneOf` only over
      alternatives that exclude each other. */
  ghost predicate Plain(env: Env, j: Json)
    decreases j, 1
  {
    j.JObj? ==>
      || PlainBare(j) || PlainEnum(j) || PlainConst(j)
      || PlainOne(env, j) || PlainAny(env, j) || PlainAll(env, j) || PlainTyped(env, j)
  }

  predicate PlainBare(j: Json) {
    j.JObj? && NoChoice(j) && NoShape(j)
  }

  predicate PlainEnum(j: Json) {
    && j.JObj? && NoShape(j) && Get(j, "$ref").None? && Get(j, "not").None? && Get(j, "oneOf").None?
    && Get(j, "const").None? && Get(j, "anyOf").None? && Get(j, "allOf").None?
    && ListAt(j, "enum").Some? && forall e | e in ListAt(j, "enum").value :: IsPrimitive(e)
  }

  predicate PlainConst(j: Json) {
    && j.JObj? && NoShape(j) && Get(j, "$ref").None? && Get(j, "not").None? && Get(j, "oneOf").None?
    && Get(j, "enum").None? && Get(j, "anyOf").None? && Get(j, "allOf").None?
    && Get(j, "const").Some? && IsPrimitive(Get(j, "const").value)
  }

  /** No value satisfies two of the alternatives. */
  ghost predicate Exclusive(env: Env, subs: seq<Json>) {
    forall v, i, k | 0 <= i < k < |subs| :: !(Accepts(env, subs[i], v) && Accepts(env, subs[k], v))
  }

  ghost predicate PlainOne(env: Env, j: Json)
    decreases j, 0, 1
  {
    OneOfPlain(env, j) && Exclusive(env, ListAt(j, "oneOf").value)
  }

  /** `oneOf` over any plain alternatives. */
  ghost predicate OneOfPlain(env: Env, j: Json)
    decreases j, 0, 0
  {
    && j.JObj? && NoShape(j) && Get(j, "$ref").None? && Get(j, "not").None? && Get(j, "anyOf").None?
    && Get(j, "enum").None? && Get(j, "const").None? && Get(j, "allOf").None?
    && ListAt(j, "oneOf").Some?
    && forall i | 0 <= i < |ListAt(j, "oneOf").value| :: Plain(env, ListAt(j, "oneOf").value[i])
  }

  ghost predicate PlainAny(env: Env, j: Json)
    decreases j, 0
  {
    && j.JObj? && NoShape(j) && Get(j, "$ref").None? && Get(j, "not").None? && Get(j, "oneOf").None?
    && Get(j, "enum").None? && Get(j, "const").None? && Get(j, "allOf").None?
    && ListAt(j, "anyOf").Some?
    && forall i | 0 <= i < |ListAt(j, "anyOf").value| :: Plain(env, ListAt(j, "anyOf").value[i])
  }

  ghost predicate PlainAll(env: Env, j: Json)
    decreases j, 0
  {
    && j.JObj? && NoShape(j) && Get(j, "$ref").None? && Get(j, "not").None? && Get(j, "oneOf").None?
    && Get(j, "enum").None? && Get(j, "const").None? && Get(j, "anyOf").None?
    && ListAt(j, "allOf").Some?
    && forall i | 0 <= i < |ListAt(j, "allOf").value| :: Plain(env, ListAt(j, "allOf").value[i])
  }

  ghost predicate PlainTyped(env: Env, j: Json)
    decreases j, 0
  {
    && j.JObj? && NoChoice(j)
    && Get(j, "type").Some? && PlainTypes(Get(j, "type").value) && PlainShape(j)
    && (Get(j, "items").Some? ==> Plain(env, Get(j, "items").value))
    && (ExtraSchema(j).Some? ==> Plain(env, ExtraSchema(j).value))
    && forall i | 0 <= i < |PropsOf(j)| :: Plain(env, PropsOf(j)[i].value)
  }

  /** On the plain fragment, and with no bounds to check, the schema accepts every value of its type. */
  lemma {:induction false} Complete(env: Env, j: Json, v: Json)
    requires Plain(env, j) && (forall s, x :: env.extra(s, x)) && Inhabits(v, Compile(j))
    ensures Accepts(env, j, v)
    decreases j, 3
  {
    if j.JObj? {
      if PlainBare(j) { CompleteBare(env, j, v); }
      else if PlainEnum(j) { CompleteEnum(env, j, v); }
      else if PlainConst(j) { CompleteConst(env, j, v); }
      else if PlainOne(env, j) { CompleteOne(env, j, v); }
      else if PlainAny(env, j) { CompleteAny(env, j, v); }
      else if PlainAll(env, j) { CompleteAll(env, j, v); }
      else { CompleteTyped(env, j, v); }
    }
  }

  lemma NodeAccepts(env: Env, j: Json, v: Json)
    requires j.JObj? && !IsRef(j) && TypeOk(j, v) && ConstOk(env, j, v) && EnumOk(env, j, v) && env.extra(j, v)
    requires v.JObj? ==> RequiredOk(env, j, v) && forall m | m in v.members :: MemberOk(env, j, m)
    requires v.JArr? ==> forall x | x in v.items :: ItemOk(env, j, x)
    requires OneOfOk(env, j, v) && AnyOfOk(env, j, v) && AllOfOk(env, j, v) && NotOk(env, j, v)
    ensures Accepts(env, j, v)
  {
    assert NodeOk(env, j, v);
  }

  /** Absent keywords constrain nothing. */
  lemma AbsentChoice(env: Env, j: Json, v: Json)
    ensures Get(j, "enum").None? ==> EnumOk(env, j, v)
    ensures Get(j, "const").None? ==> ConstOk(env, j, v)
    ensures Get(j, "oneOf").None? ==> OneOfOk(env, j, v)
    ensures Get(j, "anyOf").None? ==> AnyOfOk(env, j, v)
    ensures Get(j, "allOf").None? ==> AllOfOk(env, j, v)
    ensures Get(j, "not").None? ==> NotOk(env, j, v)
  {
  }

  lemma AbsentShape(env: Env, j: Json, v: Json)
    requires NoShape(j)
    ensures TypeOk(j, v)
    ensures v.JObj? ==> RequiredOk(env, j, v) && forall m | m in v.members :: MemberOk(env, j, m)
    ensures v.JArr? ==> forall x | x in v.items :: ItemOk(env, j, x)
  {
    if v.JObj? {
      forall m | m in v.members ensures MemberOk(env, j, m) {
        assert PropsOf(j) == [] && ExtraSchema(j).None?;
      }
    }
  }

  lemma CompileConst(j: Json)
    requires j.JObj? && !IsRef(j) && ListAt(j, "enum").None? && Get(j, "const").Some?
    ensures Compile(j) == LitOrUnknown(Get(j, "const").value)
  {
    assert Compile(j) == CompileNode(j);
  }

  lemma CompileAny(j: Json)
    requires j.JObj? && !IsRef(j) && ListAt(j, "enum").None? && Get(j, "const").None? && ListAt(j, "oneOf").None?
    requires ListAt(j, "anyOf").Some?
    ensures Compile(j) == TUnion(CompileAll(j, ListAt(j, "anyOf").value))
  {
    assert Compile(j) == CompileNode(j);
  }

  lemma CompileAllOf(j: Json)
    requires j.JObj? && !IsRef(j) && ListAt(j, "enum").None? && Get(j, "const").None? && ListAt(j, "oneOf").None?
    requires ListAt(j, "anyOf").None? && ListAt(j, "allOf").Some?
    ensures Compile(j) == TInter(CompileAll(j, ListAt(j, "allOf").value))
  {
    assert Compile(j) == CompileNode(j);
  }

  lemma CompileTyped(j: Json)
    requires j.JObj? && !IsRef(j) && ListAt(j, "enum").None? && Get(j, "const").None? && ListAt(j, "oneOf").None?
    requires ListAt(j, "anyOf").None? && ListAt(j, "allOf").None? && Get(j, "type").Some?
    ensures Compile(j) == CompileTypes(j, Get(j, "type").value)
  {
    assert Compile(j) == CompileNode(j);
  }

  lemma CompleteBare(env: Env, j: Json, v: Json)
    requires PlainBare(j) && env.extra(j, v)
    ensures Accepts(env, j, v)
  {
    AbsentChoice(env, j, v);
    AbsentShape(env, j, v);
    NodeAccepts(env, j, v);
  }

  lemma LiteralMatches(env: Env, es: seq<Json>, v: Json)
    requires (forall e | e in es :: IsPrimitive(e)) && Inhabits(v, TUnion(LitAll(es)))
    ensures exists e | e in es :: DeepEqual(env, v, e)
  {
    var a :| a in LitAll(es) && Inhabits(v, a);
    var i :| 0 <= i < |es| && LitAll(es)[i] == a;
    assert es[i] in es && DeepEqual(env, v, es[i]);
  }

  lemma CompleteEnum(env: Env, j: Json, v: Json)
    requires PlainEnum(j) && env.extra(j, v) && Inhabits(v, Compile(j))
    ensures Accepts(env, j, v)
  {
    AbsentChoice(env, j, v);
    AbsentShape(env, j, v);
    var es := ListAt(j, "enum").value;
    assert Compile(j) == CompileNode(j) == TUnion(LitAll(es));
    LiteralMatches(env, es, v);
    NodeAccepts(env, j, v);
  }

  lemma CompleteConst(env: Env, j: Json, v: Json)
    requires PlainConst(j) && env.extra(j, v) && Inhabits(v, Compile(j))
    ensures Accepts(env, j, v)
  {
    AbsentChoice(env, j, v);
    AbsentShape(env, j, v);
    CompileConst(j);
    NodeAccepts(env, j, v);
  }

  lemma {:induction false} CompleteAny(env: Env, j: Json, v: Json)
    requires PlainAny(env, j) && (forall s, x :: env.extra(s, x)) && Inhabits(v, Compile(j))
    ensures Accepts(env, j, v)
    decreases j, 1
  {
    AbsentChoice(env, j, v);
    AbsentShape(env, j, v);
    CompileAny(j);
    var subs := ListAt(j, "anyOf").value;
    var i := ArmOf(j, subs, v);
    Complete(env, subs[i], v);
    NodeAccepts(env, j, v);
  }

  lemma CompileOne(j: Json)
    requires j.JObj? && !IsRef(j) && ListAt(j, "enum").None? && Get(j, "const").None? && ListAt(j, "oneOf").Some?
    ensures Compile(j) == TUnion(CompileAll(j, ListAt(j, "oneOf").value))
  {
    assert Compile(j) == CompileNode(j);
  }

  /** A value that one alternative accepts is counted at least once, and once more for every other. */
  lemma {:induction false} AcceptingMany(env: Env, j: Json, subs: seq<Json>, v: Json, i: nat)
    requires (forall k | 0 <= k < |subs| :: subs[k] < j) && i < |subs| && Accepts(env, subs[i], v)
    ensures Accepting(env, j, subs, v) >= 1
    ensures Accepting(env, j, subs, v) == 1 <==> forall k | 0 <= k < |subs| && k != i :: !Accepts(env, subs[k], v)
    decreases |subs|
  {
    var rest := subs[1..];
    if i == 0 {
      if Accepting(env, j, rest, v) > 0 {
        AcceptingSome(env, j, rest, v);
        var k :| 0 <= k < |rest| && Accepts(env, rest[k], v);
        assert subs[k + 1] == rest[k];
      } else {
        forall k | 0 < k < |subs| ensures !Accepts(env, subs[k], v) {
          if Accepts(env, rest[k - 1], v) { AcceptingMany(env, j, rest, v, k - 1); }
        }
      }
    } else {
      AcceptingMany(env, j, rest, v, i - 1);
      assert forall k | 0 < k < |subs| :: subs[k] == rest[k - 1];
      if forall k | 0 <= k < |rest| && k != i - 1 :: !Accepts(env, rest[k], v) {
        assert forall k | 0 < k < |subs| && k != i :: !Accepts(env, subs[k], v);
      } else {
        var k :| 0 <= k < |rest| && k != i - 1 && Accepts(env, rest[k], v);
        assert Accepts(env, subs[k + 1], v);
      }
    }
  }

  /** A value of the compiled alternatives is accepted by one of them, as they are plain. */
  lemma {:induction false} CompleteArm(env: Env, j: Json, v: Json) returns (i: nat)
    requires OneOfPlain(env, j) && (forall s, x :: env.extra(s, x)) && Inhabits(v, Compile(j))
    ensures i < |ListAt(j, "oneOf").value| && Accepts(env, ListAt(j, "oneOf").value[i], v)
    decreases j, 0
  {
    CompileOne(j);
    i := ArmOf(j, ListAt(j, "oneOf").value, v);
    Complete(env, ListAt(j, "oneOf").value[i], v);
  }

  lemma {:induction false} CompleteOne(env: Env, j: Json, v: Json)
    requires PlainOne(env, j) && (forall s, x :: env.extra(s, x)) && Inhabits(v, Compile(j))
    ensures Accepts(env, j, v)
    decreases j, 1
  {
    var subs := ListAt(j, "oneOf").value;
    var i := CompleteArm(env, j, v);
    OthersReject(env, subs, v, i);
    AcceptingMany(env, j, subs, v, i);
    OneNodeAccepts(env, j, v);
  }

  lemma OthersReject(env: Env, subs: seq<Json>, v: Json, i: nat)
    requires Exclusive(env, subs) && i < |subs| && Accepts(env, subs[i], v)
    ensures forall k | 0 <= k < |subs| && k != i :: !Accepts(env, subs[k], v)
  {
  }

  lemma OneNodeAccepts(env: Env, j: Json, v: Json)
    requires OneOfPlain(env, j) && env.extra(j, v)
    ensures Accepts(env, j, v) <==> Accepting(env, j, ListAt(j, "oneOf").value, v) == 1
  {
    AbsentChoice(env, j, v);
    AbsentShape(env, j, v);
    assert Accepts(env, j, v) == NodeOk(env, j, v);
  }

  lemma ArmOf(j: Json, subs: seq<Json>, v: Json) returns (i: nat)
    requires forall k | 0 <= k < |subs| :: subs[k] < j
    requires Inhabits(v, TUnion(CompileAll(j, subs)))
    ensures i < |subs| && Inhabits(v, Compile(subs[i]))
  {
    var arms := CompileAll(j, subs);
    var a :| a in arms && Inhabits(v, a);
    i :| 0 <= i < |subs| && arms[i] == a;
    CompileAllAt(j, subs, i);
  }

  lemma {:induction false} CompleteAll(env: Env, j: Json, v: Json)
    requires PlainAll(env, j) && (forall s, x :: env.extra(s, x)) && Inhabits(v, Compile(j))
    ensures Accepts(env, j, v)
    decreases j, 1
  {
    AbsentChoice(env, j, v);
    AbsentShape(env, j, v);
    CompileAllOf(j);
    var subs := ListAt(j, "allOf").value;
    forall i | 0 <= i < |subs| ensures Accepts(env, subs[i], v) {
      CompileAllAt(j, subs, i);
      assert CompileAll(j, subs)[i] in CompileAll(j, subs);
      Complete(env, subs[i], v);
    }
    NodeAccepts(env, j, v);
  }

  lemma {:induction false} CompleteTyped(env: Env, j: Json, v: Json)
    requires PlainTyped(env, j) && (forall s, x :: env.extra(s, x)) && Inhabits(v, Compile(j))
    ensures Accepts(env, j, v)
    decreases j, 2
  {
    AbsentChoice(env, j, v);
    var name := TypedReads(env, j, v);
    CompleteName(env, j, name, v);
    NodeAccepts(env, j, v);
  }

  lemma TypedReads(env: Env, j: Json, v: Json) returns (name: Json)
    requires PlainTyped(env, j) && Inhabits(v, Compile(j))
    ensures PlainName(name) && Inhabits(v, CompileName(j, name))
    ensures MatchesType(name, v) ==> TypeOk(j, v)
  {
    CompileTyped(j);
    name := InhabitedName(j, Get(j, "type").value, v);
  }

  /** A value of the compiled alternatives is a value of one of them. */
  lemma InhabitedName(j: Json, t: Json, v: Json) returns (name: Json)
    requires j.JObj? && PlainTypes(t) && Inhabits(v, CompileTypes(j, t))
    ensures PlainName(name) && Inhabits(v, CompileName(j, name))
    ensures if t.JArr? then name in t.items else name == t
  {
    if t.JArr? {
      var ts := t.items;
      assert ts[0] in ts;
      if |ts| == 1 {
        name := ts[0];
      } else {
        var a :| a in CompileEach(j, ts) && Inhabits(v, a);
        var i :| 0 <= i < |ts| && CompileEach(j, ts)[i] == a;
        CompileEachAt(j, ts, i);
        assert ts[i] in ts;
        name := ts[i];
      }
    } else {
      name := t;
    }
  }

  lemma NameMatches(j: Json, name: Json, v: Json)
    requires j.JObj? && PlainName(name) && Inhabits(v, CompileName(j, name))
    ensures MatchesType(name, v)
    ensures v.JArr? ==> name.s == "array"
    ensures v.JObj? ==> name.s == "object"
  {
    if name.s == "object" { assert Inhabits(v, CompileObject(j)); }
  }

  lemma {:induction false} CompleteName(env: Env, j: Json, name: Json, v: Json)
    requires j.JObj? && PlainTyped(env, j) && (forall s, x :: env.extra(s, x))
    requires PlainName(name) && Inhabits(v, CompileName(j, name))
    ensures MatchesType(name, v)
    ensures v.JObj? ==> RequiredOk(env, j, v) && forall m | m in v.members :: MemberOk(env, j, m)
    ensures v.JArr? ==> forall x | x in v.items :: ItemOk(env, j, x)
    decreases j, 1
  {
    NameMatches(j, name, v);
    if name.s == "array" {
      forall x | x in v.items ensures ItemOk(env, j, x) {
        if Get(j, "items").Some? { Complete(env, Get(j, "items").value, x); }
      }
    } else if name.s == "object" {
      CompleteObject(env, j, v);
    }
  }

  /** The compiled object type, read back key by key. */
  lemma ObjectTypeReads(j: Json, v: Json)
    requires j.JObj? && PlainShape(j) && Inhabits(v, CompileObject(j))
    ensures v.JObj?
    ensures forall k | Requires(j, k) :: Find(v.members, k).Some?
    ensures forall m | m in v.members :: MemberInhabits(j, m)
  {
    SortedKeysCorrect(PropsOf(j));
    if SortedKeys(PropsOf(j)) == [] {
      RecordReads(j, v);
    } else {
      forall k | Requires(j, k) ensures Find(v.members, k).Some? {
        assert k in RequiredNames(j);
        PropReads(j, v, k);
      }
      forall m | m in v.members ensures MemberInhabits(j, m) {
        if PropOf(j, m.key).Some? { PropReads(j, v, m.key); } else { ExtraReads(j, v, m); }
      }
    }
  }

  lemma RecordReads(j: Json, v: Json)
    requires j.JObj? && PlainShape(j) && SortedKeys(PropsOf(j)) == [] && Inhabits(v, CompileObject(j))
    ensures v.JObj? && forall k :: !Requires(j, k)
    ensures forall m | m in v.members :: MemberInhabits(j, m)
  {
    SortedKeysCorrect(PropsOf(j));
    assert forall k :: k !in SortedKeys(PropsOf(j));
    assert forall k | Requires(j, k) :: k in RequiredNames(j);
  }

  lemma ExtraReads(j: Json, v: Json, m: Member)
    requires j.JObj? && SortedKeys(PropsOf(j)) != [] && Inhabits(v, CompileObject(j))
    requires v.JObj? && m in v.members && PropOf(j, m.key).None?
    ensures MemberInhabits(j, m)
  {
    KeyListed(j, m.key);
    assert CompileObject(j) == TObject(CompileProps(j, SortedKeys(PropsOf(j))), CompileIndex(j));
  }

  ghost predicate MemberInhabits(j: Json, m: Member) {
    match PropOf(j, m.key)
    case Some(s) => Inhabits(m.value, Compile(s))
    case None => ExtraSchema(j).Some? ==> Inhabits(m.value, Compile(ExtraSchema(j).value))
  }

  ghost predicate PropInhabits(j: Json, v: Json, k: string)
    requires v.JObj?
  {
    && (Requires(j, k) ==> Find(v.members, k).Some?)
    && forall m | m in v.members && m.key == k :: MemberInhabits(j, m)
  }

  lemma PropReads(j: Json, v: Json, k: string)
    requires j.JObj? && PropOf(j, k).Some? && SortedKeys(PropsOf(j)) != [] && Inhabits(v, CompileObject(j))
    ensures PropInhabits(j, v, k)
  {
    var props := CompileProps(j, SortedKeys(PropsOf(j)));
    KeyListed(j, k);
    var p :| p in props && p.key == k;
    PropsListed(j, p);
    assert CompileObject(j) == TObject(props, CompileIndex(j));
  }

  lemma {:induction false} CompleteObject(env: Env, j: Json, v: Json)
    requires j.JObj? && PlainTyped(env, j) && (forall s, x :: env.extra(s, x)) && Inhabits(v, CompileObject(j))
    ensures v.JObj? && RequiredOk(env, j, v) && forall m | m in v.members :: MemberOk(env, j, m)
    decreases j, 0
  {
    ObjectTypeReads(j, v);
    assert RequiredOk(env, j, v) by {
      if ListAt(j, "required").Some? {
        forall r | r in ListAt(j, "required").value && r.JStr? ensures Find(v.members, r.s).Some? {
          assert Requires(j, r.s);
        }
      }
    }
    forall m | m in v.members ensures MemberOk(env, j, m) {
      assert MemberInhabits(j, m);
      match PropOf(j, m.key) {
        case Some(s) =>
          var k :| 0 <= k < |PropsOf(j)| && PropsOf(j)[k] == Member(m.key, s);
          Complete(env, s, m.value);
        case None =>
          if ExtraSchema(j).Some? { Complete(env, ExtraSchema(j).value, m.value); }
      }
    }
  }

  /** On the plain fragment acceptance and the compiled type coincide. */
  lemma Exact(env: Env, j: Json, v: Json)
    requires Plain(env, j) && NoInherited(env.inherited, j) && forall s, x :: env.extra(s, x)
    ensures Accepts(env, j, v) <==> Inhabits(v, Compile(j))
  {
    if Accepts(env, j, v) { Sound(env, j, v); }
    if Inhabits(v, Compile(j)) { Complete(env, j, v); }
  }

  /** The type of `oneOf` over plain alternatives is exact exactly when the alternatives exclude each other: the
      generator emits a union, which also admits what two of them accept. */
  lemma OneOfExactIff(env: Env, j: Json)
    requires OneOfPlain(env, j) && NoInherited(env.inherited, j) && forall s, x :: env.extra(s, x)
    ensures (forall v :: Accepts(env, j, v) <==> Inhabits(v, Compile(j))) <==> Exclusive(env, ListAt(j, "oneOf").value)
  {
    var subs := ListAt(j, "oneOf").value;
    if Exclusive(env, subs) {
      forall v ensures Accepts(env, j, v) <==> Inhabits(v, Compile(j)) { Exact(env, j, v); }
    } else {
      var v, i, k :| 0 <= i < k < |subs| && Accepts(env, subs[i], v) && Accepts(env, subs[k], v);
      AcceptingMany(env, j, subs, v, i);
      OneNodeAccepts(env, j, v);
      CompileOne(j);
      SoundAny(env, j, "oneOf", v);
    }
  }

  /** A schema of `integer` accepts exactly the whole numbers, while its type admits every number. */
  lemma IntegerIsWider(env: Env, j: Json, v: Json)
    requires j.JObj? && NoChoice(j) && Get(j, "type") == Some(JStr("integer")) && forall s, x :: env.extra(s, x)
    ensures Accepts(env, j, v) <==> v.JNum? && v.n.Floor as real == v.n
    ensures Inhabits(v, Compile(j)) <==> v.JNum?
  {
    AbsentChoice(env, j, v);
    assert Accepts(env, j, v) == NodeOk(env, j, v);
    CompileTyped(j);
  }

  // ---------- where over-approximation ends ----------

  /** An object schema with no other keyword that decides acceptance of an object value. */
  predicate ObjectSchema(j: Json) {
    && j.JObj? && Get(j, "type") == Some(JStr("object")) && !IsRef(j)
    && ListAt(j, "enum").None? && Get(j, "const").None? && ListAt(j, "oneOf").None?
    && ListAt(j, "anyOf").None? && ListAt(j, "allOf").None? && Get(j, "not").None?
  }

  /** A value the runtime validator accepts for an object schema fits the compiled type exactly when it has every
      required listed property as its own: the validator is also content with names that every object inherits. */
  lemma InheritedNames(env: Env, j: Json, v: Json)
    requires ObjectSchema(j) && v.JObj? && Accepts(env, j, v) && PropertiesClean(env.inherited, j)
    ensures Inhabits(v, Compile(j)) <==> forall k | Requires(j, k) && PropOf(j, k).Some? :: Find(v.members, k).Some?
  {
    ObjectCompiles(j);
    OwnsRequiredIff(j, v);
    if OwnsRequired(j, v) { SoundObject(env, j, v); }
    if Inhabits(v, CompileObject(j)) { InhabitantOwns(j, v); }
  }

  lemma OwnsRequiredIff(j: Json, v: Json)
    requires v.JObj?
    ensures OwnsRequired(j, v) <==> forall k | Requires(j, k) && PropOf(j, k).Some? :: Find(v.members, k).Some?
  {
    forall k ensures PropOf(j, k).Some? <==> exists p | p in PropsOf(j) :: p.key == k { PropIsMember(PropsOf(j), k); }
  }

  lemma InhabitantOwns(j: Json, v: Json)
    requires j.JObj? && v.JObj? && Inhabits(v, CompileObject(j))
    ensures OwnsRequired(j, v)
  {
    var keys := SortedKeys(PropsOf(j));
    var props := CompileProps(j, keys);
    SortedKeysCorrect(PropsOf(j));
    forall p | p in PropsOf(j) && Requires(j, p.key) ensures Find(v.members, p.key).Some? {
      PropIsMember(PropsOf(j), p.key);
      assert p.key in keys;
      KeyListed(j, p.key);
      var q :| q in props && q.key == p.key;
      PropsListed(j, q);
    }
  }

  lemma ObjectCompiles(j: Json)
    requires ObjectSchema(j)
    ensures Compile(j) == CompileObject(j)
  {
    var t := JStr("object");
    CompileTyped(j);
    assert t.s[0] == 'o' && "string"[0] == 's' && "number"[0] == 'n';
    assert CompileName(j, t) == CompileObject(j);
    assert CompileTypes(j, t) == CompileName(j, t);
  }

  /** So `{}` is accepted whenever all required names are inherited, listed or not. */
  lemma EmptyAccepted(env: Env, j: Json)
    requires ObjectSchema(j) && env.extra(j, JObj([]))
    requires forall k | Requires(j, k) :: k in env.inherited
    ensures Accepts(env, j, JObj([]))
  {
    var v := JObj([]);
    assert RequiredOk(env, j, v) by {
      if ListAt(j, "required").Some? {
        forall r | r in ListAt(j, "required").value && r.JStr? ensures r.s in env.inherited {
          assert Requires(j, r.s);
        }
      }
    }
  }

  /** TypeScript itself lets an index signature constrain the listed properties as well. */
  ghost predicate InhabitsStrict(v: Json, t: Ty)
    decreases t
  {
    match t
    case TArray(elem) => v.JArr? && forall x | x in v.items :: InhabitsStrict(x, elem)
    case TUnion(arms) => exists a | a in arms :: InhabitsStrict(v, a)
    case TInter(parts) => forall a | a in parts :: InhabitsStrict(v, a)
    case TRecord(value) => v.JObj? && forall m | m in v.members :: InhabitsStrict(m.value, value)
    case TObject(props, index) =>
      && v.JObj?
      && (forall p | p in props && !p.optional :: Find(v.members, p.key).Some?)
      && (forall m, p | m in v.members && p in props && p.key == m.key :: InhabitsStrict(m.value, p.ty))
      && (index.Some? ==> forall m | m in v.members :: InhabitsStrict(m.value, index.value))
    case _ => Inhabits(v, t)
  }

  /** No object type inside has both listed properties and an index signature. */
  predicate Separate(t: Ty)
    decreases t
  {
    match t
    case TArray(elem) => Separate(elem)
    case TUnion(arms) => forall a | a in arms :: Separate(a)
    case TInter(parts) => forall a | a in parts :: Separate(a)
    case TRecord(value) => Separate(value)
    case TObject(props, index) => (props == [] || index.None?) && SeparateBelow(t)
    case _ => true
  }

  predicate SeparateBelow(t: Ty)
    decreases t, 0
  {
    t.TObject? ==> (forall p | p in t.props :: Separate(p.ty)) && (t.index.Some? ==> Separate(t.index.value))
  }

  /** Such types mean the same under both readings. */
  lemma {:induction false} StrictIsLax(v: Json, t: Ty)
    requires Separate(t)
    ensures InhabitsStrict(v, t) <==> Inhabits(v, t)
    decreases t, 2
  {
    match t {
      case TArray(elem) =>
        if v.JArr? {
          forall x | x in v.items ensures InhabitsStrict(x, elem) <==> Inhabits(x, elem) { StrictIsLax(x, elem); }
        }
      case TUnion(arms) =>
        forall a | a in arms ensures InhabitsStrict(v, a) <==> Inhabits(v, a) { StrictIsLax(v, a); }
      case TInter(parts) =>
        forall a | a in parts ensures InhabitsStrict(v, a) <==> Inhabits(v, a) { StrictIsLax(v, a); }
      case TRecord(value) =>
        if v.JObj? {
          forall m | m in v.members ensures InhabitsStrict(m.value, value) <==> Inhabits(m.value, value) {
            StrictIsLax(m.value, value);
          }
        }
      case TObject(props, index) =>
        ObjectStrict(v, t);
      case _ =>
    }
  }

  lemma {:induction false} MembersStrict(v: Json, t: Ty)
    requires t.TObject? && SeparateBelow(t)
    ensures v.JObj? ==> forall m, p | m in v.members && p in t.props ::
      InhabitsStrict(m.value, p.ty) <==> Inhabits(m.value, p.ty)
    ensures v.JObj? && t.index.Some? ==>
      forall m | m in v.members :: InhabitsStrict(m.value, t.index.value) <==> Inhabits(m.value, t.index.value)
    decreases t, 0
  {
    if v.JObj? {
      forall m, p | m in v.members && p in t.props ensures InhabitsStrict(m.value, p.ty) <==> Inhabits(m.value, p.ty) {
        StrictIsLax(m.value, p.ty);
      }
      if t.index.Some? {
        forall m | m in v.members ensures InhabitsStrict(m.value, t.index.value) <==> Inhabits(m.value, t.index.value) {
          StrictIsLax(m.value, t.index.value);
        }
      }
    }
  }

  /** What the strict reading adds for an object type over such types. */
  lemma {:induction false} ObjectStrict(v: Json, t: Ty)
    requires t.TObject? && SeparateBelow(t)
    ensures InhabitsStrict(v, t) <==> Inhabits(v, t) && (t.index.Some? ==> ListedFit(v, t))
    decreases t, 1
  {
    MembersStrict(v, t);
  }

  /** The listed properties fit the type of the extra ones. */
  ghost predicate ListedFit(v: Json, t: Ty)
    requires t.TObject? && t.index.Some?
  {
    v.JObj? ==> forall m | m in v.members && Listed(t.props, m.key) :: InhabitsStrict(m.value, t.index.value)
  }

  /** Under TypeScript's own reading over-approximation holds for types that never mix the two. */
  lemma StrictlySound(env: Env, j: Json, v: Json)
    requires Accepts(env, j, v) && NoInherited(env.inherited, j) && Separate(Compile(j))
    ensures InhabitsStrict(v, Compile(j))
  {
    Sound(env, j, v);
    StrictIsLax(v, Compile(j));
  }

  /** An object schema with listed properties compiles to an object type. */
  lemma ListedCompiles(j: Json)
    requires ObjectSchema(j) && PropsOf(j) != []
    ensures Compile(j).TObject?
  {
    var keys := SortedKeys(PropsOf(j));
    SortedKeysCorrect(PropsOf(j));
    assert Find(PropsOf(j), PropsOf(j)[0].key).Some? && PropsOf(j)[0].key in keys;
    ObjectCompiles(j);
  }

  /** An object schema that does mix them, above types that do not: an accepted object is admitted exactly when its
      listed properties also fit the type of the extra ones. */
  lemma StrictIndex(env: Env, j: Json, v: Json)
    requires ObjectSchema(j) && PropsOf(j) != [] && Accepts(env, j, v) && NoInherited(env.inherited, j)
    requires v.JObj? && SeparateBelow(Compile(j))
    ensures InhabitsStrict(v, Compile(j)) <==>
      (ExtraSchema(j).Some? ==>
         forall m | m in v.members && PropOf(j, m.key).Some? :: InhabitsStrict(m.value, Compile(ExtraSchema(j).value)))
  {
    Sound(env, j, v);
    ListedCompiles(j);
    ListedFitIff(j, v);
    ObjectStrict(v, Compile(j));
  }

  lemma ListedFitIff(j: Json, v: Json)
    requires ObjectSchema(j) && PropsOf(j) != [] && v.JObj? && Compile(j).TObject?
    ensures Compile(j).index == CompileIndex(j)
    ensures ExtraSchema(j).Some? ==>
      (ListedFit(v, Compile(j)) <==>
         forall m | m in v.members && PropOf(j, m.key).Some? :: InhabitsStrict(m.value, Compile(ExtraSchema(j).value)))
  {
    ObjectCompiles(j);
    forall m | m in v.members ensures Listed(Compile(j).props, m.key) <==> PropOf(j, m.key).Some? {
      KeyListed(j, m.key);
    }
  }
}
