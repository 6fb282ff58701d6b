/** Which JSON values a capability schema accepts: `validateNode` of packages/core/src/rpc/capability-validator.ts,
    which follows JSON Schema 2020-12 (Core sections 10.2.1.1 to 10.2.1.3, 10.3.1.2, 10.3.2.1 and 10.3.2.3;
    Validation sections 6.1.1 to 6.1.3 and 6.5.3) on these keywords, with one difference: it tests `required`
    with the `in` operator, which also finds the names every object inherits. */
module CapabilitySchema {
  import opened Wrappers
  import opened Json

  /** What acceptance depends on outside the keywords modelled here, all of it arbitrary.
      `refs`: does the target of a `$ref` accept the value; `extra`: do the bounds, lengths, pattern, format and
      uniqueness of a schema object accept it; `same`: deep equality of two values that are not primitive;
      `inherited`: names the `in` operator finds on every object. */
  datatype Env = Env(
    refs: (string, Json) -> bool,
    extra: (Json, Json) -> bool,
    same: (Json, Json) -> bool,
    inherited: set<string>)

  predicate MatchesType(t: Json, v: Json) {
    t.JStr? &&
    match t.s
    case "null" => v.JNull?
    case "boolean" => v.JBool?
    case "string" => v.JStr?
    case "number" => v.JNum?
    case "integer" => v.JNum? && v.n.Floor as real == v.n
    case "array" => v.JArr?
    case "object" => v.JObj?
    case _ => false
  }

  predicate TypeOk(j: Json, v: Json) {
    match Get(j, "type")
    case None => true
    case Some(JArr(ts)) => exists t | t in ts :: MatchesType(t, v)
    case Some(t) => MatchesType(t, v)
  }

  predicate DeepEqual(env: Env, a: Json, b: Json) {
    if IsPrimitive(a) || IsPrimitive(b) then a == b else env.same(a, b)
  }

  predicate ConstOk(env: Env, j: Json, v: Json) {
    match Get(j, "const")
    case None => true
    case Some(c) => DeepEqual(env, v, c)
  }

  predicate EnumOk(env: Env, j: Json, v: Json) {
    match Get(j, "enum")
    case Some(JArr(es)) => exists e | e in es :: DeepEqual(env, v, e)
    case _ => true
  }

  /** The list under an array-valued keyword. */
  function ListAt(j: Json, key: string): (r: Option<seq<Json>>)
    ensures r.Some? ==> forall i | 0 <= i < |r.value| :: r.value[i] < j
  {
    match Get(j, key)
    case Some(JArr(xs)) => Some(xs)
    case _ => None
  }

  /** The members of `properties`. */
  function PropsOf(j: Json): (r: seq<Member>)
    ensures forall i | 0 <= i < |r| :: r[i].value < j
  {
    match Get(j, "properties")
    case Some(JObj(ms)) => ms
    case _ => []
  }

  /** `properties[key]`, when listed. */
  function PropOf(j: Json, key: string): (r: Option<Json>)
    ensures r.Some? ==> r.value < j
  {
    Find(PropsOf(j), key)
  }

  predicate Requires(j: Json, key: string) {
    match ListAt(j, "required")
    case Some(rs) => JStr(key) in rs
    case None => false
  }

  predicate RequiredOk(env: Env, j: Json, v: Json)
    requires v.JObj?
  {
    match ListAt(j, "required")
    case Some(rs) => forall r | r in rs && r.JStr? :: Find(v.members, r.s).Some? || r.s in env.inherited
    case None => true
  }

  /** `additionalProperties` when it is a schema object. */
  function ExtraSchema(j: Json): (r: Option<Json>)
    ensures r.Some? ==> r.value < j
  {
    match Get(j, "additionalProperties")
    case Some(s) => if s.JObj? || s.JArr? then Some(s) else None
    case None => None
  }

  predicate IsRef(j: Json) {
    Get(j, "$ref").Some? && Get(j, "$ref").value.JStr?
  }

  predicate Accepts(env: Env, schema: Json, v: Json)
    decreases schema, 2
  {
    match schema
    case JBool(b) => b
    case JObj(_) => if IsRef(schema) then env.refs(Get(schema, "$ref").value.s, v) else NodeOk(env, schema, v)
    case _ => true
  }

  predicate NodeOk(env: Env, j: Json, v: Json)
    decreases j, 1, 1
  {
    && TypeOk(j, v) && ConstOk(env, j, v) && EnumOk(env, j, v) && env.extra(j, v)
    && (v.JObj? ==> RequiredOk(env, j, v) && forall m | m in v.members :: MemberOk(env, j, m))
    && (v.JArr? ==> forall x | x in v.items :: ItemOk(env, j, x))
    && OneOfOk(env, j, v) && AnyOfOk(env, j, v) && AllOfOk(env, j, v) && NotOk(env, j, v)
  }

  predicate ItemOk(env: Env, j: Json, x: Json)
    decreases j, 0
  {
    match Get(j, "items")
    case None => true
    case Some(s) => s.JArr? || Accepts(env, s, x)
  }

  predicate OneOfOk(env: Env, j: Json, v: Json)
    decreases j, 1, 0
  {
    match ListAt(j, "oneOf")
    case None => true
    case Some(subs) => Accepting(env, j, subs, v) == 1
  }

  predicate AnyOfOk(env: Env, j: Json, v: Json)
    decreases j, 0
  {
    match ListAt(j, "anyOf")
    case None => true
    case Some(subs) => exists i | 0 <= i < |subs| :: Accepts(env, subs[i], v)
  }

  predicate AllOfOk(env: Env, j: Json, v: Json)
    decreases j, 0
  {
    match ListAt(j, "allOf")
    case None => true
    case Some(subs) => forall i | 0 <= i < |subs| :: Accepts(env, subs[i], v)
  }

  predicate NotOk(env: Env, j: Json, v: Json)
    decreases j, 0
  {
    match Get(j, "not")
    case None => true
    case Some(s) => !Accepts(env, s, v)
  }

  /** One property of an object value. */
  predicate MemberOk(env: Env, schema: Json, m: Member)
    decreases schema, 0
  {
    if PropOf(schema, m.key).Some? then Accepts(env, PropOf(schema, m.key).value, m.value)
    else if Get(schema, "additionalProperties") == Some(JBool(false)) then false
    else if ExtraSchema(schema).Some? then Accepts(env, ExtraSchema(schema).value, m.value)
    else true
  }

  /** How many of the alternatives accept the value. */
  function Accepting(env: Env, schema: Json, subs: seq<Json>, v: Json): nat
    requires forall i | 0 <= i < |subs| :: subs[i] < schema
    decreases schema, 0, |subs|
  {
    if subs == [] then 0
    else (if Accepts(env, subs[0], v) then 1 else 0) + Accepting(env, schema, subs[1..], v)
  }

  lemma {:induction false} AcceptingSome(env: Env, schema: Json, subs: seq<Json>, v: Json)
    requires forall i | 0 <= i < |subs| :: subs[i] < schema
    requires Accepting(env, schema, subs, v) > 0
    ensures exists i | 0 <= i < |subs| :: Accepts(env, subs[i], v)
  {
    if !Accepts(env, subs[0], v) {
      AcceptingSome(env, schema, subs[1..], v);
      var i :| 0 <= i < |subs| - 1 && Accepts(env, subs[1..][i], v);
      assert subs[i + 1] == subs[1..][i];
    }
  }
}
