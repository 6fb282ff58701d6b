/** The compiled type admits every value the schema accepts. */
module SchemaSoundness {
  import opened Wrappers
  import opened Json
  import opened CapabilitySchema
  import opened TypeScript
  import opened SchemaTypes

  /** Nowhere in the schema is a listed property required whose name every object inherits. */
  predicate NoInherited(names: set<string>, j: Json)
    decreases j
  {
    match j
    case JArr(xs) => forall x | x in xs :: NoInherited(names, x)
    case JObj(ms) =>
      && (forall name | name in names :: !(Requires(j, name) && PropOf(j, name).Some?))
      && forall m | m in ms :: NoInherited(names, m.value)
    case _ => true
  }

  /** The same for the schemas of the listed and of the extra properties. */
  predicate PropertiesClean(names: set<string>, j: Json) {
    && (Get(j, "properties").Some? ==> NoInherited(names, Get(j, "properties").value))
    && (Get(j, "additionalProperties").Some? ==> NoInherited(names, Get(j, "additionalProperties").value))
  }

  lemma NoInheritedGet(names: set<string>, j: Json, key: string)
    requires NoInherited(names, j) && Get(j, key).Some?
    ensures NoInherited(names, Get(j, key).value)
  {
    var i :| 0 <= i < |j.members| && j.members[i] == Member(key, Get(j, key).value);
    assert j.members[i] in j.members;
  }

  lemma NoInheritedAt(names: set<string>, j: Json, key: string, i: nat)
    requires NoInherited(names, j) && ListAt(j, key).Some? && i < |ListAt(j, key).value|
    ensures NoInherited(names, ListAt(j, key).value[i])
  {
    NoInheritedGet(names, j, key);
    assert ListAt(j, key).value[i] in ListAt(j, key).value;
  }

  lemma NoInheritedProp(names: set<string>, j: Json, key: string)
    requires PropertiesClean(names, j) && PropOf(j, key).Some?
    ensures NoInherited(names, PropOf(j, key).value)
  {
    NoInheritedGet(names, Get(j, "properties").value, key);
  }

  lemma {:induction false} NothingInherited(j: Json)
    ensures NoInherited({}, j)
  {
    match j {
      case JArr(xs) => forall x | x in xs ensures NoInherited({}, x) { NothingInherited(x); }
      case JObj(ms) => forall m | m in ms ensures NoInherited({}, m.value) { NothingInherited(m.value); }
      case _ =>
    }
  }

  // ---------- soundness ----------

  /** Every value a schema accepts inhabits the type it compiles to, at every depth, if no listed property with an
      inherited name is required. */
  lemma {:induction false} Sound(env: Env, schema: Json, v: Json)
    requires Accepts(env, schema, v) && NoInherited(env.inherited, schema)
    ensures Inhabits(v, Compile(schema))
    decreases schema, 3
  {
    match schema {
      case JBool(b) => assert b;
      case JObj(_) =>
        assert Compile(schema) == CompileNode(schema);
        if IsRef(schema) {
          assert CompileNode(schema).TUnknown?;
        } else {
          SoundNode(env, schema, v);
        }
      case _ =>
    }
  }

  lemma {:induction false} SoundNode(env: Env, j: Json, v: Json)
    requires j.JObj? && !IsRef(j) && NodeOk(env, j, v) && NoInherited(env.inherited, j)
    ensures Inhabits(v, CompileNode(j))
    decreases j, 2
  {
    if ListAt(j, "enum").Some? {
      SoundEnum(env, j, v);
    } else if Get(j, "const").Some? {
    } else if ListAt(j, "oneOf").Some? {
      AcceptingSome(env, j, ListAt(j, "oneOf").value, v);
      SoundAny(env, j, "oneOf", v);
    } else if ListAt(j, "anyOf").Some? {
      SoundAny(env, j, "anyOf", v);
    } else if ListAt(j, "allOf").Some? {
      SoundAll(env, j, "allOf", v);
    } else if Get(j, "type").Some? {
      SoundTypes(env, j, Get(j, "type").value, v);
    }
  }

  lemma SoundEnum(env: Env, j: Json, v: Json)
    requires ListAt(j, "enum").Some? && EnumOk(env, j, v)
    ensures Inhabits(v, TUnion(LitAll(ListAt(j, "enum").value)))
  {
    var es := ListAt(j, "enum").value;
    var i :| 0 <= i < |es| && DeepEqual(env, v, es[i]);
    assert LitAll(es)[i] in LitAll(es);
  }

  lemma {:induction false} SoundAny(env: Env, j: Json, key: string, v: Json)
    requires NoInherited(env.inherited, j) && ListAt(j, key).Some?
    requires exists i | 0 <= i < |ListAt(j, key).value| :: Accepts(env, ListAt(j, key).value[i], v)
    ensures Inhabits(v, TUnion(CompileAll(j, ListAt(j, key).value)))
    decreases j, 0
  {
    var subs := ListAt(j, key).value;
    var i :| 0 <= i < |subs| && Accepts(env, subs[i], v);
    NoInheritedAt(env.inherited, j, key, i);
    Sound(env, subs[i], v);
    CompileAllAt(j, subs, i);
    assert CompileAll(j, subs)[i] in CompileAll(j, subs);
  }

  lemma {:induction false} SoundAll(env: Env, j: Json, key: string, v: Json)
    requires NoInherited(env.inherited, j) && ListAt(j, key).Some?
    requires forall i | 0 <= i < |ListAt(j, key).value| :: Accepts(env, ListAt(j, key).value[i], v)
    ensures Inhabits(v, TInter(CompileAll(j, ListAt(j, key).value)))
    decreases j, 0
  {
    var subs := ListAt(j, key).value;
    var parts := CompileAll(j, subs);
    forall p | p in parts ensures Inhabits(v, p) {
      var i :| 0 <= i < |parts| && parts[i] == p;
      NoInheritedAt(env.inherited, j, key, i);
      Sound(env, subs[i], v);
      CompileAllAt(j, subs, i);
    }
  }

  /** Some alternative of the `type` keyword matches the value. */
  predicate Alternative(t: Json, v: Json) {
    if t.JArr? then exists x | x in t.items :: MatchesType(x, v) else MatchesType(t, v)
  }

  /** Reduces a list of alternatives to the one that matches. */
  lemma {:induction false} SoundTypes(env: Env, j: Json, t: Json, v: Json)
    requires j.JObj? && NodeOk(env, j, v) && NoInherited(env.inherited, j)
    requires Alternative(t, v)
    ensures Inhabits(v, CompileTypes(j, t))
    decreases j, 1, 1
  {
    if t.JArr? {
      var ts := t.items;
      var i :| 0 <= i < |ts| && MatchesType(ts[i], v);
      SoundName(env, j, ts[i], v);
      if |ts| > 1 {
        CompileEachAt(j, ts, i);
        assert CompileEach(j, ts)[i] in CompileEach(j, ts);
      }
    } else {
      SoundName(env, j, t, v);
    }
  }

  lemma {:induction false} SoundName(env: Env, j: Json, t: Json, v: Json)
    requires j.JObj? && NodeOk(env, j, v) && NoInherited(env.inherited, j)
    requires MatchesType(t, v)
    ensures Inhabits(v, CompileName(j, t))
    decreases j, 1, 0
  {
    if t.s == "array" {
      if Get(j, "items").Some? && !Get(j, "items").value.JArr? {
        NoInheritedGet(env.inherited, j, "items");
        forall x | x in v.items ensures Inhabits(x, Compile(Get(j, "items").value)) {
          Sound(env, Get(j, "items").value, x);
        }
      }
    } else if t.s == "object" {
      ListedAreOwn(env, j, v);
      SoundObject(env, j, v);
    }
  }

  /** The compiled property list: one entry per listed key, with that key's type. */
  lemma PropsListed(j: Json, p: Prop)
    requires j.JObj? && p in CompileProps(j, SortedKeys(PropsOf(j)))
    ensures PropOf(j, p.key).Some? && p == CompileProp(j, p.key)
  {
    var keys := SortedKeys(PropsOf(j));
    var props := CompileProps(j, keys);
    SortedKeysCorrect(PropsOf(j));
    var i :| 0 <= i < |props| && props[i] == p;
    CompilePropsAt(j, keys, i);
    assert keys[i] in keys;
  }

  lemma KeyListed(j: Json, key: string)
    requires j.JObj?
    ensures Listed(CompileProps(j, SortedKeys(PropsOf(j))), key) <==> PropOf(j, key).Some?
  {
    var keys := SortedKeys(PropsOf(j));
    var props := CompileProps(j, keys);
    SortedKeysCorrect(PropsOf(j));
    if PropOf(j, key).Some? {
      var i :| 0 <= i < |keys| && keys[i] == key;
      CompilePropsAt(j, keys, i);
      assert props[i] in props;
    }
    if Listed(props, key) {
      var p :| p in props && p.key == key;
      PropsListed(j, p);
    }
  }

  /** The value has every required listed property as its own. */
  predicate OwnsRequired(j: Json, v: Json)
    requires v.JObj?
  {
    forall p | p in PropsOf(j) && Requires(j, p.key) :: Find(v.members, p.key).Some?
  }

  lemma {:induction false} PropIsMember(members: seq<Member>, key: string)
    ensures Find(members, key).Some? <==> exists m | m in members :: m.key == key
  {
    if members != [] {
      PropIsMember(members[1..], key);
      assert members == [members[0]] + members[1..];
    }
  }

  lemma ListedAreOwn(env: Env, j: Json, v: Json)
    requires j.JObj? && v.JObj? && NoInherited(env.inherited, j) && RequiredOk(env, j, v)
    ensures OwnsRequired(j, v) && PropertiesClean(env.inherited, j)
  {
    forall p | p in PropsOf(j) && Requires(j, p.key) ensures Find(v.members, p.key).Some? {
      PropIsMember(PropsOf(j), p.key);
      assert JStr(p.key) in ListAt(j, "required").value;
    }
    if Get(j, "properties").Some? { NoInheritedGet(env.inherited, j, "properties"); }
    if Get(j, "additionalProperties").Some? { NoInheritedGet(env.inherited, j, "additionalProperties"); }
  }

  lemma {:induction false} SoundObject(env: Env, j: Json, v: Json)
    requires j.JObj? && v.JObj? && PropertiesClean(env.inherited, j) && OwnsRequired(j, v)
    requires forall m | m in v.members :: MemberOk(env, j, m)
    ensures Inhabits(v, CompileObject(j))
    decreases j, 0
  {
    var keys := SortedKeys(PropsOf(j));
    var props := CompileProps(j, keys);
    SortedKeysCorrect(PropsOf(j));
    forall m | m in v.members && PropOf(j, m.key).None? && ExtraSchema(j).Some?
      ensures Inhabits(m.value, Compile(ExtraSchema(j).value))
    {
      assert MemberOk(env, j, m);
      Sound(env, ExtraSchema(j).value, m.value);
    }
    if keys == [] {
      forall m | m in v.members ensures PropOf(j, m.key).None? {
        assert m.key !in keys;
      }
    } else {
      forall p | p in props && !p.optional ensures Find(v.members, p.key).Some? {
        PropsListed(j, p);
        PropIsMember(PropsOf(j), p.key);
      }
      forall m, p | m in v.members && p in props && p.key == m.key ensures Inhabits(m.value, p.ty) {
        PropsListed(j, p);
        assert MemberOk(env, j, m);
        NoInheritedProp(env.inherited, j, p.key);
        Sound(env, PropOf(j, p.key).value, m.value);
      }
      forall m | m in v.members && !Listed(props, m.key) && ExtraSchema(j).Some?
        ensures Inhabits(m.value, Compile(ExtraSchema(j).value))
      {
        KeyListed(j, m.key);
      }
    }
  }

  /** Against JSON Schema itself, where only a value's own properties count, nothing has to be assumed. */
  lemma SoundForJsonSchema(env: Env, schema: Json, v: Json)
    requires env.inherited == {} && Accepts(env, schema, v)
    ensures Inhabits(v, Compile(schema))
  {
    NothingInherited(schema);
    Sound(env, schema, v);
  }
}
