/** Generated types do not depend on the order of object keys, nor on the order or repetition in `required`. */
module SchemaOrder {
  import opened Wrappers
  import opened Json
  import opened CapabilitySchema
  import opened TypeScript
  import opened SchemaTypes

  /** The same string elements, whatever their order and number. */
  ghost predicate SameNames(xs: seq<Json>, ys: seq<Json>) {
    forall s: string :: JStr(s) in xs <==> JStr(s) in ys
  }

  /** Equal up to the order of object members at every depth, and up to `SameNames` under `required`. */
  ghost predicate SameUpToOrder(a: Json, b: Json)
    decreases a
  {
    match a
    case JArr(xs) => b.JArr? && |xs| == |b.items| && forall i | 0 <= i < |xs| :: SameUpToOrder(xs[i], b.items[i])
    case JObj(_) => b.JObj? && forall k :: SameAt(a, b, k)
    case _ => a == b
  }

  ghost predicate SameAt(a: Json, b: Json, k: string)
    decreases a, 0
  {
    match (Get(a, k), Get(b, k))
    case (None, None) => true
    case (Some(x), Some(y)) =>
      SameUpToOrder(x, y) || (k == "required" && x.JArr? && y.JArr? && SameNames(x.items, y.items))
    case _ => false
  }

  lemma SameGet(a: Json, b: Json, k: string)
    requires a.JObj? && SameUpToOrder(a, b) && k != "required"
    ensures Get(a, k).Some? <==> Get(b, k).Some?
    ensures Get(a, k).Some? ==> SameUpToOrder(Get(a, k).value, Get(b, k).value)
  {
    assert SameAt(a, b, k);
  }

  lemma SameList(a: Json, b: Json, k: string)
    requires a.JObj? && SameUpToOrder(a, b) && k != "required"
    ensures ListAt(a, k).Some? <==> ListAt(b, k).Some?
    ensures ListAt(a, k).Some? ==> |ListAt(a, k).value| == |ListAt(b, k).value|
    ensures ListAt(a, k).Some? ==>
      forall i | 0 <= i < |ListAt(a, k).value| :: SameUpToOrder(ListAt(a, k).value[i], ListAt(b, k).value[i])
  {
    SameGet(a, b, k);
  }

  lemma SameRequired(a: Json, b: Json, k: string)
    requires a.JObj? && SameUpToOrder(a, b)
    ensures Requires(a, k) <==> Requires(b, k)
  {
    assert SameAt(a, b, "required");
    if Get(a, "required").Some? {
      var x, y := Get(a, "required").value, Get(b, "required").value;
      if !x.JArr? {
        assert SameUpToOrder(x, y) && !y.JArr?;
      } else if SameUpToOrder(x, y) {
        SameStrings(x.items, y.items, k);
      } else {
        assert SameNames(x.items, y.items) && (JStr(k) in x.items <==> JStr(k) in y.items);
      }
    }
  }

  lemma SameStrings(xs: seq<Json>, ys: seq<Json>, k: string)
    requires |xs| == |ys| && forall i | 0 <= i < |xs| :: SameUpToOrder(xs[i], ys[i])
    ensures JStr(k) in xs <==> JStr(k) in ys
  {
    forall i | 0 <= i < |xs| ensures xs[i] == JStr(k) <==> ys[i] == JStr(k) {
      assert SameUpToOrder(xs[i], ys[i]);
    }
  }

  lemma SameProps(a: Json, b: Json, k: string)
    requires a.JObj? && SameUpToOrder(a, b)
    ensures PropOf(a, k).Some? <==> PropOf(b, k).Some?
    ensures PropOf(a, k).Some? && k != "required" ==> SameUpToOrder(PropOf(a, k).value, PropOf(b, k).value)
    ensures PropOf(a, k).Some? ==> SameSchema(PropOf(a, k).value, PropOf(b, k).value)
  {
    SameGet(a, b, "properties");
    var p, q := Get(a, "properties"), Get(b, "properties");
    if p.Some? && p.value.JObj? {
      assert SameAt(p.value, q.value, k);
    }
  }

  /** The relation on the schemas of properties: a property may itself be called `required`. */
  ghost predicate SameSchema(x: Json, y: Json) {
    SameUpToOrder(x, y) || (x.JArr? && y.JArr?)
  }

  lemma SameDoc(x: Json, y: Json)
    requires SameSchema(x, y)
    ensures DocOf(x) == DocOf(y)
  {
    if x.JObj? { SameGet(x, y, "description"); }
  }

  lemma SameKeys(a: Json, b: Json)
    requires a.JObj? && SameUpToOrder(a, b)
    ensures SortedKeys(PropsOf(a)) == SortedKeys(PropsOf(b))
  {
    SortedKeysCorrect(PropsOf(a));
    SortedKeysCorrect(PropsOf(b));
    forall k ensures k in SortedKeys(PropsOf(a)) <==> k in SortedKeys(PropsOf(b)) {
      SameProps(a, b, k);
    }
    SortedUnique(SortedKeys(PropsOf(a)), SortedKeys(PropsOf(b)));
  }

  lemma SameExtra(a: Json, b: Json)
    requires a.JObj? && SameUpToOrder(a, b)
    ensures Get(a, "additionalProperties") == Some(JBool(false))
      <==> Get(b, "additionalProperties") == Some(JBool(false))
    ensures ExtraSchema(a).Some? <==> ExtraSchema(b).Some?
    ensures ExtraSchema(a).Some? ==> SameUpToOrder(ExtraSchema(a).value, ExtraSchema(b).value)
  {
    SameGet(a, b, "additionalProperties");
  }

  // ---------- the theorem ----------

  /** Schemas equal up to order compile to the same type, hence print the same at every depth. */
  lemma {:induction false} SameTypes(a: Json, b: Json)
    requires SameUpToOrder(a, b)
    ensures Compile(a) == Compile(b)
    decreases a, 5
  {
    if a.JObj? {
      SameGet(a, b, "$ref");
      if !IsRef(a) { SameNodes(a, b); }
    }
  }

  lemma SamePrinted(str: Stringify, a: Json, b: Json, depth: nat)
    requires SameUpToOrder(a, b)
    ensures Print(str, Compile(a), depth) == Print(str, Compile(b), depth)
  {
    SameTypes(a, b);
  }

  lemma SameLits(xs: seq<Json>, ys: seq<Json>)
    requires |xs| == |ys| && forall i | 0 <= i < |xs| :: SameUpToOrder(xs[i], ys[i])
    ensures LitAll(xs) == LitAll(ys)
  {
    forall i | 0 <= i < |xs| ensures LitOrUnknown(xs[i]) == LitOrUnknown(ys[i]) {
      assert SameUpToOrder(xs[i], ys[i]);
    }
  }

  lemma {:induction false} SameNodes(a: Json, b: Json)
    requires a.JObj? && b.JObj? && SameUpToOrder(a, b) && !IsRef(a) && !IsRef(b)
    ensures CompileNode(a) == CompileNode(b)
    decreases a, 4
  {
    SameList(a, b, "enum");
    SameGet(a, b, "const");
    SameList(a, b, "oneOf");
    SameList(a, b, "anyOf");
    SameList(a, b, "allOf");
    SameGet(a, b, "type");
    if ListAt(a, "enum").Some? {
      SameLits(ListAt(a, "enum").value, ListAt(b, "enum").value);
    } else if Get(a, "const").Some? {
    } else if ListAt(a, "oneOf").Some? {
      SameAll(a, b, ListAt(a, "oneOf").value, ListAt(b, "oneOf").value);
    } else if ListAt(a, "anyOf").Some? {
      SameAll(a, b, ListAt(a, "anyOf").value, ListAt(b, "anyOf").value);
    } else if ListAt(a, "allOf").Some? {
      SameAll(a, b, ListAt(a, "allOf").value, ListAt(b, "allOf").value);
    } else if Get(a, "type").Some? {
      SameTyped(a, b, Get(a, "type").value, Get(b, "type").value);
    }
  }

  lemma {:induction false} SameAll(a: Json, b: Json, xs: seq<Json>, ys: seq<Json>)
    requires forall i | 0 <= i < |xs| :: xs[i] < a
    requires forall i | 0 <= i < |ys| :: ys[i] < b
    requires |xs| == |ys| && forall i | 0 <= i < |xs| :: SameUpToOrder(xs[i], ys[i])
    ensures CompileAll(a, xs) == CompileAll(b, ys)
    decreases a, 0, |xs|
  {
    if xs != [] {
      SameTypes(xs[0], ys[0]);
      SameAll(a, b, xs[1..], ys[1..]);
    }
  }

  lemma {:induction false} SameTyped(a: Json, b: Json, t: Json, u: Json)
    requires a.JObj? && b.JObj? && SameUpToOrder(a, b) && SameUpToOrder(t, u)
    ensures CompileTypes(a, t) == CompileTypes(b, u)
    decreases a, 3, t, 1
  {
    if t.JStr? {
      SameNamed(a, b, t, u);
    } else if t.JArr? && |t.items| == 1 {
      assert SameUpToOrder(t.items[0], u.items[0]);
      SameNamed(a, b, t.items[0], u.items[0]);
    } else if t.JArr? && |t.items| > 1 {
      SameEach(a, b, t.items, u.items);
    }
  }

  lemma {:induction false} SameEach(a: Json, b: Json, ts: seq<Json>, us: seq<Json>)
    requires a.JObj? && b.JObj? && SameUpToOrder(a, b)
    requires |ts| == |us| && forall i | 0 <= i < |ts| :: SameUpToOrder(ts[i], us[i])
    ensures CompileEach(a, ts) == CompileEach(b, us)
    decreases a, 3, ts, 0
  {
    if ts != [] {
      SameTyped(a, b, ts[0], us[0]);
      SameEach(a, b, ts[1..], us[1..]);
    }
  }

  lemma {:induction false} SameNamed(a: Json, b: Json, t: Json, u: Json)
    requires a.JObj? && b.JObj? && SameUpToOrder(a, b) && SameUpToOrder(t, u)
    ensures CompileName(a, t) == CompileName(b, u)
    decreases a, 2
  {
    if t.JStr? {
      if t.s == "string" {
        SameGet(a, b, "format");
      } else if t.s == "array" {
        SameGet(a, b, "items");
        if Get(a, "items").Some? { SameTypes(Get(a, "items").value, Get(b, "items").value); }
      } else if t.s == "object" {
        SameObjects(a, b);
      }
    }
  }

  lemma {:induction false} SameObjects(a: Json, b: Json)
    requires a.JObj? && b.JObj? && SameUpToOrder(a, b)
    ensures CompileObject(a) == CompileObject(b)
    decreases a, 1
  {
    SameKeys(a, b);
    SameExtra(a, b);
    if ExtraSchema(a).Some? { SameTypes(ExtraSchema(a).value, ExtraSchema(b).value); }
    SamePropLists(a, b, SortedKeys(PropsOf(a)));
  }

  lemma {:induction false} SamePropLists(a: Json, b: Json, keys: seq<string>)
    requires a.JObj? && b.JObj? && SameUpToOrder(a, b)
    ensures CompileProps(a, keys) == CompileProps(b, keys)
    decreases a, 0, |keys|
  {
    if keys != [] {
      SameProp(a, b, keys[0]);
      SamePropLists(a, b, keys[1..]);
    }
  }

  lemma {:induction false} SameProp(a: Json, b: Json, k: string)
    requires a.JObj? && b.JObj? && SameUpToOrder(a, b)
    ensures CompileProp(a, k) == CompileProp(b, k)
    decreases a, 0, 0
  {
    SameProps(a, b, k);
    SameRequired(a, b, k);
    if PropOf(a, k).Some? {
      var x, y := PropOf(a, k).value, PropOf(b, k).value;
      SameDoc(x, y);
      if SameUpToOrder(x, y) { SameTypes(x, y); }
    }
  }
}
