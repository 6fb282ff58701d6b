/** The generator of packages/cli/src/capabilities-gen-cli.ts in its own form: text built by loops over lists of
    lines, proved to be the printed form of the compiled type. */
module CapabilitiesGen {
  import opened Wrappers
  import opened Json
  import opened Text
  import opened CapabilitySchema
  import opened TypeScript
  import opened SchemaTypes

  method RenderType(str: Stringify, schema: Json, depth: nat) returns (s: string)
    ensures s == Print(str, Compile(schema), depth)
    decreases schema, 5
  {
    match schema {
      case JBool(b) => s := if b then "unknown" else "never";
      case JObj(_) => s := RenderNode(str, schema, depth);
      case _ => s := "unknown";
    }
  }

  method RenderNode(str: Stringify, j: Json, depth: nat) returns (s: string)
    requires j.JObj?
    ensures s == Print(str, CompileNode(j), depth)
    decreases j, 4
  {
    if IsRef(j) {
      s := "unknown" + (" /* $ref: " + Get(j, "$ref").value.s + " */");
    } else if ListAt(j, "enum").Some? {
      s := RenderLits(str, ListAt(j, "enum").value, depth);
    } else if Get(j, "const").Some? {
      var c := Get(j, "const").value;
      s := if IsPrimitive(c) then str(c) else "unknown";
    } else {
      s := RenderCombined(str, j, depth);
    }
  }

  /** The keywords that come after `$ref`, `enum` and `const`. */
  method RenderCombined(str: Stringify, j: Json, depth: nat) returns (s: string)
    requires j.JObj? && !IsRef(j) && ListAt(j, "enum").None? && Get(j, "const").None?
    ensures s == Print(str, CompileNode(j), depth)
    decreases j, 3
  {
    if ListAt(j, "oneOf").Some? {
      var parts := RenderAll(str, j, ListAt(j, "oneOf").value, depth);
      s := Join(parts, " | ");
    } else if ListAt(j, "anyOf").Some? {
      var parts := RenderAll(str, j, ListAt(j, "anyOf").value, depth);
      s := Join(parts, " | ");
    } else if ListAt(j, "allOf").Some? {
      var parts := RenderAll(str, j, ListAt(j, "allOf").value, depth);
      s := Join(parts, " & ");
    } else if Get(j, "type").Some? {
      s := RenderTypes(str, j, Get(j, "type").value, depth);
    } else {
      s := "unknown";
    }
  }

  lemma {:induction false} PrintAllSnoc(str: Stringify, ts: seq<Ty>, t: Ty, depth: nat)
    ensures PrintAll(str, ts + [t], depth) == PrintAll(str, ts, depth) + [Print(str, t, depth)]
  {
    if ts != [] {
      assert (ts + [t])[1..] == ts[1..] + [t];
      PrintAllSnoc(str, ts[1..], t, depth);
    } else {
      assert ts + [t] == [t];
    }
  }

  lemma PrintAllPrefix(str: Stringify, ts: seq<Ty>, i: nat, depth: nat)
    requires i < |ts|
    ensures PrintAll(str, ts[..i + 1], depth) == PrintAll(str, ts[..i], depth) + [Print(str, ts[i], depth)]
  {
    assert ts[..i + 1] == ts[..i] + [ts[i]];
    PrintAllSnoc(str, ts[..i], ts[i], depth);
  }

  method RenderLits(str: Stringify, es: seq<Json>, depth: nat) returns (s: string)
    ensures s == Print(str, TUnion(LitAll(es)), depth)
  {
    var parts := [];
    for i := 0 to |es|
      invariant parts == PrintAll(str, LitAll(es)[..i], depth)
    {
      PrintAllPrefix(str, LitAll(es), i, depth);
      assert Print(str, LitAll(es)[i], depth) == if IsPrimitive(es[i]) then str(es[i]) else "unknown" + "";
      assert "unknown" + "" == "unknown";
      parts := parts + [if IsPrimitive(es[i]) then str(es[i]) else "unknown"];
    }
    assert LitAll(es)[..|es|] == LitAll(es);
    s := Join(parts, " | ");
  }

  method RenderAll(str: Stringify, j: Json, subs: seq<Json>, depth: nat) returns (parts: seq<string>)
    requires forall i | 0 <= i < |subs| :: subs[i] < j
    ensures parts == PrintAll(str, CompileAll(j, subs), depth)
    decreases j, 0
  {
    ghost var arms := CompileAll(j, subs);
    parts := [];
    for i := 0 to |subs|
      invariant parts == PrintAll(str, arms[..i], depth)
    {
      var part := RenderType(str, subs[i], depth);
      CompileAllAt(j, subs, i);
      PrintAllPrefix(str, arms, i, depth);
      parts := parts + [part];
    }
    assert arms[..|subs|] == arms;
  }

  method RenderTypes(str: Stringify, j: Json, t: Json, depth: nat) returns (s: string)
    requires j.JObj?
    ensures s == Print(str, CompileTypes(j, t), depth)
    decreases j, 3, t
  {
    if t.JStr? {
      s := RenderName(str, j, t, depth);
    } else if t.JArr? && |t.items| == 1 {
      s := RenderName(str, j, t.items[0], depth);
    } else if t.JArr? && |t.items| > 1 {
      ghost var arms := CompileEach(j, t.items);
      var parts := [];
      for i := 0 to |t.items|
        invariant parts == PrintAll(str, arms[..i], depth)
      {
        var part := RenderTypes(str, j, t.items[i], depth);
        CompileEachAt(j, t.items, i);
        PrintAllPrefix(str, arms, i, depth);
        parts := parts + [part];
      }
      assert arms[..|t.items|] == arms;
      s := Join(parts, " | ");
    } else {
      s := "unknown";
    }
  }

  method RenderName(str: Stringify, j: Json, t: Json, depth: nat) returns (s: string)
    requires j.JObj?
    ensures s == Print(str, CompileName(j, t), depth)
    decreases j, 2
  {
    if !t.JStr? { return "unknown"; }
    match t.s {
      case "string" => s := "string" + FormatNote(j);
      case "integer" => s := "number";
      case "number" => s := "number";
      case "boolean" => s := "boolean";
      case "null" => s := "null";
      case "array" =>
        var inner := "unknown";
        if Get(j, "items").Some? { inner := RenderType(str, Get(j, "items").value, depth + 1); }
        s := "Array<" + inner + ">";
      case "object" => s := RenderObject(str, j, depth);
      case _ => s := "unknown";
    }
  }

  /** `lines.push` of the documentation comment of one property. */
  method PushDoc(lines: seq<string>, doc: seq<string>, depth: nat) returns (r: seq<string>)
    ensures r == lines + DocLines(doc, depth)
  {
    r := lines;
    for i := 0 to |doc|
      invariant r + DocLines(doc[i..], depth) == lines + DocLines(doc, depth)
    {
      assert doc[i..][1..] == doc[i + 1..];
      r := r + [Indent(depth + 1) + "/** " + doc[i] + " */"];
    }
  }

  method RenderObject(str: Stringify, j: Json, depth: nat) returns (s: string)
    requires j.JObj?
    ensures s == Print(str, CompileObject(j), depth)
    decreases j, 1
  {
    var keys := SortedKeys(PropsOf(j));
    if keys == [] {
      s := RenderRecord(str, j, depth);
      return;
    }
    var props := RenderProps(str, j, keys, depth);
    var index := RenderIndex(str, j, depth);
    ObjectIs(j);
    PrintTObject(str, CompileProps(j, keys), CompileIndex(j), depth);
    s := Join(["{"] + props + index + [Indent(depth) + "}"], "\n");
  }

  lemma PrintTObject(str: Stringify, props: seq<Prop>, index: Option<Ty>, depth: nat)
    ensures Print(str, TObject(props, index), depth)
      == Join(["{"] + PrintProps(str, props, depth) + PrintIndex(str, index, depth) + [Indent(depth) + "}"], "\n")
  {
  }

  lemma ObjectIs(j: Json)
    requires j.JObj? && SortedKeys(PropsOf(j)) != []
    ensures CompileObject(j) == TObject(CompileProps(j, SortedKeys(PropsOf(j))), CompileIndex(j))
  {
  }

  /** An object type without listed properties. */
  method RenderRecord(str: Stringify, j: Json, depth: nat) returns (s: string)
    requires j.JObj? && SortedKeys(PropsOf(j)) == []
    ensures s == Print(str, CompileObject(j), depth)
    decreases j, 0
  {
    if Get(j, "additionalProperties") == Some(JBool(false)) { return "{}"; }
    var value := "unknown";
    if ExtraSchema(j).Some? { value := RenderType(str, ExtraSchema(j).value, depth + 1); }
    return "Record<string, " + value + ">";
  }

  /** The index signature of an object type, if it has one. */
  method RenderIndex(str: Stringify, j: Json, depth: nat) returns (index: seq<string>)
    requires j.JObj?
    ensures index == PrintIndex(str, CompileIndex(j), depth)
    decreases j, 0
  {
    index := [];
    if ExtraSchema(j).Some? {
      var value := RenderType(str, ExtraSchema(j).value, depth + 1);
      index := [Indent(depth + 1) + "[key: string]: " + value + ";"];
    }
  }

  lemma {:induction false} PrintPropsSnoc(str: Stringify, props: seq<Prop>, p: Prop, depth: nat)
    ensures PrintProps(str, props + [p], depth) == PrintProps(str, props, depth) + PrintProp(str, p, depth)
  {
    if props != [] {
      assert (props + [p])[1..] == props[1..] + [p];
      PrintPropsSnoc(str, props[1..], p, depth);
    } else {
      assert props + [p] == [p];
    }
  }

  lemma PrintPropsPrefix(str: Stringify, props: seq<Prop>, i: nat, depth: nat)
    requires i < |props|
    ensures PrintProps(str, props[..i + 1], depth)
         == PrintProps(str, props[..i], depth) + PrintProp(str, props[i], depth)
  {
    assert props[..i + 1] == props[..i] + [props[i]];
    PrintPropsSnoc(str, props[..i], props[i], depth);
  }

  /** One turn of the property loop of `renderObject`. */
  method PushProp(lines: seq<string>, str: Stringify, j: Json, key: string, depth: nat) returns (r: seq<string>)
    requires j.JObj?
    ensures r == lines + PrintProp(str, CompileProp(j, key), depth)
    decreases j, 0, 0
  {
    var doc, rendered := [], "unknown";
    if PropOf(j, key).Some? {
      doc := DocOf(PropOf(j, key).value);
      rendered := RenderType(str, PropOf(j, key).value, depth + 1);
    }
    r := PushDoc(lines, doc, depth);
    var opt := if Requires(j, key) then "" else "?";
    var line := Indent(depth + 1) + PropKey(str, key) + opt + ": " + rendered + ";";
    ghost var p := CompileProp(j, key);
    PropText(str, j, key, rendered, depth);
    PropLine(str, p, doc, rendered, depth);
    r := r + [line];
  }

  lemma PropText(str: Stringify, j: Json, key: string, rendered: string, depth: nat)
    requires j.JObj?
    requires rendered
      == if PropOf(j, key).Some? then Print(str, Compile(PropOf(j, key).value), depth + 1) else "unknown"
    ensures var p := CompileProp(j, key);
      && rendered == Print(str, p.ty, depth + 1) && p.key == key && p.optional == !Requires(j, key)
      && p.doc == if PropOf(j, key).Some? then DocOf(PropOf(j, key).value) else []
  {
    assert "unknown" + "" == "unknown";
  }

  lemma PropLine(str: Stringify, p: Prop, doc: seq<string>, rendered: string, depth: nat)
    requires rendered == Print(str, p.ty, depth + 1) && doc == p.doc
    ensures PrintProp(str, p, depth) == DocLines(doc, depth)
      + [Indent(depth + 1) + PropKey(str, p.key) + (if p.optional then "?" else "") + ": " + rendered + ";"]
  {
  }

  /** The property loop. */
  method RenderProps(str: Stringify, j: Json, keys: seq<string>, depth: nat) returns (lines: seq<string>)
    requires j.JObj?
    ensures lines == PrintProps(str, CompileProps(j, keys), depth)
    decreases j, 0, 1
  {
    ghost var props := CompileProps(j, keys);
    lines := [];
    for i := 0 to |keys|
      invariant lines == PrintProps(str, props[..i], depth)
    {
      lines := PushProp(lines, str, j, keys[i], depth);
      CompilePropsAt(j, keys, i);
      PrintPropsPrefix(str, props, i, depth);
    }
    assert props[..|keys|] == props;
  }

  // ---------- comments ----------

  lemma {:induction false} DocLineAt(doc: seq<string>, depth: nat, i: nat)
    requires i < |doc|
    ensures |DocLines(doc, depth)| == |doc| && DocLines(doc, depth)[i] == Indent(depth + 1) + "/** " + doc[i] + " */"
  {
    if i > 0 {
      DocLineAt(doc[1..], depth, i - 1);
    } else if |doc| > 1 {
      DocLineAt(doc[1..], depth, 0);
    }
  }

  /** The description of a listed property stands above it, line by line, in the order of its lines. */
  lemma DescriptionPrinted(str: Stringify, j: Json, key: string, depth: nat, text: string, i: nat)
    requires PropOf(j, key).Some? && Get(PropOf(j, key).value, "description") == Some(JStr(text)) && text != ""
    requires i < |SplitLines(text)|
    ensures var lines := PrintProp(str, CompileProp(j, key), depth); var doc := SplitLines(text);
      |lines| == |doc| + 1 && lines[i] == Indent(depth + 1) + "/** " + doc[i] + " */"
  {
    DocLineAt(SplitLines(text), depth, i);
  }

  /** The format of a string and the target of a reference stand behind the type as a comment. */
  lemma NotesPrinted(str: Stringify, j: Json, depth: nat, text: string)
    requires j.JObj?
    ensures Get(j, "format") == Some(JStr(text)) ==>
      Print(str, CompileName(j, JStr("string")), depth) == "string" + (" /* format: " + text + " */")
    ensures Get(j, "$ref") == Some(JStr(text)) ==>
      Print(str, Compile(j), depth) == "unknown" + (" /* $ref: " + text + " */")
  {
  }
}
