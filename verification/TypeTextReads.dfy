/** What the printed text of a type says: the text determines the type up to grouping and comments, admits every value
    of it, and the same values unless alternatives stand beside something else under an intersection. */
module TypeTextReads {
  import opened Wrappers
  import opened Sequences
  import opened Json
  import opened Text
  import opened CapabilitySchema
  import opened TypeScript
  import opened SchemaTypes
  import opened SchemaSoundness
  import opened TypeText

  // ---------- the type that the text says ----------

  /** The alternatives of a type and their parts, as the operators in its text group them: without parentheses, an
      intersection takes the last alternative on its left and the first on its right. */
  function Rows(t: Ty): seq<seq<Ty>>
    decreases t, 1
  {
    match t
    case TUnion(arms) => RowsOfUnion(arms)
    case TInter(parts) => RowsOfInter(parts)
    case _ => [[Atom(t)]]
  }

  function RowsOfUnion(arms: seq<Ty>): seq<seq<Ty>>
    decreases arms, 0
  {
    if arms == [] then [] else Rows(arms[0]) + RowsOfUnion(arms[1..])
  }

  function RowsOfInter(parts: seq<Ty>): seq<seq<Ty>>
    decreases parts, 0
  {
    if parts == [] then [] else Merge(Rows(parts[0]), RowsOfInter(parts[1..]))
  }

  /** A type that is neither a union nor an intersection, without its comments. */
  function Atom(t: Ty): Ty
    decreases t, 0
  {
    match t
    case TUnknown(_) => TUnknown("")
    case TString(_) => TString("")
    case TLit(x) => if x == JNull then TNull else t
    case TArray(elem) => TArray(ReadAs(elem))
    case TRecord(value) => TRecord(ReadAs(value))
    case TObject(props, index) => ObjectOf(PropsAs(props), IndexAs(index))
    case _ => t
  }

  function ReadAs(t: Ty): Ty
    decreases t, 2
  {
    FromRows(Rows(t))
  }

  function PropAs(p: Prop): Prop
    decreases p, 0
  {
    Prop(p.key, [], p.optional, ReadAs(p.ty))
  }

  function PropsAs(props: seq<Prop>): (r: seq<Prop>)
    ensures |r| == |props|
    decreases props, 0
  {
    if props == [] then [] else [PropAs(props[0])] + PropsAs(props[1..])
  }

  function IndexAs(index: Option<Ty>): Option<Ty>
    decreases index, 0
  {
    match index
    case None => None
    case Some(t) => Some(ReadAs(t))
  }

  // ---------- which types have a text that can be read ----------

  /** The end of a comment somewhere in a text. */
  predicate HasEnd(s: string) {
    exists i :: 0 <= i < |s| - 1 && s[i] == '*' && s[i + 1] == '/'
  }

  predicate NoteOk(note: string) {
    note == "" || (|note| >= 7 && var text := note[4..|note| - 3]; note == " /* " + text + " */" && !HasEnd(text))
  }

  /** No list of alternatives is empty, and no comment ends early. */
  predicate TextOk(t: Ty)
    decreases t
  {
    match t
    case TUnknown(note) => NoteOk(note)
    case TString(note) => NoteOk(note)
    case TLit(x) => IsPrimitive(x)
    case TArray(elem) => TextOk(elem)
    case TRecord(value) => TextOk(value)
    case TUnion(arms) => arms != [] && forall a | a in arms :: TextOk(a)
    case TInter(parts) => parts != [] && forall a | a in parts :: TextOk(a)
    case TObject(props, index) =>
      && (forall p | p in props :: TextOk(p.ty) && forall line | line in p.doc :: !HasEnd(line))
      && (index.Some? ==> TextOk(index.value))
    case _ => true
  }

  predicate Delimited(rest: string) {
    rest == "" || rest[0] in {' ', '>', ';', '?', ':'}
  }

  /** What is used of JSON: how literals begin, and that each is read back in front of anything that ends it. */
  ghost predicate Faithful(l: Literals) {
    && l.str(JNull) == "null" && l.str(JBool(true)) == "true" && l.str(JBool(false)) == "false"
    && (forall x: Json | x.JStr? :: l.str(x) != "" && l.str(x)[0] == '"')
    && (forall x: Json | x.JNum? :: l.str(x) != "" && (l.str(x)[0] == '-' || '0' <= l.str(x)[0] <= '9'))
    && forall x: Json, rest: string | (x.JStr? || x.JNum?) && Delimited(rest) ::
         l.read(l.str(x) + rest) == Some((x, rest))
  }

  // ---------- white space and comments ----------

  lemma {:induction false} SkipBlanks(n: nat, rest: string)
    ensures Skip(Spaces(n) + rest) == Skip(rest)
  {
    if n == 0 {
      assert Spaces(0) + rest == rest;
    } else {
      assert (Spaces(n) + rest)[1..] == Spaces(n - 1) + rest;
      SkipBlanks(n - 1, rest);
    }
  }

  lemma {:induction false} SkipTwice(s: string)
    ensures Skip(Skip(s)) == Skip(s)
    decreases |s|
  {
    if s != "" && IsSpace(s[0]) {
      SkipTwice(s[1..]);
    } else if StartsComment(s) {
      SkipTwice(AfterComment(s[2..]).value);
    }
  }

  /** A comment whose text does not hold its end goes to the end that is written. */
  lemma {:induction false} CommentEnds(text: string, rest: string)
    requires !HasEnd(text)
    ensures AfterComment(text + " */" + rest) == Some(rest)
  {
    var s := text + " */" + rest;
    if text == "" {
      assert s[0] == ' ' && s[1] == '*' && s[2] == '/' && s[1..][2..] == rest;
      assert AfterComment(s) == AfterComment(s[1..]);
    } else {
      assert s[0] == text[0] && s[1..] == text[1..] + " */" + rest;
      assert |text| > 1 ==> s[1] == text[1];
      assert |text| == 1 ==> s[1] == ' ';
      forall i | 0 <= i < |text| - 2 ensures !(text[1..][i] == '*' && text[1..][i + 1] == '/') {
        assert text[1..][i] == text[i + 1] && text[1..][i + 1] == text[i + 2];
      }
      CommentEnds(text[1..], rest);
    }
  }

  lemma SkipComment(text: string, rest: string)
    requires !HasEnd(text)
    ensures Skip("/* " + text + " */" + rest) == Skip(rest)
  {
    var s := "/* " + text + " */" + rest;
    var inner := " " + text + " */" + rest;
    assert s[2..] == inner && inner[1..] == text + " */" + rest && inner[0] == ' ';
    CommentEnds(text, rest);
    assert AfterComment(inner) == AfterComment(inner[1..]);
    assert StartsComment(s);
  }

  lemma SkipNote(note: string, rest: string)
    requires NoteOk(note)
    ensures Skip(note + rest) == Skip(rest)
  {
    if note == "" {
      assert note + rest == rest;
    } else {
      var text := note[4..|note| - 3];
      NoteText(text, rest);
      SkipBlank("/* " + text + " */" + rest);
      SkipComment(text, rest);
    }
  }

  lemma NoteText(text: string, rest: string)
    ensures " /* " + text + " */" + rest == " " + ("/* " + text + " */" + rest)
  {
    assert " /* " == " " + "/* ";
  }

  lemma SkipBlank(s: string)
    ensures Skip(" " + s) == Skip(s)
  {
    assert (" " + s)[1..] == s;
  }

  lemma SkipDoc(line: string, rest: string)
    requires !HasEnd(line)
    ensures Skip("/** " + line + " */" + rest) == Skip(rest)
  {
    var s := "/** " + line + " */" + rest;
    var inner := "* " + line + " */" + rest;
    assert s[2..] == inner && inner[1..] == " " + line + " */" + rest && inner[0] == '*' && inner[1] == ' ';
    assert inner[1..][1..] == line + " */" + rest && inner[1..][0] == ' ';
    CommentEnds(line, rest);
    assert AfterComment(inner) == AfterComment(inner[1..]) == AfterComment(line + " */" + rest);
    assert StartsComment(s);
  }

  // ---------- rows ----------

  lemma MergeAppend(a: seq<seq<Ty>>, b: seq<seq<Ty>>, more: seq<seq<Ty>>)
    requires a != [] && b != []
    ensures Merge(a, b + more) == Merge(a, b) + more
  {
    assert (b + more)[1..] == b[1..] + more;
  }

  lemma AppendMerge(a: seq<seq<Ty>>, b: seq<seq<Ty>>, more: seq<seq<Ty>>)
    requires b != []
    ensures a + Merge(b, more) == Merge(a + b, more)
  {
    if more != [] {
      assert (a + b)[..|a + b| - 1] == a + b[..|b| - 1] && (a + b)[|a + b| - 1] == b[|b| - 1];
    }
  }

  lemma MergeAssoc(a: seq<seq<Ty>>, b: seq<seq<Ty>>, c: seq<seq<Ty>>)
    requires a != [] && b != []
    ensures Merge(a, Merge(b, c)) == Merge(Merge(a, b), c)
  {
    if c != [] {
      if |b| == 1 {
        MergeSingle(a, b[0], c);
      } else {
        MergeLong(a, b, c);
      }
    }
  }

  lemma MergeSingle(a: seq<seq<Ty>>, row: seq<Ty>, c: seq<seq<Ty>>)
    requires a != [] && c != []
    ensures Merge(a, Merge([row], c)) == Merge(Merge(a, [row]), c)
  {
    var init, last := a[..|a| - 1], a[|a| - 1];
    assert Merge([row], c) == [row + c[0]] + c[1..];
    assert Merge(a, [row]) == init + [last + row];
    Regroup(last, row, c[0]);
  }

  lemma MergeLong(a: seq<seq<Ty>>, b: seq<seq<Ty>>, c: seq<seq<Ty>>)
    requires a != [] && |b| > 1 && c != []
    ensures Merge(a, Merge(b, c)) == Merge(Merge(a, b), c)
  {
    var m := [b[|b| - 1] + c[0]] + c[1..];
    var inner := b[1..|b| - 1];
    var head := a[..|a| - 1] + [a[|a| - 1] + b[0]];
    assert Merge(b, c) == [b[0]] + (inner + m);
    assert Merge(b, c)[1..] == inner + m;
    assert Merge(a, Merge(b, c)) == head + (inner + m);
    assert b[1..] == inner + [b[|b| - 1]];
    assert Merge(a, b) == head + inner + [b[|b| - 1]];
  }

  lemma {:induction false} RowsNonEmpty(t: Ty)
    requires TextOk(t)
    ensures Rows(t) != []
    decreases t
  {
    match t {
      case TUnion(arms) =>
        assert arms[0] in arms;
        RowsNonEmpty(arms[0]);
      case TInter(parts) =>
        assert parts[0] in parts;
        RowsNonEmpty(parts[0]);
      case _ =>
    }
  }

  // ---------- reading on behind rows ----------

  lemma AfterAppend(l: Literals, first: seq<seq<Ty>>, x: seq<seq<Ty>>, rest: string)
    requires x != []
    ensures var r := After(l, x, rest);
      After(l, first + x, rest) == if r.None? then None else Some((first + r.value.0, r.value.1))
  {
    var s := Skip(rest);
    if s != "" && s[0] in {'|', '&'} && ReadRows(l, s[1..]).Some? {
      var more := ReadRows(l, s[1..]).value.0;
      Regroup(first, x, more);
      AppendMerge(first, x, more);
    }
  }

  lemma AfterMerge(l: Literals, first: seq<seq<Ty>>, x: seq<seq<Ty>>, rest: string)
    requires first != [] && x != []
    ensures var r := After(l, x, rest);
      After(l, Merge(first, x), rest) == if r.None? then None else Some((Merge(first, r.value.0), r.value.1))
  {
    var s := Skip(rest);
    if s != "" && s[0] in {'|', '&'} && ReadRows(l, s[1..]).Some? {
      var more := ReadRows(l, s[1..]).value.0;
      MergeAppend(first, x, more);
      MergeAssoc(first, x, more);
    }
  }

  lemma OperatorReads(l: Literals, first: seq<seq<Ty>>, op: string, s: string)
    requires op == " | " || op == " & "
    ensures var r := ReadRows(l, s);
      After(l, first, op + s) ==
        if r.None? then None
        else Some((if op == " | " then first + r.value.0 else Merge(first, r.value.0), r.value.1))
  {
    var t := op + s;
    var behind := t[1..];
    assert t[0] == ' ' && behind[0] == op[1] && behind[1..] == " " + s;
    assert op[1] == '|' || op[1] == '&';
    assert Skip(t) == Skip(behind) == behind;
    assert (" " + s)[1..] == s;
    SameRows(l, " " + s, s);
  }

  /** Reading starts behind white space and comments. */
  lemma SameRows(l: Literals, a: string, b: string)
    requires Skip(a) == Skip(b)
    ensures ReadRows(l, a) == ReadRows(l, b)
  {
    assert ReadPrimary(l, a) == ReadPrimary(l, b);
  }

  // ---------- atoms ----------

  lemma {:induction false} WordIs(w: string, rest: string)
    requires (forall c | c in w :: IdentPart(c)) && (rest == "" || !IdentPart(rest[0]))
    ensures Word(w + rest) == w
  {
    if w == "" {
      assert w + rest == rest;
    } else {
      assert w[0] in w && (w + rest)[0] == w[0] && (w + rest)[1..] == w[1..] + rest;
      WordIs(w[1..], rest);
    }
  }

  /** Words begin a type where they stand. */
  lemma WordReads(l: Literals, w: string, rest: string)
    requires w != "" && IdentStart(w[0]) && (forall c | c in w :: IdentPart(c)) && (rest == "" || !IdentPart(rest[0]))
    ensures ReadPrimary(l, w + rest) == ReadWord(l, w, rest)
  {
    var s := w + rest;
    WordIs(w, rest);
    assert s[0] == w[0] && Skip(s) == s && s[|w|..] == rest;
  }

  /** What may follow a type in a text. */
  predicate Ends(rest: string) {
    rest == "" || rest[0] in {' ', '>', ';'}
  }

  lemma NoteEnds(note: string, rest: string)
    requires NoteOk(note) && Ends(rest)
    ensures Ends(note + rest)
  {
    if note == "" { assert note + rest == rest; }
  }

  lemma EndsWord(rest: string)
    requires Ends(rest) || (rest != "" && rest[0] == '<')
    ensures rest == "" || !IdentPart(rest[0])
  {
  }

  predicate IsAtom(t: Ty) {
    !t.TUnion? && !t.TInter?
  }

  /** The atoms that are one word or one literal. */
  lemma PlainAtom(l: Literals, t: Ty, depth: nat, rest: string)
    requires t in {TNever, TNumber, TBoolean, TNull} && Ends(rest)
    ensures ReadPrimary(l, Print(l.str, t, depth) + rest) == Some((Atom(t), Skip(rest)))
  {
    EndsWord(rest);
    WordReads(l, Print(l.str, t, depth), rest);
  }

  lemma NotedAtom(l: Literals, word: string, note: string, rest: string)
    requires word in {"unknown", "string"} && NoteOk(note) && Ends(rest)
    ensures ReadPrimary(l, word + note + rest)
      == Some((if word == "unknown" then TUnknown("") else TString(""), Skip(rest)))
  {
    NoteEnds(note, rest);
    EndsWord(note + rest);
    assert word + note + rest == word + (note + rest);
    WordReads(l, word, note + rest);
    SkipNote(note, rest);
  }

  lemma WordAtom(l: Literals, word: string, rest: string)
    requires word in {"null", "true", "false"} && Ends(rest)
    ensures ReadPrimary(l, word + rest)
      == Some((if word == "null" then TNull else TLit(JBool(word == "true")), Skip(rest)))
  {
    EndsWord(rest);
    WordReads(l, word, rest);
  }

  lemma WrittenAtom(l: Literals, x: Json, rest: string)
    requires Faithful(l) && (x.JStr? || x.JNum?) && Ends(rest)
    ensures ReadPrimary(l, l.str(x) + rest) == Some((TLit(x), Skip(rest)))
  {
    var s := l.str(x) + rest;
    assert s[0] == l.str(x)[0] && Skip(s) == s && Delimited(rest);
    assert l.read(s) == Some((x, rest));
  }

  lemma LiteralAtom(l: Literals, x: Json, rest: string)
    requires Faithful(l) && IsPrimitive(x) && Ends(rest)
    ensures ReadPrimary(l, l.str(x) + rest) == Some((Atom(TLit(x)), Skip(rest)))
  {
    if x.JStr? || x.JNum? { WrittenAtom(l, x, rest); } else { WordAtom(l, l.str(x), rest); }
  }

  lemma EatHere(token: string, rest: string)
    requires IsToken(token)
    ensures Eat(token, token + rest) == Some(rest)
  {
    var s := token + rest;
    assert s[0] == token[0] && Skip(s) == s && s[|token|..] == rest;
  }

  /** Nothing follows an argument but its closing bracket, and a member but its semicolon. */
  lemma AfterStops(l: Literals, rows: seq<seq<Ty>>, rest: string)
    requires rest != "" && rest[0] in {'>', ';'}
    ensures After(l, rows, rest) == Some((rows, rest))
  {
    assert Skip(rest) == rest;
  }

  /** An argument, if its type reads. */
  lemma ArgumentReads(l: Literals, opening: seq<string>, s: string, inner: string, rows: seq<seq<Ty>>, rest: string)
    requires EatAll(opening, s) == Some(inner) && ReadRows(l, inner) == After(l, rows, ">" + rest)
    ensures ReadArgument(l, opening, s) == Some((FromRows(rows), Skip(rest)))
  {
    AfterStops(l, rows, ">" + rest);
    EatHere(">", rest);
  }

  predicate IsToken(token: string) {
    token != "" && !IsSpace(token[0]) && token[0] != '/'
  }

  /** A token somewhere in a text. */
  lemma EatIn(s: string, i: nat, token: string)
    requires IsToken(token) && i + |token| <= |s| && s[i..i + |token|] == token
    ensures Eat(token, s[i..]) == Some(s[i + |token|..])
  {
    assert s[i..] == token + s[i + |token|..];
    EatHere(token, s[i + |token|..]);
  }

  lemma EatStep(tokens: seq<string>, s: string, i: nat)
    requires tokens != [] && IsToken(tokens[0]) && i + |tokens[0]| <= |s| && s[i..i + |tokens[0]|] == tokens[0]
    ensures EatAll(tokens, s[i..]) == EatAll(tokens[1..], s[i + |tokens[0]|..])
  {
    EatIn(s, i, tokens[0]);
  }

  lemma EatSpaced(tokens: seq<string>, s: string, i: nat)
    requires tokens != [] && i < |s| && s[i] == ' '
    ensures EatAll(tokens, s[i..]) == EatAll(tokens, s[i + 1..])
  {
    assert s[i..][1..] == s[i + 1..];
  }

  /** A generic type, if its argument reads. */
  lemma GenericReads(
    l: Literals, word: string, opening: seq<string>, s: string, inner: string, rows: seq<seq<Ty>>, rest: string)
    requires (word == "Array" && opening == ["<"]) || (word == "Record" && opening == ["<", "string", ","])
    requires EatAll(opening, s) == Some(inner) && s != "" && s[0] == '<'
    requires ReadRows(l, inner) == After(l, rows, ">" + rest)
    ensures ReadPrimary(l, word + s)
      == Some((if word == "Array" then TArray(FromRows(rows)) else TRecord(FromRows(rows)), Skip(rest)))
  {
    GenericWord(word);
    WordReads(l, word, s);
    ArgumentReads(l, opening, s, inner, rows, rest);
    WordIsGeneric(l, word, s);
  }

  lemma GenericWord(word: string)
    requires word == "Array" || word == "Record"
    ensures word != "" && IdentStart(word[0]) && forall c | c in word :: IdentPart(c)
  {
  }

  lemma WordIsGeneric(l: Literals, word: string, s: string)
    requires word == "Array" || word == "Record"
    ensures ReadWord(l, word, s)
      == var r := ReadArgument(l, if word == "Array" then ["<"] else ["<", "string", ","], s);
         if r.None? then None
         else Some((if word == "Array" then TArray(r.value.0) else TRecord(r.value.0), r.value.1))
  {
  }

  lemma ArrayOpens(body: string)
    ensures var s := "Array<" + body; s == "Array" + s[5..] && s[5] == '<' && EatAll(["<"], s[5..]) == Some(body)
  {
    var s := "Array<" + body;
    assert s[..5] == "Array" && s[5..6] == "<" && s[6..] == body;
    EatStep(["<"], s, 5);
    assert ["<"][1..] == [];
  }

  lemma ArrayReads(l: Literals, text: string, rows: seq<seq<Ty>>, rest: string)
    requires ReadRows(l, text + (">" + rest)) == After(l, rows, ">" + rest)
    ensures ReadPrimary(l, "Array<" + (text + (">" + rest))) == Some((TArray(FromRows(rows)), Skip(rest)))
  {
    var body := text + (">" + rest);
    ArrayOpens(body);
    GenericReads(l, "Array", ["<"], ("Array<" + body)[5..], body, rows, rest);
  }

  lemma RecordOpens(body: string)
    ensures var s := "Record<string, " + body;
      s == "Record" + s[6..] && EatAll(["<", "string", ","], s[6..]) == Some(" " + body)
  {
    var s := "Record<string, " + body;
    assert s[..6] == "Record" && s[14..] == " " + body;
    assert s[6..7] == "<" && s[7..13] == "string";
    assert s[13] == ',' && s[13..14] == [s[13]];
    ArgumentOpens(s);
  }

  lemma ArgumentOpens(s: string)
    requires |s| >= 14 && s[6..7] == "<" && s[7..13] == "string" && s[13..14] == ","
    ensures EatAll(["<", "string", ","], s[6..]) == Some(s[14..])
  {
    EatStep(["<", "string", ","], s, 6);
    EatStep(["string", ","], s, 7);
    EatStep([","], s, 13);
    assert ["<", "string", ","][1..] == ["string", ","] && ["string", ","][1..] == [","] && [","][1..] == [];
  }

  lemma SpacedRows(l: Literals, s: string)
    ensures ReadRows(l, " " + s) == ReadRows(l, s)
  {
    SkipBlank(s);
    SameRows(l, " " + s, s);
  }

  lemma RecordReads(l: Literals, text: string, rows: seq<seq<Ty>>, rest: string)
    requires ReadRows(l, text + (">" + rest)) == After(l, rows, ">" + rest)
    ensures ReadPrimary(l, "Record<string, " + (text + (">" + rest))) == Some((TRecord(FromRows(rows)), Skip(rest)))
  {
    var body := text + (">" + rest);
    var s := "Record<string, " + body;
    RecordOpens(body);
    SpacedRows(l, body);
    assert s[6..][0] == '<';
    GenericReads(l, "Record", ["<", "string", ","], s[6..], " " + body, rows, rest);
  }

  // ---------- members ----------

  lemma JoinCons(first: string, more: seq<string>)
    requires more != []
    ensures Join([first] + more, "\n") == first + "\n" + Join(more, "\n")
  {
    assert ([first] + more)[1..] == more;
  }

  /** Members are read behind white space and comments. */
  lemma SameMembers(l: Literals, a: string, b: string)
    requires Skip(a) == Skip(b)
    ensures ReadMembers(l, a) == ReadMembers(l, b)
  {
  }

  lemma KeyReads(l: Literals, key: string, rest: string)
    requires Faithful(l) && rest != "" && rest[0] in {'?', ':'}
    ensures var s := PropKey(l.str, key) + rest;
      Skip(s) == s && s != "" && s[0] != '}' && s[0] != '[' && ReadKey(l, s) == Some((key, rest))
  {
    var k := PropKey(l.str, key);
    var s := k + rest;
    if IsIdentifier(key) {
      assert forall c | c in key :: IdentPart(c);
      WordIs(key, rest);
      assert s[0] == key[0] && s[|key|..] == rest;
    } else {
      assert s[0] == l.str(JStr(key))[0] == '"';
      assert Delimited(rest);
    }
  }

  lemma MemberReads(l: Literals, text: string, rows: seq<seq<Ty>>, rest: string, bound: nat)
    requires ReadRows(l, text + (";" + rest)) == After(l, rows, ";" + rest)
    requires |" " + text + ";" + rest| <= bound
    ensures ReadMember(l, Some(" " + text + ";" + rest), bound) == Some((FromRows(rows), rest))
  {
    MemberText(text, rest);
    MemberRows(l, text + (";" + rest), rows, rest);
    MemberEnds(l, " " + (text + (";" + rest)), rows, rest, bound);
  }

  lemma MemberText(text: string, rest: string)
    ensures " " + text + ";" + rest == " " + (text + (";" + rest))
  {
  }

  lemma MemberRows(l: Literals, s: string, rows: seq<seq<Ty>>, rest: string)
    requires ReadRows(l, s) == After(l, rows, ";" + rest)
    ensures ReadRows(l, " " + s) == Some((rows, ";" + rest))
  {
    SpacedRows(l, s);
    AfterStops(l, rows, ";" + rest);
  }

  lemma MemberEnds(l: Literals, s: string, rows: seq<seq<Ty>>, rest: string, bound: nat)
    requires |s| <= bound && ReadRows(l, s) == Some((rows, ";" + rest))
    ensures ReadMember(l, Some(s), bound) == Some((FromRows(rows), rest))
  {
    EatHere(";", rest);
  }

  function BehindKey(optional: bool, body: string): string {
    (if optional then "?" else "") + (":" + body)
  }

  lemma MarkReads(optional: bool, body: string)
    ensures var s := BehindKey(optional, body); var mark := Eat("?", s);
      && s != "" && s[0] in {'?', ':'} && (mark.Some? <==> optional)
      && Eat(":", if mark.Some? then mark.value else s) == Some(body)
  {
    var colon := ":" + body;
    EatHere(":", body);
    if optional {
      EatHere("?", colon);
    } else {
      assert BehindKey(optional, body) == colon && Skip(colon) == colon && !("?" <= colon);
    }
  }

  lemma PropText(key: string, mark: string, text: string, rest: string)
    ensures key + mark + ": " + text + ";" + rest == key + (mark + (":" + (" " + text + ";" + rest)))
  {
    assert ": " == ":" + " ";
  }

  /** A property behind its documentation and indentation. */
  lemma PropReads(l: Literals, key: string, optional: bool, text: string, rows: seq<seq<Ty>>, rest: string)
    requires Faithful(l) && ReadRows(l, text + (";" + rest)) == After(l, rows, ";" + rest)
    ensures var s := PropKey(l.str, key) + (if optional then "?" else "") + ": " + text + ";" + rest;
      var r := ReadMembers(l, rest);
      ReadMembers(l, s) == if r.None? then None
        else Some(([Prop(key, [], optional, FromRows(rows))] + r.value.0, r.value.1, r.value.2))
  {
    var body := " " + text + ";" + rest;
    var s := PropKey(l.str, key) + BehindKey(optional, body);
    MarkReads(optional, body);
    KeyReads(l, key, BehindKey(optional, body));
    MemberReads(l, text, rows, rest, |s|);
    PropText(PropKey(l.str, key), if optional then "?" else "", text, rest);
    MemberStep(l, s, key, BehindKey(optional, body), optional, body, FromRows(rows), rest);
  }

  lemma MemberStep(
    l: Literals, s: string, key: string, behind: string, optional: bool, body: string, ty: Ty, rest: string)
    requires Skip(s) == s && s != "" && s[0] != '}' && s[0] != '[' && ReadKey(l, s) == Some((key, behind))
    requires var mark := Eat("?", behind);
      (mark.Some? <==> optional) && Eat(":", if mark.Some? then mark.value else behind) == Some(body)
    requires |body| <= |s| && ReadMember(l, Some(body), |s|) == Some((ty, rest))
    ensures var r := ReadMembers(l, rest);
      ReadMembers(l, s) == if r.None? then None
        else Some(([Prop(key, [], optional, ty)] + r.value.0, r.value.1, r.value.2))
  {
  }

  lemma IndexOpens(body: string)
    ensures EatIndex("[key: string]:" + body) == Some(body)
  {
    var s := "[key: string]:" + body;
    assert s[0..1] == "[" && s[1..4] == "key" && s[4..5] == ":" && s[5] == ' ' && s[0..] == s;
    KeyOpens(s);
    IndexTypeOpens(s, body);
  }

  lemma KeyOpens(s: string)
    requires |s| >= 6 && s[0..1] == "[" && s[1..4] == "key" && s[4..5] == ":" && s[0..] == s
    ensures EatAll(["[", "key", ":"], s) == Some(s[5..])
  {
    EatStep(["[", "key", ":"], s, 0);
    EatStep(["key", ":"], s, 1);
    EatStep([":"], s, 4);
    assert ["[", "key", ":"][1..] == ["key", ":"] && ["key", ":"][1..] == [":"] && [":"][1..] == [];
  }

  lemma IndexTypeOpens(s: string, body: string)
    requires s == "[key: string]:" + body
    ensures EatAll(["string", "]", ":"], s[5..]) == Some(body)
  {
    assert s[5] == ' ' && s[6..12] == "string" && s[14..] == body;
    assert s[12..13] == "]" && s[13..14] == ":";
    StringOpens(s);
  }

  lemma StringOpens(s: string)
    requires |s| >= 14 && s[5] == ' ' && s[6..12] == "string" && s[12..13] == "]" && s[13..14] == ":"
    ensures EatAll(["string", "]", ":"], s[5..]) == Some(s[14..])
  {
    EatSpaced(["string", "]", ":"], s, 5);
    EatStep(["string", "]", ":"], s, 6);
    EatStep(["]", ":"], s, 12);
    EatStep([":"], s, 13);
    assert ["string", "]", ":"][1..] == ["]", ":"] && ["]", ":"][1..] == [":"] && [":"][1..] == [];
  }

  lemma SkipLineBreak(s: string)
    ensures Skip("\n" + s) == Skip(s)
  {
    assert ("\n" + s)[1..] == s;
  }

  lemma CloseReads(l: Literals, depth: nat, rest: string)
    ensures var s := Indent(depth) + "}" + rest;
      ReadMembers(l, s) == Some(([], None, Skip(rest))) && Eat("}", s) == Some(rest)
  {
    var s := Indent(depth) + "}" + rest;
    assert s == Spaces(2 * depth) + ("}" + rest);
    SkipBlanks(2 * depth, "}" + rest);
    assert ("}" + rest)[1..] == rest;
  }

  lemma IndexText(text: string, close: string)
    ensures "[key: string]: " + text + ";" + "\n" + close == "[key: string]:" + (" " + text + ";" + ("\n" + close))
  {
    assert "[key: string]: " == "[key: string]:" + " ";
  }

  /** The index signature, the last member. */
  lemma IndexReads(l: Literals, depth: nat, text: string, rows: seq<seq<Ty>>, rest: string)
    requires ReadRows(l, text + (";" + ("\n" + (Indent(depth) + "}" + rest))))
      == After(l, rows, ";" + ("\n" + (Indent(depth) + "}" + rest)))
    ensures ReadMembers(l, "[key: string]: " + text + ";" + "\n" + (Indent(depth) + "}" + rest))
      == Some(([], Some(FromRows(rows)), Skip(rest)))
  {
    var close := Indent(depth) + "}" + rest;
    var end := "\n" + close;
    var body := " " + text + ";" + end;
    var s := "[key: string]:" + body;
    IndexText(text, close);
    assert s[0] == '[';
    IndexOpens(body);
    MemberReads(l, text, rows, end, |s|);
    SkipLineBreak(close);
    CloseReads(l, depth, rest);
    IndexMember(l, s, body, FromRows(rows), end, rest);
  }

  lemma IndexMember(l: Literals, s: string, body: string, ty: Ty, end: string, rest: string)
    requires s != "" && s[0] == '[' && EatIndex(s) == Some(body) && |body| <= |s|
    requires ReadMember(l, Some(body), |s|) == Some((ty, end)) && Eat("}", end) == Some(rest)
    ensures ReadMembers(l, s) == Some(([], Some(ty), Skip(rest)))
  {
    assert Skip(s) == s;
  }

  lemma {:induction false} DocsSkip(l: Literals, doc: seq<string>, depth: nat, more: seq<string>, rest: string)
    requires more != [] && forall line | line in doc :: !HasEnd(line)
    ensures ReadMembers(l, Join(DocLines(doc, depth) + more, "\n") + rest) == ReadMembers(l, Join(more, "\n") + rest)
  {
    if doc == [] {
      assert DocLines(doc, depth) + more == more;
    } else {
      var behind := Join(DocLines(doc[1..], depth) + more, "\n") + rest;
      var comment := "/** " + doc[0] + " */" + ("\n" + behind);
      assert doc[0] in doc;
      assert DocLines(doc, depth) + more
          == [Indent(depth + 1) + "/** " + doc[0] + " */"] + (DocLines(doc[1..], depth) + more);
      JoinCons(Indent(depth + 1) + "/** " + doc[0] + " */", DocLines(doc[1..], depth) + more);
      assert Join(DocLines(doc, depth) + more, "\n") + rest == Spaces(2 * (depth + 1)) + comment;
      SkipBlanks(2 * (depth + 1), comment);
      SkipDoc(doc[0], "\n" + behind);
      SkipLineBreak(behind);
      SameMembers(l, Join(DocLines(doc, depth) + more, "\n") + rest, behind);
      DocsSkip(l, doc[1..], depth, more, rest);
    }
  }

  lemma LineText(indent: string, key: string, mark: string, text: string, tail: string)
    ensures indent + key + mark + ": " + text + ";" + tail == indent + (key + mark + ": " + text + ";" + tail)
  {
  }

  /** The line of a property and the members behind it. */
  lemma LineReads(l: Literals, p: Prop, text: string, rows: seq<seq<Ty>>, depth: nat, more: string)
    requires Faithful(l) && ReadRows(l, text + (";" + ("\n" + more))) == After(l, rows, ";" + ("\n" + more))
    ensures var mark := if p.optional then "?" else "";
      var s := Indent(depth + 1) + PropKey(l.str, p.key) + mark + ": " + text + ";" + ("\n" + more);
      var r := ReadMembers(l, more);
      ReadMembers(l, s) == if r.None? then None
        else Some(([Prop(p.key, [], p.optional, FromRows(rows))] + r.value.0, r.value.1, r.value.2))
  {
    var mark := if p.optional then "?" else "";
    var s := PropKey(l.str, p.key) + mark + ": " + text + ";" + ("\n" + more);
    PropReads(l, p.key, p.optional, text, rows, "\n" + more);
    SkipLineBreak(more);
    SameMembers(l, "\n" + more, more);
    SkipBlanks(2 * (depth + 1), s);
    SameMembers(l, Indent(depth + 1) + s, s);
    LineText(Indent(depth + 1), PropKey(l.str, p.key), mark, text, "\n" + more);
  }

  // ---------- types ----------

  lemma {:induction false} UnionReads(l: Literals, arms: seq<Ty>, depth: nat, rest: string)
    requires Faithful(l) && arms != [] && (forall a | a in arms :: TextOk(a)) && Ends(rest)
    ensures ReadRows(l, Join(PrintAll(l.str, arms, depth), " | ") + rest) == After(l, RowsOfUnion(arms), rest)
    decreases arms, 0
  {
    var first, texts := Rows(arms[0]), PrintAll(l.str, arms, depth);
    assert arms[0] in arms;
    if |arms| == 1 {
      RowsRead(l, arms[0], depth, rest);
      assert RowsOfUnion(arms) == first + [] == first;
    } else {
      var more := arms[1..];
      assert forall a | a in more :: a in arms;
      var behind := Join(texts[1..], " | ") + rest;
      RowsRead(l, arms[0], depth, " | " + behind);
      UnionReads(l, more, depth, rest);
      UnionNonEmpty(more);
      JoinedText(texts, " | ", rest);
      OneMoreArm(l, first, RowsOfUnion(more), texts[0], behind, rest);
    }
  }

  lemma JoinedText(texts: seq<string>, op: string, rest: string)
    requires |texts| > 1
    ensures Join(texts, op) + rest == texts[0] + (op + (Join(texts[1..], op) + rest))
  {
  }

  lemma OneMoreArm(l: Literals, first: seq<seq<Ty>>, more: seq<seq<Ty>>, text: string, behind: string, rest: string)
    requires ReadRows(l, text + (" | " + behind)) == After(l, first, " | " + behind)
    requires more != [] && ReadRows(l, behind) == After(l, more, rest)
    ensures ReadRows(l, text + (" | " + behind)) == After(l, first + more, rest)
  {
    OperatorReads(l, first, " | ", behind);
    AfterAppend(l, first, more, rest);
  }

  lemma OneMorePart(l: Literals, first: seq<seq<Ty>>, more: seq<seq<Ty>>, text: string, behind: string, rest: string)
    requires ReadRows(l, text + (" & " + behind)) == After(l, first, " & " + behind)
    requires first != [] && more != [] && ReadRows(l, behind) == After(l, more, rest)
    ensures ReadRows(l, text + (" & " + behind)) == After(l, Merge(first, more), rest)
  {
    OperatorReads(l, first, " & ", behind);
    AfterMerge(l, first, more, rest);
  }

  lemma UnionNonEmpty(arms: seq<Ty>)
    requires arms != [] && forall a | a in arms :: TextOk(a)
    ensures RowsOfUnion(arms) != [] && RowsOfInter(arms) != []
  {
    assert arms[0] in arms;
    RowsNonEmpty(arms[0]);
  }

  lemma {:induction false} InterReads(l: Literals, parts: seq<Ty>, depth: nat, rest: string)
    requires Faithful(l) && parts != [] && (forall a | a in parts :: TextOk(a)) && Ends(rest)
    ensures ReadRows(l, Join(PrintAll(l.str, parts, depth), " & ") + rest) == After(l, RowsOfInter(parts), rest)
    decreases parts, 0
  {
    var first, texts := Rows(parts[0]), PrintAll(l.str, parts, depth);
    assert parts[0] in parts;
    RowsNonEmpty(parts[0]);
    if |parts| == 1 {
      RowsRead(l, parts[0], depth, rest);
      assert RowsOfInter(parts) == Merge(first, []) == first;
    } else {
      var more := parts[1..];
      assert forall p | p in more :: p in parts;
      var behind := Join(texts[1..], " & ") + rest;
      RowsRead(l, parts[0], depth, " & " + behind);
      InterReads(l, more, depth, rest);
      UnionNonEmpty(more);
      JoinedText(texts, " & ", rest);
      OneMorePart(l, first, RowsOfInter(more), texts[0], behind, rest);
    }
  }

  function MemberLines(l: Literals, props: seq<Prop>, index: Option<Ty>, depth: nat): (r: seq<string>)
    ensures r != []
  {
    PrintProps(l.str, props, depth) + PrintIndex(l.str, index, depth) + [Indent(depth) + "}"]
  }

  function PropLine(l: Literals, p: Prop, depth: nat): string {
    Indent(depth + 1) + PropKey(l.str, p.key) + (if p.optional then "?" else "") + ": " + Print(l.str, p.ty, depth + 1)
      + ";"
  }

  lemma MembersText(l: Literals, props: seq<Prop>, index: Option<Ty>, depth: nat)
    requires props != []
    ensures MemberLines(l, props, index, depth)
      == DocLines(props[0].doc, depth) + ([PropLine(l, props[0], depth)] + MemberLines(l, props[1..], index, depth))
  {
    var docs, line, more := DocLines(props[0].doc, depth), [PropLine(l, props[0], depth)],
      PrintProps(l.str, props[1..], depth);
    var index', close := PrintIndex(l.str, index, depth), [Indent(depth) + "}"];
    assert PrintProp(l.str, props[0], depth) == docs + line;
    assert docs + line + more + index' + close == docs + (line + (more + index' + close));
  }

  lemma LineBreaks(line: string, behind: string, rest: string)
    ensures line + "\n" + behind + rest == line + ("\n" + (behind + rest))
  {
  }

  lemma {:induction false} IndexMembersRead(l: Literals, t: Ty, index: Option<Ty>, depth: nat, rest: string)
    requires Faithful(l) && (index.Some? ==> index.value < t && TextOk(index.value))
    ensures ReadMembers(l, Join(MemberLines(l, [], index, depth), "\n") + rest)
      == Some(([], IndexAs(index), Skip(rest)))
    decreases t, 0, 0
  {
    assert MemberLines(l, [], index, depth) == PrintIndex(l.str, index, depth) + [Indent(depth) + "}"];
    if index.Some? {
      RowsRead(l, index.value, depth + 1, ";" + ("\n" + (Indent(depth) + "}" + rest)));
      LastReads(l, depth, Print(l.str, index.value, depth + 1), Rows(index.value), rest);
      IndexLines(l, index, depth);
    } else {
      assert [] + [Indent(depth) + "}"] == [Indent(depth) + "}"];
      CloseReads(l, depth, rest);
    }
  }

  /** The lines of the members of an object type and its closing brace. */
  lemma {:induction false} MembersRead(
    l: Literals, t: Ty, props: seq<Prop>, index: Option<Ty>, depth: nat, rest: string)
    requires Faithful(l) && (index.Some? ==> index.value < t && TextOk(index.value))
    requires forall p | p in props :: p.ty < t && TextOk(p.ty) && forall line | line in p.doc :: !HasEnd(line)
    ensures ReadMembers(l, Join(MemberLines(l, props, index, depth), "\n") + rest)
      == Some((PropsAs(props), IndexAs(index), Skip(rest)))
    decreases t, 0, |props| + 1
  {
    if props == [] {
      IndexMembersRead(l, t, index, depth, rest);
    } else {
      var p, behind := props[0], MemberLines(l, props[1..], index, depth);
      assert p in props;
      RowsRead(l, p.ty, depth + 1, ";" + ("\n" + (Join(behind, "\n") + rest)));
      PropTextReads(l, p, depth, behind, rest);
      MembersRead(l, t, props[1..], index, depth, rest);
      MembersText(l, props, index, depth);
    }
  }

  /** A property with its documentation, and the lines of the members behind it. */
  lemma PropTextReads(l: Literals, p: Prop, depth: nat, behind: seq<string>, rest: string)
    requires Faithful(l) && behind != [] && forall line | line in p.doc :: !HasEnd(line)
    requires var end := ";" + ("\n" + (Join(behind, "\n") + rest));
      ReadRows(l, Print(l.str, p.ty, depth + 1) + end) == After(l, Rows(p.ty), end)
    ensures var s := Join(DocLines(p.doc, depth) + ([PropLine(l, p, depth)] + behind), "\n") + rest;
      var r := ReadMembers(l, Join(behind, "\n") + rest);
      ReadMembers(l, s) == if r.None? then None
        else Some(([PropAs(p)] + r.value.0, r.value.1, r.value.2))
  {
    LineReads(l, p, Print(l.str, p.ty, depth + 1), Rows(p.ty), depth, Join(behind, "\n") + rest);
    DocsSkip(l, p.doc, depth, [PropLine(l, p, depth)] + behind, rest);
    JoinCons(PropLine(l, p, depth), behind);
    LineBreaks(PropLine(l, p, depth), Join(behind, "\n"), rest);
  }

  lemma IndexLines(l: Literals, index: Option<Ty>, depth: nat)
    requires index.Some?
    ensures PrintIndex(l.str, index, depth) + [Indent(depth) + "}"]
      == [Indent(depth + 1) + "[key: string]: " + Print(l.str, index.value, depth + 1) + ";", Indent(depth) + "}"]
  {
  }

  lemma JoinTwo(a: string, b: string, rest: string)
    ensures Join([a, b], "\n") + rest == a + "\n" + (b + rest)
  {
    assert [a, b] == [a] + [b];
    JoinCons(a, [b]);
  }

  lemma LastText(indent: string, text: string, close: string)
    ensures indent + "[key: string]: " + text + ";" + "\n" + close
      == indent + ("[key: string]: " + text + ";" + "\n" + close)
  {
  }

  lemma LastReads(l: Literals, depth: nat, text: string, rows: seq<seq<Ty>>, rest: string)
    requires ReadRows(l, text + (";" + ("\n" + (Indent(depth) + "}" + rest))))
      == After(l, rows, ";" + ("\n" + (Indent(depth) + "}" + rest)))
    ensures ReadMembers(l, Join([Indent(depth + 1) + "[key: string]: " + text + ";", Indent(depth) + "}"], "\n") + rest)
      == Some(([], Some(FromRows(rows)), Skip(rest)))
  {
    var close := Indent(depth) + "}";
    var s := "[key: string]: " + text + ";" + "\n" + (close + rest);
    IndexReads(l, depth, text, rows, rest);
    JoinTwo(Indent(depth + 1) + "[key: string]: " + text + ";", close, rest);
    LastText(Indent(depth + 1), text, close + rest);
    SkipBlanks(2 * (depth + 1), s);
    SameMembers(l, Indent(depth + 1) + s, s);
  }

  lemma ObjectText(l: Literals, props: seq<Prop>, index: Option<Ty>, depth: nat, rest: string)
    ensures Print(l.str, TObject(props, index), depth) + rest
      == "{" + ("\n" + (Join(MemberLines(l, props, index, depth), "\n") + rest))
  {
    var lines := MemberLines(l, props, index, depth);
    assert ["{"] + PrintProps(l.str, props, depth) + PrintIndex(l.str, index, depth) + [Indent(depth) + "}"]
        == ["{"] + lines;
    JoinCons("{", lines);
    LineBreaks("{", Join(lines, "\n"), rest);
  }

  lemma BraceReads(l: Literals, s: string)
    ensures var r := ReadMembers(l, s);
      ReadPrimary(l, "{" + s) == if r.None? then None else Some((ObjectOf(r.value.0, r.value.1), r.value.2))
  {
    assert ("{" + s)[0] == '{' && ("{" + s)[1..] == s;
  }

  lemma {:induction false} ObjectReads(l: Literals, t: Ty, depth: nat, rest: string)
    requires Faithful(l) && t.TObject? && TextOk(t)
    ensures ReadPrimary(l, Print(l.str, t, depth) + rest) == Some((Atom(t), Skip(rest)))
    decreases t, 1
  {
    var body := Join(MemberLines(l, t.props, t.index, depth), "\n") + rest;
    ObjectText(l, t.props, t.index, depth, rest);
    MembersRead(l, t, t.props, t.index, depth, rest);
    SkipLineBreak(body);
    SameMembers(l, "\n" + body, body);
    BraceReads(l, "\n" + body);
  }

  lemma {:induction false} AtomReads(l: Literals, t: Ty, depth: nat, rest: string)
    requires Faithful(l) && IsAtom(t) && TextOk(t) && Ends(rest)
    ensures ReadPrimary(l, Print(l.str, t, depth) + rest) == Some((Atom(t), Skip(rest)))
    decreases t, 2
  {
    match t {
      case TUnknown(note) => NotedAtom(l, "unknown", note, rest);
      case TString(note) => NotedAtom(l, "string", note, rest);
      case TLit(x) => LiteralAtom(l, x, rest);
      case TArray(elem) =>
        RowsRead(l, elem, depth + 1, ">" + rest);
        ArrayReads(l, Print(l.str, elem, depth + 1), Rows(elem), rest);
        GenericText("Array<", Print(l.str, elem, depth + 1), rest);
      case TRecord(value) =>
        RowsRead(l, value, depth + 1, ">" + rest);
        RecordReads(l, Print(l.str, value, depth + 1), Rows(value), rest);
        GenericText("Record<string, ", Print(l.str, value, depth + 1), rest);
      case TObject(_, _) => ObjectReads(l, t, depth, rest);
      case TEmpty => EmptyReads(l, rest);
      case _ => PlainAtom(l, t, depth, rest);
    }
  }

  lemma GenericText(opening: string, text: string, rest: string)
    ensures opening + text + ">" + rest == opening + (text + (">" + rest))
  {
  }

  lemma EmptyReads(l: Literals, rest: string)
    ensures ReadPrimary(l, "{}" + rest) == Some((TEmpty, Skip(rest)))
  {
    var s := "{}" + rest;
    assert s[0] == '{' && s[1..][0] == '}' && s[1..][1..] == rest;
  }

  /** The text of a type at any depth, in front of anything that ends it, is read as the alternatives its operators
      group. */
  lemma {:induction false} RowsRead(l: Literals, t: Ty, depth: nat, rest: string)
    requires Faithful(l) && TextOk(t) && Ends(rest)
    ensures ReadRows(l, Print(l.str, t, depth) + rest) == After(l, Rows(t), rest)
    decreases t, 3
  {
    match t {
      case TUnion(arms) => UnionReads(l, arms, depth, rest);
      case TInter(parts) => InterReads(l, parts, depth, rest);
      case _ =>
        AtomReads(l, t, depth, rest);
        AtomRows(l, Print(l.str, t, depth) + rest, Atom(t), rest);
    }
  }

  lemma AtomRows(l: Literals, s: string, atom: Ty, rest: string)
    requires ReadPrimary(l, s) == Some((atom, Skip(rest)))
    ensures ReadRows(l, s) == After(l, [[atom]], rest)
  {
    SkipTwice(rest);
  }

  /** The printed text determines the type, up to grouping and comments. */
  lemma TextReads(l: Literals, t: Ty, depth: nat)
    requires Faithful(l) && TextOk(t)
    ensures ReadType(l, Print(l.str, t, depth)) == Some((ReadAs(t), ""))
  {
    RowsRead(l, t, depth, "");
    assert Print(l.str, t, depth) + "" == Print(l.str, t, depth);
  }
}
