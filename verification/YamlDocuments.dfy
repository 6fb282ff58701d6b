/** Writing documents of maps, lists, plain words, quoted text, text blocks, numbers, booleans and null in the canonical
    layout, and reading them back. What a document means does not mention the reader. */
module YamlDocuments {
  import opened Text
  import opened YamlReader
  import opened YamlComments
  import opened YamlRoundTrip
  import opened YamlScalars

  datatype DocField = DocField(key: string, value: Doc)

  /** `Absent` is a value left out; `Quoted` text stands in double quotes with escapes, `Verbatim` text in single quotes
      as it is; `Lines` are kept as lines, `Folded` ones become one line. */
  datatype Doc =
    | Null
    | Tilde
    | Absent
    | Flag(on: bool)
    | Number(negative: bool, whole: string, fraction: string)
    | Word(text: string)
    | Quoted(text: string)
    | Verbatim(text: string)
    | Lines(lines: seq<string>)
    | Folded(lines: seq<string>)
    | Map(fields: seq<DocField>)
    | List(items: seq<Doc>)

  // ---------- what a document means ----------

  function Meaning(d: Doc): Yaml {
    match d
    case Null => YNull
    case Tilde => YNull
    case Absent => YNull
    case Flag(on) => YBool(on)
    case Number(negative, whole, fraction) => YNum(NumberText(negative, whole, fraction))
    case Word(text) => YStr(text)
    case Quoted(text) => YStr(text)
    case Verbatim(text) => YStr(text)
    case Lines(lines) => YStr(Join(lines, "\n"))
    case Folded(lines) => YStr(OnOneLine(lines))
    case Map(fields) =>
      YMap(seq(|fields|, i requires 0 <= i < |fields| => Field(fields[i].key, Meaning(fields[i].value))))
    case List(items) => YSeq(seq(|items|, i requires 0 <= i < |items| => Meaning(items[i])))
  }

  // ---------- how it is written ----------

  function Written(d: Doc): Tree {
    match d
    case Null => Scalar("null")
    case Tilde => Scalar("~")
    case Absent => Nothing
    case Flag(on) => Scalar(if on then "true" else "false")
    case Number(negative, whole, fraction) => Scalar(NumberText(negative, whole, fraction))
    case Word(text) => Scalar(text)
    case Quoted(text) => Scalar(Quote(text))
    case Verbatim(text) => Scalar(Single(text))
    case Lines(lines) => Literal(false, lines)
    case Folded(lines) => Literal(true, lines)
    case Map(fields) =>
      Mapping(seq(|fields|, i requires 0 <= i < |fields| => Entry(fields[i].key, Written(fields[i].value))))
    case List(items) => Sequence(seq(|items|, i requires 0 <= i < |items| => Written(items[i])))
  }

  // ---------- which documents can be written ----------

  /** Documents with a canonical text. Text in double quotes may be anything, text in single quotes anything on one line
      without such a quote, and the lines of a text block anything without a comment. Lists hold no text blocks. */
  predicate Writable(d: Doc)
    decreases d, 1
  {
    match d
    case Number(_, whole, fraction) => NumberOk(whole, fraction)
    case Word(text) => WordOk(text)
    case Verbatim(text) => OneLine(text) && '\'' !in text
    case Lines(lines) => AllClean(lines)
    case Folded(lines) => AllClean(lines)
    case Map(_) => WritableMap(d)
    case List(items) => items != [] && forall x | x in items :: Writable(x) && !IsTextBlock(x)
    case _ => true
  }

  predicate IsTextBlock(d: Doc) {
    d.Lines? || d.Folded?
  }

  predicate WritableMap(d: Doc)
    requires d.Map?
    decreases d, 0
  {
    && d.fields != [] && (forall i, j | 0 <= i < j < |d.fields| :: d.fields[i].key != d.fields[j].key)
    && forall f | f in d.fields :: KeyOk(f.key) && Writable(f.value)
  }

  // ---------- which of them read back ----------

  predicate IsQuoted(d: Doc) {
    d.Quoted? || d.Verbatim?
  }

  /** Quoted text has no backslash before an `n` (nor, in single quotes, before a double quote), and no colon where it
      is an item of a list; folded lines have nothing to lose at their ends. */
  predicate Faithful(d: Doc)
    decreases d, 1
  {
    match d
    case Quoted(text) => !HasEscape(text)
    case Verbatim(text) => !HasEscape(text) && !HasPair(text, '\\', '"')
    case Folded(lines) => FoldsWhole(lines)
    case Map(fields) => forall f | f in fields :: Faithful(f.value)
    case List(items) => forall x | x in items :: FaithfulItem(x)
    case _ => true
  }

  predicate FaithfulItem(x: Doc)
    decreases x, 2
  {
    Faithful(x) && (IsQuoted(x) ==> ':' !in x.text)
  }

  // ---------- documents ----------

  /** What a written document needs: a layout, and texts that the comment scanner keeps. */
  predicate WellWritten(d: Doc) {
    var t := Written(d);
    EntryValueOk(t) && TextsOk(t, Clean) && (IsTextBlock(d) || ItemOk(t))
  }

  predicate IsScalar(d: Doc) {
    IsQuoted(d) || d.Null? || d.Tilde? || d.Flag? || d.Number? || d.Word?
  }

  predicate LeafReads(flow: Flow, d: Doc)
    requires IsScalar(d)
  {
    var text := Written(d).text;
    && LineOk(text) && text != "|" && text != ">-" && Clean(text)
    && (ParseScalar(flow, text) == Meaning(d) <==> Faithful(d))
    && (':' in text ==> IsQuoted(d) && ParseScalar(flow, text).YStr? && InQuotes(text))
    && (IsQuoted(d) ==> (':' in d.text <==> ':' in text))
  }

  lemma QuotedLeaf(flow: Flow, d: Doc)
    requires IsQuoted(d) && Writable(d)
    ensures LeafReads(flow, d) && Written(d).text[0] in {'"', '\''}
  {
    if d.Quoted? {
      QuotedClean(d.text);
      QuotedReads(flow, d.text);
    } else {
      SingleClean(d.text);
      SingleReads(flow, d.text);
    }
  }

  lemma PlainLeaf(flow: Flow, d: Doc)
    requires IsScalar(d) && !IsQuoted(d) && Writable(d)
    ensures LeafReads(flow, d) && ':' !in Written(d).text
  {
    if d.Number? {
      NumberIsLine(d.negative, d.whole, d.fraction);
      NumberReads(flow, d.negative, d.whole, d.fraction);
    } else if d.Word? {
      WordReads(flow, d.text);
    } else {
      KeywordReads(flow, Written(d).text);
    }
  }

  lemma ScalarIsWell(text: string)
    requires LineOk(text) && text != "|" && text != ">-" && Clean(text) && (InlineMap(text) ==> InQuotes(text))
    ensures var t := Scalar(text); EntryValueOk(t) && TextsOk(t, Clean) && ItemOk(t)
  {
  }

  lemma ScalarReads(flow: Flow, d: Doc)
    requires Writable(d) && IsScalar(d)
    ensures WellWritten(d) && LeafReads(flow, d)
    ensures InlineMap(Written(d).text) <==> IsQuoted(d) && ':' in d.text
  {
    if IsQuoted(d) {
      QuotedLeaf(flow, d);
    } else {
      PlainLeaf(flow, d);
      assert !InlineMap(Written(d).text);
    }
    ScalarIsWell(Written(d).text);
  }

  lemma Consed<T>(first: T, rest: seq<T>, whole: seq<T>)
    requires whole != []
    ensures [first] + rest == whole <==> first == whole[0] && rest == whole[1..]
    ensures [first] == whole ==> first == whole[0]
  {
    assert whole == [whole[0]] + whole[1..];
  }

  /** A field reads back exactly when its value does. */
  lemma {:induction false} EntriesEqual(flow: Flow, entries: seq<Entry>, fields: seq<Field>)
    requires |entries| == |fields| && forall i | 0 <= i < |entries| :: entries[i].key == fields[i].key
    requires forall i | 0 <= i < |entries| && !Recover(flow, entries[i].value).complete ::
      Recover(flow, entries[i].value).value != fields[i].value
    ensures var r := RecoverEntries(flow, entries);
      && (r.value == fields
          <==> forall i | 0 <= i < |entries| :: Recover(flow, entries[i].value).value == fields[i].value)
      && (!r.complete ==> r.value != fields)
  {
    if entries != [] {
      EntriesEqual(flow, entries[1..], fields[1..]);
      var first := Field(entries[0].key, Recover(flow, entries[0].value).value);
      Consed(first, RecoverEntries(flow, entries[1..]).value, fields);
      assert forall i | 0 < i < |entries| :: entries[i] == entries[1..][i - 1] && fields[i] == fields[1..][i - 1];
    }
  }

  lemma {:induction false} ItemsEqual(flow: Flow, items: seq<Tree>, values: seq<Yaml>)
    requires |items| == |values|
    requires forall i | 0 <= i < |items| && !RecoverItem(flow, items[i]).complete ::
      RecoverItem(flow, items[i]).value != values[i]
    ensures var r := RecoverItems(flow, items);
      && (r.value == values <==> forall i | 0 <= i < |items| :: RecoverItem(flow, items[i]).value == values[i])
      && (!r.complete ==> r.value != values)
  {
    if items != [] {
      ItemsEqual(flow, items[1..], values[1..]);
      Consed(RecoverItem(flow, items[0]).value, RecoverItems(flow, items[1..]).value, values);
      assert forall i | 0 < i < |items| :: items[i] == items[1..][i - 1] && values[i] == values[1..][i - 1];
    }
  }

  lemma CleanLines(lines: seq<string>)
    requires AllClean(lines)
    ensures forall l | l in lines :: LiteralLineOk(l)
  {
    forall l | l in lines && l != "" ensures LiteralLineOk(l) { CleanEnds(l); }
  }

  lemma MapWell(fields: seq<DocField>)
    requires Writable(Map(fields)) && forall f | f in fields :: WellWritten(f.value)
    ensures WellWritten(Map(fields))
  {
    assert forall i | 0 <= i < |fields| :: fields[i] in fields;
  }

  lemma ListWell(items: seq<Doc>)
    requires Writable(List(items)) && forall x | x in items :: WellWritten(x)
    ensures WellWritten(List(items))
  {
    assert forall i | 0 <= i < |items| :: items[i] in items;
  }

  /** Every writable document is written in the canonical layout. */
  lemma {:induction false} WrittenWell(d: Doc)
    requires Writable(d)
    ensures WellWritten(d)
    decreases d
  {
    match d {
      case Lines(lines) => CleanLines(lines);
      case Folded(lines) => CleanLines(lines);
      case Absent =>
      case Map(fields) =>
        forall f | f in fields ensures WellWritten(f.value) { WrittenWell(f.value); }
        MapWell(fields);
      case List(items) =>
        forall x | x in items ensures WellWritten(x) { WrittenWell(x); }
        ListWell(items);
      case _ => ScalarReads(_ => YNull, d);
    }
  }

  /** What is recovered of a written document is what it means exactly when the document is faithful, and then the
      reader gets to its end. */
  lemma {:induction false} WrittenMeans(flow: Flow, d: Doc)
    requires Writable(d)
    ensures var r := Recover(flow, Written(d));
      (r.value == Meaning(d) <==> Faithful(d)) && (!r.complete ==> !Faithful(d))
    decreases d, 1
  {
    if d.Map? {
      MapMeans(flow, d);
    } else if d.List? {
      ListMeans(flow, d);
    } else {
      LeafMeans(flow, d);
    }
  }

  lemma LeafMeans(flow: Flow, d: Doc)
    requires Writable(d) && !d.Map? && !d.List?
    ensures var r := Recover(flow, Written(d)); r.complete && (r.value == Meaning(d) <==> Faithful(d))
  {
    if IsScalar(d) {
      ScalarReads(flow, d);
    } else if d.Folded? {
      CleanLines(d.lines);
      FoldedReads(d.lines);
    }
  }

  lemma {:induction false} MapMeans(flow: Flow, d: Doc)
    requires d.Map? && Writable(d)
    ensures var r := Recover(flow, Written(d));
      (r.value == Meaning(d) <==> Faithful(d)) && (!r.complete ==> !Faithful(d))
    decreases d, 0
  {
    var entries, fields := Written(d).entries, Meaning(d).fields;
    forall i | 0 <= i < |entries|
      ensures var r := Recover(flow, entries[i].value);
        (r.value == fields[i].value <==> Faithful(d.fields[i].value)) && (!r.complete ==> r.value != fields[i].value)
    {
      assert d.fields[i] in d.fields;
      WrittenMeans(flow, d.fields[i].value);
    }
    EntriesEqual(flow, entries, fields);
    assert Faithful(d) <==> forall i | 0 <= i < |entries| :: Faithful(d.fields[i].value);
  }

  lemma {:induction false} ItemMeans(flow: Flow, x: Doc)
    requires Writable(x) && !IsTextBlock(x)
    ensures var r := RecoverItem(flow, Written(x));
      (r.value == Meaning(x) <==> FaithfulItem(x)) && (!r.complete ==> r.value != Meaning(x))
    decreases x, 2
  {
    WrittenMeans(flow, x);
    if IsScalar(x) { ScalarItemMeans(flow, x); }
  }

  lemma ScalarItemMeans(flow: Flow, x: Doc)
    requires Writable(x) && IsScalar(x)
    ensures var r := RecoverItem(flow, Written(x));
      (r.value == Meaning(x) <==> FaithfulItem(x)) && (!r.complete ==> r.value != Meaning(x))
  {
    ScalarReads(flow, x);
    if IsQuoted(x) && ':' in x.text {
      InlineIsMap(flow, Written(x).text);
      assert Meaning(x).YStr?;
    } else {
      assert RecoverItem(flow, Written(x)) == Recover(flow, Written(x));
    }
  }

  lemma InlineIsMap(flow: Flow, text: string)
    requires InlineMap(text)
    ensures RecoverItem(flow, Scalar(text)) == RecoverInline(flow, text) && RecoverInline(flow, text).value.YMap?
  {
  }

  lemma {:induction false} ListMeans(flow: Flow, d: Doc)
    requires d.List? && Writable(d)
    ensures var r := Recover(flow, Written(d));
      (r.value == Meaning(d) <==> Faithful(d)) && (!r.complete ==> !Faithful(d))
    decreases d, 0
  {
    var items, values := Written(d).items, Meaning(d).items;
    forall i | 0 <= i < |items|
      ensures var r := RecoverItem(flow, items[i]);
        (r.value == values[i] <==> FaithfulItem(d.items[i])) && (!r.complete ==> r.value != values[i])
    {
      assert d.items[i] in d.items;
      ItemMeans(flow, d.items[i]);
    }
    ItemsEqual(flow, items, values);
    assert Faithful(d) <==> forall i | 0 <= i < |items| :: FaithfulItem(d.items[i]);
  }

  /** Parsing the canonical text of a document yields what it means exactly when no quoted text in it has a backslash
      before an `n` (or, in single quotes, a double quote), none that is an item of a list has a colon, and folded lines
      have nothing to lose at their ends; whatever the flow-style reader does. */
  lemma DocumentRoundTrip(flow: Flow, d: Doc)
    requires Writable(d) && (d.Map? || d.List?)
    ensures ParseYaml(flow, Join(Layout(Written(d), 0), "\n")) == Meaning(d) <==> Faithful(d)
  {
    WrittenMeans(flow, d);
    WrittenWell(d);
    ParseYamlRoundTrip(flow, Written(d));
  }

  /** Two faithful documents with the same text mean the same. */
  lemma WritingIsInjective(d: Doc, e: Doc)
    requires Writable(d) && Writable(e) && Faithful(d) && Faithful(e) && (d.Map? || d.List?) && (e.Map? || e.List?)
    requires Join(Layout(Written(d), 0), "\n") == Join(Layout(Written(e), 0), "\n")
    ensures Meaning(d) == Meaning(e)
  {
    var flow: Flow := _ => YNull;
    DocumentRoundTrip(flow, d);
    DocumentRoundTrip(flow, e);
  }

  // ---------- a scalar on its own ----------

  /** A line that is no item and has no colon is a scalar where a block is expected. */
  lemma LoneScalarReads(flow: Flow, text: string, n: nat, parent: int, rest: seq<string>)
    requires LineOk(text) && ':' !in text && !IsItem(text) && parent < n
    ensures ParseBlock(flow, [Spaces(n) + text] + rest, parent) == (ParseScalar(flow, text), rest)
  {
    PaddedLine(n, text);
    var all := [Spaces(n) + text] + rest;
    assert all[0] == Spaces(n) + text && all[1..] == rest;
  }

  /** A text that is one such line, without a comment, is a document. */
  lemma LoneScalarParses(flow: Flow, text: string)
    requires LineOk(text) && Clean(text) && ':' !in text && !IsItem(text)
    ensures var v := ParseScalar(flow, text); ParseYaml(flow, text) == if v == YNull then YMap([]) else v
  {
    SplitOneLine(text);
    assert StripAll([text]) == [text];
    assert Spaces(0) + text == text && [text] + [] == [text];
    LoneScalarReads(flow, text, 0, -1, []);
  }

  lemma NoItem(text: string)
    requires text != "" && (text[0] != '-' || (|text| >= 2 && text[1] != ' '))
    ensures !IsItem(text)
  {
    if |text| >= 2 { assert text[..2][0] == text[0] && text[..2][1] == text[1]; }
  }

  lemma ScalarIsNoItem(d: Doc)
    requires Writable(d) && IsScalar(d)
    ensures !IsItem(Written(d).text)
  {
    if IsQuoted(d) {
      QuotedLeaf(_ => YNull, d);
    } else if d.Number? {
      NumberStarts(d.negative, d.whole, d.fraction);
    }
    NoItem(Written(d).text);
  }

  /** A document that is one scalar without a colon: null is read as an empty map. */
  lemma ScalarDocument(flow: Flow, d: Doc)
    requires Writable(d) && IsScalar(d) && ':' !in Written(d).text
    ensures var value := if Meaning(d) == YNull then YMap([]) else Meaning(d);
      ParseYaml(flow, Written(d).text) == value <==> Faithful(d)
  {
    var text := Written(d).text;
    ScalarReads(flow, d);
    ScalarIsNoItem(d);
    LoneScalarParses(flow, text);
  }

  /** Text in braces or brackets goes to the flow-style reader as it stands. */
  lemma FlowReads(flow: Flow, text: string)
    requires Trimmed(text) && (Wrapped(text, '{', '}') || Wrapped(text, '[', ']'))
    ensures ParseScalar(flow, text) == flow(text)
  {
    TrimTrimmed(text);
    NoNumber(text);
  }

  // ---------- a list item with a colon ----------

  lemma {:induction false} NoColonInside(s: string, i: nat)
    requires 0 < i < |s| && s[|s| - 1] == '"' && forall j | i <= j < |s| - 1 :: s[j] != '"'
    ensures FindColonFrom(s, i, "\"") == -1
    decreases |s| - i
  {
    if i < |s| - 1 { NoColonInside(s, i + 1); }
  }

  lemma {:induction false} NoQuotes(s: string)
    requires '"' !in s
    ensures EscapeQuotes(s) == s
  {
    if s != "" { NoQuotes(s[1..]); }
  }

  lemma NoColonFound(s: string)
    requires '"' !in s
    ensures FindColon(Quote(s)) == -1
  {
    var q := Quote(s);
    EscapedNewlines(s);
    NoQuotes(EscapeNewlines(s));
    forall j | 1 <= j < |q| - 1 ensures q[j] != '"' { assert q[j] in EscapeNewlines(s); }
    NoColonInside(q, 1);
  }

  /** An item of quoted text with a colon and no quote becomes a mapping without fields, and the line put in front of
      the unread ones stays there, so that everything behind the item is dropped. */
  lemma ColonItemStops(flow: Flow, s: string, n: nat, acc: seq<Yaml>, rest: seq<string>)
    requires ':' in s && '"' !in s && Closed(rest, n + 2)
    ensures ParseItems(flow, LayoutItem(Scalar(Quote(s)), n) + rest, n, acc)
         == (acc + [YMap([])], [FakeLine(n, Quote(s))] + rest)
  {
    var q := Quote(s);
    QuotedReads(flow, s);
    NoColonFound(s);
    assert q[0] == '"' && ItemOk(Scalar(q));
    InlineStops(flow, Scalar(q), n, acc, rest);
  }

  // ---------- comments ----------

  /** No text leaves a quote open. */
  predicate LeavesNoneOpen(d: Doc)
    decreases d
  {
    match d
    case Quoted(text) => text == "" || text[|text| - 1] != '\\'
    case Verbatim(text) => text == "" || text[|text| - 1] != '\\'
    case Lines(lines) => forall l | l in lines :: Balanced(l)
    case Folded(lines) => forall l | l in lines :: Balanced(l)
    case Map(fields) => forall f | f in fields :: LeavesNoneOpen(f.value)
    case List(items) => forall x | x in items :: LeavesNoneOpen(x)
    case _ => true
  }

  lemma {:induction false} WrittenBalanced(flow: Flow, d: Doc)
    requires Writable(d) && LeavesNoneOpen(d)
    ensures TextsOk(Written(d), Balanced)
    decreases d
  {
    if d.Map? {
      forall i | 0 <= i < |d.fields| ensures TextsOk(Written(d).entries[i].value, Balanced) {
        assert d.fields[i] in d.fields;
        WrittenBalanced(flow, d.fields[i].value);
      }
    } else if d.List? {
      forall i | 0 <= i < |d.items| ensures TextsOk(Written(d).items[i], Balanced) {
        assert d.items[i] in d.items;
        WrittenBalanced(flow, d.items[i]);
      }
    } else if IsScalar(d) {
      ScalarBalanced(flow, d);
    }
  }

  lemma ScalarBalanced(flow: Flow, d: Doc)
    requires Writable(d) && LeavesNoneOpen(d) && IsScalar(d)
    ensures Balanced(Written(d).text)
  {
    if d.Number? {
      NumberIsLine(d.negative, d.whole, d.fraction);
    } else if d.Word? {
      WordReads(flow, d.text);
    } else if d.Quoted? {
      QuotedClean(d.text);
    } else if d.Verbatim? {
      SingleClean(d.text);
    } else {
      KeywordReads(flow, Written(d).text);
    }
  }

  /** Comments behind any lines of the canonical text of a document change nothing, faithful or not. */
  lemma DocumentComments(flow: Flow, d: Doc, commented: seq<string>)
    requires Writable(d) && LeavesNoneOpen(d) && (d.Map? || d.List?) && |commented| == |Layout(Written(d), 0)|
    requires forall i | 0 <= i < |commented| :: Commented(Layout(Written(d), 0)[i], commented[i])
    ensures ParseYaml(flow, Join(commented, "\n")) == ParseYaml(flow, Join(Layout(Written(d), 0), "\n"))
  {
    var t := Written(d);
    var lines := Layout(t, 0);
    WrittenWell(d);
    StripLayout(t);
    WrittenBalanced(flow, d);
    LayoutBuilt(Balanced, t, 0);
    forall l | l in lines ensures Balanced(l) { BuiltBalanced(l); }
    CommentsIgnored(flow, lines, commented);
  }
}
