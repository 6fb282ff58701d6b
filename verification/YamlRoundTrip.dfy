/** What the reader makes of the canonical block layout of a document tree. */
module YamlRoundTrip {
  import opened Wrappers
  import opened Sequences
  import opened Text
  import opened YamlReader
  import opened YamlComments

  datatype Entry = Entry(key: string, value: Tree)

  /** A document: scalars by their text, text blocks by their lines, mappings and sequences; nothing where a value is
      left out. */
  datatype Tree =
    | Scalar(text: string)
    | Literal(folded: bool, lines: seq<string>)
    | Nothing
    | Mapping(entries: seq<Entry>)
    | Sequence(items: seq<Tree>)

  // ---------- which trees have a canonical layout ----------

  predicate PlainKeyChar(c: char) {
    'a' <= c <= 'z' || 'A' <= c <= 'Z' || '0' <= c <= '9' || c == '_' || c == '-' || c == '.' || c == '/'
  }

  /** Keys start with a letter, so none is an array index or `__proto__`. */
  predicate KeyOk(key: string) {
    key != "" && ('a' <= key[0] <= 'z' || 'A' <= key[0] <= 'Z') && forall c | c in key :: PlainKeyChar(c)
  }

  predicate LineOk(text: string) {
    text != "" && Trimmed(text)
  }

  /** Scalar text as the value of a key: anything that is not a block marker. */
  predicate ValueTextOk(text: string) {
    LineOk(text) && text != "|" && text != ">-"
  }

  predicate InQuotes(text: string) {
    |text| >= 2 && (Wrapped(text, '"', '"') || Wrapped(text, '\'', '\''))
  }

  /** Scalar text as a sequence item: only quoted text may look like an inline mapping. */
  predicate ItemTextOk(text: string) {
    LineOk(text) && (InlineMap(text) ==> InQuotes(text))
  }

  /** A line of a text block: empty, or anything without white space at its end. */
  predicate LiteralLineOk(l: string) {
    l == "" || !IsSpace(l[|l| - 1])
  }

  predicate KeysDistinct(entries: seq<Entry>) {
    forall i, j | 0 <= i < j < |entries| :: entries[i].key != entries[j].key
  }

  predicate IsBlock(t: Tree) {
    t.Mapping? || t.Sequence?
  }

  predicate BlockOk(t: Tree)
    requires IsBlock(t)
    decreases t, 0
  {
    match t
    case Mapping(entries) =>
      entries != [] && KeysDistinct(entries) && forall e | e in entries :: KeyOk(e.key) && EntryValueOk(e.value)
    case Sequence(items) => items != [] && forall x | x in items :: ItemOk(x)
  }

  predicate EntryValueOk(t: Tree)
    decreases t, 1
  {
    match t
    case Scalar(text) => ValueTextOk(text)
    case Literal(_, lines) => forall l | l in lines :: LiteralLineOk(l)
    case Nothing => true
    case _ => BlockOk(t)
  }

  predicate ItemOk(t: Tree)
    decreases t, 1
  {
    match t
    case Scalar(text) => ItemTextOk(text)
    case Literal(_, _) => false
    case Nothing => true
    case _ => BlockOk(t)
  }

  // ---------- what is recovered from a layout ----------

  /** A value and whether the reader got to the end of its layout. */
  datatype Recovered<V> = Recovered(value: V, complete: bool)

  function Recover(flow: Flow, t: Tree): Recovered<Yaml>
    decreases t, 0
  {
    match t
    case Scalar(text) => Recovered(ParseScalar(flow, text), true)
    case Literal(folded, lines) => Recovered(YStr(if folded then Trim(Join(lines, " ")) else Join(lines, "\n")), true)
    case Nothing => Recovered(YNull, true)
    case Mapping(entries) => var r := RecoverEntries(flow, entries); Recovered(YMap(r.value), r.complete)
    case Sequence(items) => var r := RecoverItems(flow, items); Recovered(YSeq(r.value), r.complete)
  }

  /** Entries up to the first that is not read to its end. */
  function RecoverEntries(flow: Flow, entries: seq<Entry>): Recovered<seq<Field>>
    decreases entries, 0
  {
    if entries == [] then Recovered([], true)
    else
      var r := Recover(flow, entries[0].value);
      var f := Field(entries[0].key, r.value);
      if !r.complete then Recovered([f], false)
      else var more := RecoverEntries(flow, entries[1..]); Recovered([f] + more.value, more.complete)
  }

  function RecoverItems(flow: Flow, items: seq<Tree>): Recovered<seq<Yaml>>
    decreases items, 0
  {
    if items == [] then Recovered([], true)
    else
      var r := RecoverItem(flow, items[0]);
      if !r.complete then Recovered([r.value], false)
      else var more := RecoverItems(flow, items[1..]); Recovered([r.value] + more.value, more.complete)
  }

  function RecoverItem(flow: Flow, x: Tree): Recovered<Yaml>
    decreases x, 1
  {
    if x.Scalar? && InlineMap(x.text) then RecoverInline(flow, x.text) else Recover(flow, x)
  }

  /** Quoted text with a colon is taken for a mapping: with no fields if the colon counts as quoted, and then the reader
      stops in front of the text; with one field otherwise. */
  function RecoverInline(flow: Flow, text: string): Recovered<Yaml> {
    var colon := FindColon(text);
    if colon == -1 then Recovered(YMap([]), false)
    else Recovered(YMap([Field(Trim(text[..colon]), ParseScalar(flow, Trim(text[colon + 1..])))]), true)
  }

  // ---------- its canonical layout ----------

  function Pad(line: string, n: nat): string {
    if line == "" then "" else Spaces(n) + line
  }

  function PadAll(lines: seq<string>, n: nat): seq<string> {
    if lines == [] then [] else [Pad(lines[0], n)] + PadAll(lines[1..], n)
  }

  function Layout(t: Tree, n: nat): seq<string>
    requires IsBlock(t)
    decreases t, 3
  {
    match t
    case Mapping(entries) => LayoutEntries(entries, n)
    case Sequence(items) => LayoutItems(items, n)
  }

  function LayoutEntries(entries: seq<Entry>, n: nat): seq<string>
    decreases entries, 0
  {
    if entries == [] then [] else LayoutEntry(entries[0], n) + LayoutEntries(entries[1..], n)
  }

  function LayoutEntry(e: Entry, n: nat): (r: seq<string>)
    ensures r != []
    decreases e, 1
  {
    [Spaces(n) + EntryHead(e)] + EntryBody(e, n)
  }

  /** The first line of an entry, without its indentation. */
  function EntryHead(e: Entry): string {
    match e.value
    case Scalar(text) => e.key + ": " + text
    case Literal(folded, _) => e.key + ": " + Marker(folded)
    case _ => e.key + ":"
  }

  function Marker(folded: bool): string {
    if folded then ">-" else "|"
  }

  function EntryBody(e: Entry, n: nat): seq<string>
    decreases e, 0
  {
    match e.value
    case Scalar(_) => []
    case Literal(_, lines) => PadAll(lines, n + 2)
    case Nothing => []
    case _ => Layout(e.value, n + 2)
  }

  function LayoutItems(items: seq<Tree>, n: nat): seq<string>
    decreases items, 0
  {
    if items == [] then [] else LayoutItem(items[0], n) + LayoutItems(items[1..], n)
  }

  /** A mapping inside a sequence shares its first line with the dash. */
  function LayoutItem(t: Tree, n: nat): (r: seq<string>)
    ensures r != []
    decreases t, 2
  {
    match t
    case Scalar(text) => [Spaces(n) + "- " + text]
    case Literal(_, _) => [Spaces(n) + "-"]
    case Nothing => [Spaces(n) + "-"]
    case Mapping(entries) =>
      if entries == [] then [Spaces(n) + "-"]
      else
        [Spaces(n) + "- " + EntryHead(entries[0])] + EntryBody(entries[0], n + 2) + LayoutEntries(entries[1..], n + 2)
    case Sequence(items) => [Spaces(n) + "-"] + LayoutItems(items, n + 2)
  }

  /** What follows a block laid out at indentation `n`: nothing, or a line further left. */
  predicate Closed(tail: seq<string>, n: nat) {
    tail == [] || (!Blank(tail[0]) && IndentOf(tail[0]) < n)
  }

  /** What ends the mapping loop at indentation `n`: nothing, a line further left, or one that is no field. */
  predicate EndsFields(tail: seq<string>, n: nat) {
    tail == [] || (!Blank(tail[0]) && IndentOf(tail[0]) <= n && FieldHead(tail[0], n).None?)
  }

  /** What ends the sequence loop. */
  predicate EndsItems(tail: seq<string>, n: nat) {
    tail == [] || (!Blank(tail[0]) && IndentOf(tail[0]) <= n && !(IndentOf(tail[0]) == n && StartsDash(Trim(tail[0]))))
  }

  /** The next line is indented deeper, so that no loop that has read up to here goes on. */
  predicate Stuck(left: seq<string>, n: nat) {
    left != [] && !Blank(left[0]) && IndentOf(left[0]) > n
  }

  predicate EndsBlock(t: Tree, tail: seq<string>, n: nat) {
    if t.Mapping? then EndsFields(tail, n) else EndsItems(tail, n)
  }

  // ---------- single lines ----------

  lemma {:induction false} IndentOfPad(n: nat, t: string)
    requires t != "" && t[0] != ' '
    ensures IndentOf(Spaces(n) + t) == n
  {
    if n > 0 {
      assert (Spaces(n) + t)[1..] == Spaces(n - 1) + t;
      IndentOfPad(n - 1, t);
    } else {
      assert Spaces(0) + t == t;
    }
  }

  /** An indented line reads back as its indentation and its text. */
  lemma PaddedLine(n: nat, t: string)
    requires t != "" && Trimmed(t)
    ensures Trim(Spaces(n) + t) == t && IndentOf(Spaces(n) + t) == n && !Blank(Spaces(n) + t)
  {
    TrimPad(n, t);
    IndentOfPad(n, t);
  }

  lemma {:induction false} ColonAfterKey(s: string, i: nat, k: nat)
    requires i <= k < |s| && s[k] == ':'
    requires forall j | i <= j < k :: PlainKeyChar(s[j])
    ensures FindColonFrom(s, i, "") == k
    decreases k - i
  {
    if i < k {
      ColonAfterKey(s, i + 1, k);
    }
  }

  /** The text of an entry's value on its head line. */
  function ValueText(e: Entry): string {
    match e.value
    case Scalar(text) => text
    case Literal(folded, _) => Marker(folded)
    case _ => ""
  }

  lemma HeadIsKeyed(e: Entry)
    ensures e.value.Scalar? || ValueText(e) != "" ==> EntryHead(e) == e.key + ":" + (" " + ValueText(e))
    ensures !e.value.Scalar? && ValueText(e) == "" ==> EntryHead(e) == e.key + ":"
  {
  }

  lemma KeyReads(key: string, rest: string)
    requires KeyOk(key)
    ensures var t := key + ":" + rest;
      && !IsItem(t) && ':' in t && t[0] != '{' && t[0] != '[' && t[0] == key[0] && !IsSpace(t[0])
      && FindColon(t) == |key| && Trim(t[..|key|]) == key && t[|key| + 1..] == rest
  {
    var t := key + ":" + rest;
    var k := |key|;
    forall j | 0 <= j < k ensures PlainKeyChar(t[j]) {
      assert t[j] == key[j] && key[j] in key;
    }
    assert t[k] == ':';
    ColonAfterKey(t, 0, k);
    assert t[..k] == key;
    assert key[k - 1] in key;
    TrimTrimmed(key);
  }

  lemma ValueTextTrimmed(e: Entry)
    requires EntryValueOk(e.value)
    ensures Trimmed(ValueText(e)) && (e.value.Scalar? ==> ValueText(e) != "")
  {
  }

  lemma KeyedLine(key: string, text: string)
    requires KeyOk(key) && Trimmed(text) && text != ""
    ensures var t := key + ":" + (" " + text);
      && t != "" && Trimmed(t) && !IsItem(t) && ':' in t && t[0] != '{' && t[0] != '['
      && FindColon(t) == |key| && Trim(t[..|key|]) == key && Trim(t[|key| + 1..]) == text
  {
    var rest := " " + text;
    KeyReads(key, rest);
    assert rest == Spaces(1) + text;
    TrimPad(1, text);
    assert (key + ":" + rest)[|key| + 1 + |text|] == text[|text| - 1];
  }

  /** The head line of an entry splits into its key and the text of its value. */
  lemma EntryHeadReads(e: Entry)
    requires KeyOk(e.key) && EntryValueOk(e.value)
    ensures var t := EntryHead(e);
      && t != "" && Trimmed(t) && !IsItem(t) && ':' in t && t[0] != '{' && t[0] != '['
      && FindColon(t) == |e.key| && Trim(t[..|e.key|]) == e.key && Trim(t[|e.key| + 1..]) == ValueText(e)
  {
    HeadIsKeyed(e);
    ValueTextTrimmed(e);
    if ValueText(e) == "" {
      KeyReads(e.key, "");
      assert e.key + ":" + "" == e.key + ":";
    } else {
      KeyedLine(e.key, ValueText(e));
    }
  }

  lemma HeadIsClosed(e: Entry, n: nat, m: nat, more: seq<string>)
    requires KeyOk(e.key) && EntryValueOk(e.value) && n < m
    ensures Closed(LayoutEntry(e, n) + more, m)
  {
    EntryHeadReads(e);
    PaddedLine(n, EntryHead(e));
  }

  /** The line a sequence item starts with. */
  function ItemHead(t: Tree): string {
    match t
    case Scalar(text) => "- " + text
    case Mapping(entries) => if entries == [] then "-" else "- " + EntryHead(entries[0])
    case _ => "-"
  }

  function ItemAfterDash(t: Tree): string {
    match t
    case Scalar(text) => text
    case Mapping(entries) => if entries == [] then "" else EntryHead(entries[0])
    case _ => ""
  }

  lemma DashReads(a: string, n: nat)
    requires Trimmed(a)
    ensures var line := Spaces(n) + (if a == "" then "-" else "- " + a);
      && !Blank(line) && IndentOf(line) == n && IsItem(Trim(line)) && StartsDash(Trim(line)) && AfterDash(line) == a
  {
    var head := if a == "" then "-" else "- " + a;
    if a != "" {
      assert head[|head| - 1] == a[|a| - 1] && head[..2] == "- ";
      assert head[1..] == Spaces(1) + a;
      TrimPad(1, a);
    } else {
      assert head[1..] == "";
    }
    PaddedLine(n, head);
  }

  lemma ItemHeadIs(t: Tree, n: nat)
    requires ItemOk(t)
    ensures Trimmed(ItemAfterDash(t))
    ensures ItemHead(t) == if ItemAfterDash(t) == "" then "-" else "- " + ItemAfterDash(t)
    ensures LayoutItem(t, n)[0] == Spaces(n) + ItemHead(t)
  {
    var a := ItemAfterDash(t);
    if t.Mapping? {
      assert t.entries[0] in t.entries;
      EntryHeadReads(t.entries[0]);
    }
    assert Spaces(n) + "- " + a == Spaces(n) + ("- " + a);
  }

  lemma ItemHeadReads(t: Tree, n: nat)
    requires ItemOk(t)
    ensures var line := Spaces(n) + ItemHead(t);
      && LayoutItem(t, n)[0] == line && !Blank(line) && IndentOf(line) == n
      && IsItem(Trim(line)) && StartsDash(Trim(line)) && AfterDash(line) == ItemAfterDash(t)
  {
    ItemHeadIs(t, n);
    DashReads(ItemAfterDash(t), n);
  }

  lemma ItemsAreClosed(items: seq<Tree>, n: nat, m: nat, tail: seq<string>)
    requires forall x | x in items :: ItemOk(x)
    requires n < m && Closed(tail, m)
    ensures Closed(LayoutItems(items, n) + tail, m)
  {
    if items == [] {
      assert LayoutItems(items, n) + tail == tail;
    } else {
      assert items[0] in items;
      ItemHeadReads(items[0], n);
    }
  }

  lemma EntriesAreClosed(entries: seq<Entry>, n: nat, m: nat, tail: seq<string>)
    requires forall e | e in entries :: KeyOk(e.key) && EntryValueOk(e.value)
    requires n < m && Closed(tail, m)
    ensures Closed(LayoutEntries(entries, n) + tail, m)
  {
    if entries == [] {
      assert LayoutEntries(entries, n) + tail == tail;
    } else {
      assert entries[0] in entries;
      HeadIsClosed(entries[0], n, m, LayoutEntries(entries[1..], n) + tail);
      Regroup(LayoutEntry(entries[0], n), LayoutEntries(entries[1..], n), tail);
    }
  }

  // ---------- literal blocks ----------

  lemma {:induction false} EndsDark(s: string)
    requires s != "" && !IsSpace(s[|s| - 1])
    ensures TrimStart(s) != ""
  {
    if IsSpace(s[0]) { EndsDark(s[1..]); }
  }

  lemma {:induction false} IndentAtLeast(n: nat, t: string)
    ensures IndentOf(Spaces(n) + t) >= n
  {
    if n > 0 {
      assert (Spaces(n) + t)[1..] == Spaces(n - 1) + t;
      IndentAtLeast(n - 1, t);
    }
  }

  /** One literal line. */
  lemma LiteralLine(text: string, n: nat, blk: seq<string>, rest: seq<string>)
    requires LiteralLineOk(text)
    ensures BlockLines([Pad(text, n + 2)] + rest, n, blk) == BlockLines(rest, n, blk + [text])
  {
    var line := Pad(text, n + 2);
    assert ([line] + rest)[1..] == rest;
    if text != "" {
      assert line[|line| - 1] == text[|text| - 1];
      EndsDark(line);
      IndentAtLeast(n + 2, text);
      assert SliceFrom(line, n + 2) == text;
    }
  }

  /** A literal block reads back line by line, inner indentation and empty lines included. */
  lemma {:induction false} LiteralReads(lines: seq<string>, n: nat, blk: seq<string>, tail: seq<string>)
    requires forall l | l in lines :: LiteralLineOk(l)
    requires Closed(tail, n + 1)
    ensures BlockLines(PadAll(lines, n + 2) + tail, n, blk) == (blk + lines, tail)
  {
    if lines == [] {
      assert PadAll(lines, n + 2) + tail == tail && blk + lines == blk;
    } else {
      assert lines[0] in lines;
      Regroup([Pad(lines[0], n + 2)], PadAll(lines[1..], n + 2), tail);
      LiteralLine(lines[0], n, blk, PadAll(lines[1..], n + 2) + tail);
      LiteralReads(lines[1..], n, blk + [lines[0]], tail);
      Regroup(blk, [lines[0]], lines[1..]);
      assert lines == [lines[0]] + lines[1..];
    }
  }

  lemma StripPad(l: string, n: nat)
    ensures StripComment(Pad(l, n)) == Pad(StripComment(l), n)
  {
    if l != "" {
      BehindQuiet(Spaces(n), l);
      PadTrims(StripFrom(l, 0, ""), n);
    }
  }

  lemma {:induction false} PadTrims(s: string, n: nat)
    ensures TrimEnd(Spaces(n) + s) == Pad(TrimEnd(s), n)
    decreases |s|
  {
    var l := Spaces(n) + s;
    if s == "" {
      assert l == Spaces(n);
      TrimEndSpaces(n);
    } else {
      assert l[|l| - 1] == s[|s| - 1] && l[..|l| - 1] == Spaces(n) + s[..|s| - 1];
      if IsSpace(s[|s| - 1]) { PadTrims(s[..|s| - 1], n); }
    }
  }

  lemma {:induction false} StripPadAll(lines: seq<string>, n: nat)
    ensures StripAll(PadAll(lines, n)) == PadAll(StripAll(lines), n)
  {
    if lines != [] {
      StripPad(lines[0], n);
      StripPadAll(lines[1..], n);
      assert StripAll(lines) == [StripComment(lines[0])] + StripAll(lines[1..]);
      StripConcat([Pad(lines[0], n)], PadAll(lines[1..], n));
    }
  }

  /** Any lines written as a literal block read back without their comments and the white space at their ends, so they
      read back as they are exactly when the comment scanner keeps every one of them. */
  lemma LiteralExact(lines: seq<string>, n: nat, tail: seq<string>)
    requires Closed(tail, n + 1)
    ensures BlockLines(StripAll(PadAll(lines, n + 2)) + tail, n, []) == (StripAll(lines), tail)
    ensures StripAll(lines) == lines <==> forall l | l in lines :: StripComment(l) == l
  {
    var kept := StripAll(lines);
    StripPadAll(lines, n + 2);
    LiteralReads(kept, n, [], tail);
    assert [] + kept == kept;
    if kept == lines {
      forall l | l in lines ensures StripComment(l) == l { var i :| 0 <= i < |lines| && lines[i] == l; }
    }
  }

  // ---------- blocks ----------

  predicate Fresh(key: string, fields: seq<Field>) {
    forall f | f in fields :: f.key != key
  }

  lemma {:induction false} MapSetFresh(fields: seq<Field>, key: string, v: Yaml)
    requires Fresh(key, fields)
    ensures MapSet(fields, key, v) == fields + [Field(key, v)]
  {
    if fields != [] {
      MapSetFresh(fields[1..], key, v);
    }
  }

  /** What a block is depends on its first line. */
  lemma StartsMapping(flow: Flow, all: seq<string>, n: nat, parent: int)
    requires all != [] && !Blank(all[0]) && IndentOf(all[0]) == n && parent < n
    requires !IsItem(Trim(all[0])) && ':' in Trim(all[0])
    ensures var (fields, left) := ParseFields(flow, all, n, []); ParseBlock(flow, all, parent) == (YMap(fields), left)
  {
  }

  lemma StartsSequence(flow: Flow, all: seq<string>, n: nat, parent: int)
    requires all != [] && !Blank(all[0]) && IndentOf(all[0]) == n && parent < n && IsItem(Trim(all[0]))
    ensures var (items, left) := ParseItems(flow, all, n, []); ParseBlock(flow, all, parent) == (YSeq(items), left)
  {
  }

  lemma FirstOfMapping(entries: seq<Entry>, n: nat, tail: seq<string>)
    requires entries != [] && KeyOk(entries[0].key) && EntryValueOk(entries[0].value)
    ensures var all := LayoutEntries(entries, n) + tail;
      all != [] && !Blank(all[0]) && IndentOf(all[0]) == n && !IsItem(Trim(all[0])) && ':' in Trim(all[0])
  {
    EntryHeadReads(entries[0]);
    PaddedLine(n, EntryHead(entries[0]));
    assert (LayoutEntries(entries, n) + tail)[0] == Spaces(n) + EntryHead(entries[0]);
  }

  lemma FirstOfSequence(items: seq<Tree>, n: nat, tail: seq<string>)
    requires items != [] && ItemOk(items[0])
    ensures var all := LayoutItems(items, n) + tail;
      all != [] && !Blank(all[0]) && IndentOf(all[0]) == n && IsItem(Trim(all[0]))
  {
    ItemHeadReads(items[0], n);
    assert (LayoutItems(items, n) + tail)[0] == LayoutItem(items[0], n)[0];
  }

  /** Loops that meet a deeper line return at once. */
  lemma StuckItems(flow: Flow, left: seq<string>, n: nat, acc: seq<Yaml>)
    requires Stuck(left, n)
    ensures ParseItems(flow, left, n, acc) == (acc, left)
  {
  }

  lemma StuckFields(flow: Flow, left: seq<string>, n: nat, acc: seq<Field>)
    requires Stuck(left, n)
    ensures ParseFields(flow, left, n, acc) == (acc, left)
  {
  }

  lemma ClosedFields(flow: Flow, rest: seq<string>, n: nat, acc: seq<Field>)
    requires Closed(rest, n)
    ensures ParseFields(flow, rest, n, acc) == (acc, rest)
  {
  }

  /** What a call leaves: all of the tail when it got there, or lines that stop every enclosing loop. */
  predicate Leaves<V(==)>(r: (V, seq<string>), expected: Recovered<V>, tail: seq<string>, n: nat) {
    r.0 == expected.value && if expected.complete then r.1 == tail else Stuck(r.1, n)
  }

  /** The same for a loop that adds to what it has. */
  predicate Adds<E(==)>(
    r: (seq<E>, seq<string>), acc: seq<E>, expected: Recovered<seq<E>>, tail: seq<string>, n: nat)
  {
    r.0 == acc + expected.value && if expected.complete then r.1 == tail else Stuck(r.1, n)
  }

  lemma AddsToNothing<E>(r: (seq<E>, seq<string>), expected: Recovered<seq<E>>, tail: seq<string>, n: nat)
    requires Adds(r, [], expected, tail, n)
    ensures Leaves(r, expected, tail, n)
  {
    assert [] + expected.value == expected.value;
  }

  lemma {:induction false} MappingRoundTrip(flow: Flow, t: Tree, n: nat, parent: int, tail: seq<string>)
    requires t.Mapping? && BlockOk(t) && parent < n && EndsFields(tail, n)
    ensures Leaves(ParseBlock(flow, Layout(t, n) + tail, parent), Recover(flow, t), tail, n)
    decreases t, 0
  {
    var all := LayoutEntries(t.entries, n) + tail;
    assert t.entries[0] in t.entries;
    FirstOfMapping(t.entries, n, tail);
    StartsMapping(flow, all, n, parent);
    EntriesRoundTrip(flow, t.entries, n, [], tail);
    AddsToNothing(ParseFields(flow, all, n, []), RecoverEntries(flow, t.entries), tail, n);
  }

  lemma {:induction false} SequenceRoundTrip(flow: Flow, t: Tree, n: nat, parent: int, tail: seq<string>)
    requires t.Sequence? && BlockOk(t) && parent < n && EndsItems(tail, n)
    ensures Leaves(ParseBlock(flow, Layout(t, n) + tail, parent), Recover(flow, t), tail, n)
    decreases t, 0
  {
    var all := LayoutItems(t.items, n) + tail;
    assert t.items[0] in t.items;
    FirstOfSequence(t.items, n, tail);
    StartsSequence(flow, all, n, parent);
    ItemsRoundTrip(flow, t.items, n, [], tail);
    AddsToNothing(ParseItems(flow, all, n, []), RecoverItems(flow, t.items), tail, n);
  }

  /** Reading a laid-out block recovers its value and stops exactly behind it, or inside it. */
  lemma {:induction false} BlockRoundTrip(flow: Flow, t: Tree, n: nat, parent: int, tail: seq<string>)
    requires IsBlock(t) && BlockOk(t) && parent < n && EndsBlock(t, tail, n)
    ensures Leaves(ParseBlock(flow, Layout(t, n) + tail, parent), Recover(flow, t), tail, n)
    decreases t, 1
  {
    if t.Mapping? {
      MappingRoundTrip(flow, t, n, parent, tail);
    } else {
      SequenceRoundTrip(flow, t, n, parent, tail);
    }
  }

  lemma EntriesCons(entries: seq<Entry>, n: nat, tail: seq<string>)
    requires entries != []
    ensures LayoutEntries(entries, n) + tail
         == [Spaces(n) + EntryHead(entries[0])] + (EntryBody(entries[0], n) + (LayoutEntries(entries[1..], n) + tail))
  {
    var head := [Spaces(n) + EntryHead(entries[0])];
    Regroup(head + EntryBody(entries[0], n), LayoutEntries(entries[1..], n), tail);
    Regroup(head, EntryBody(entries[0], n), LayoutEntries(entries[1..], n) + tail);
  }

  lemma FreshMore(entries: seq<Entry>, acc: seq<Field>, f: Field)
    requires entries != [] && KeysDistinct(entries) && f.key == entries[0].key
    requires forall e | e in entries :: Fresh(e.key, acc)
    ensures KeysDistinct(entries[1..]) && forall e | e in entries[1..] :: Fresh(e.key, acc + [f])
  {
    var more := entries[1..];
    forall x | x in more ensures Fresh(x.key, acc + [f]) {
      var i :| 0 <= i < |more| && more[i] == x;
      assert entries[i + 1] == x && x in entries;
    }
  }

  lemma {:induction false} EntriesRoundTrip(flow: Flow, entries: seq<Entry>, n: nat, acc: seq<Field>, tail: seq<string>)
    requires KeysDistinct(entries) && forall e | e in entries :: KeyOk(e.key) && EntryValueOk(e.value)
    requires forall e | e in entries :: Fresh(e.key, acc)
    requires EndsFields(tail, n)
    ensures Adds(
      ParseFields(flow, LayoutEntries(entries, n) + tail, n, acc), acc, RecoverEntries(flow, entries), tail, n)
    decreases entries, 0
  {
    if entries == [] {
      assert LayoutEntries(entries, n) + tail == tail && acc + [] == acc;
    } else {
      var e, more := entries[0], entries[1..];
      assert e in entries;
      var rest := LayoutEntries(more, n) + tail;
      var r := Recover(flow, e.value);
      var f := Field(e.key, r.value);
      EntriesCons(entries, n, tail);
      EntriesAreClosed(more, n, n + 1, tail);
      EntryReads(flow, e, n, acc, rest);
      if r.complete {
        FreshMore(entries, acc, f);
        EntriesRoundTrip(flow, more, n, acc + [f], tail);
        Regroup(acc, [f], RecoverEntries(flow, more).value);
      }
    }
  }

  lemma HeadField(e: Entry, n: nat)
    requires KeyOk(e.key) && EntryValueOk(e.value)
    ensures var line := Spaces(n) + EntryHead(e); !Blank(line) && FieldHead(line, n) == Some((e.key, ValueText(e)))
  {
    EntryHeadReads(e);
    PaddedLine(n, EntryHead(e));
  }

  /** One turn of the mapping loop, by the text behind the colon. */
  lemma FieldTurn(flow: Flow, line: string, below: seq<string>, n: nat, acc: seq<Field>, key: string, after: string)
    requires !Blank(line) && FieldHead(line, n) == Some((key, after))
    ensures var r := ParseFields(flow, [line] + below, n, acc);
      if after == "|" || after == ">-" then
        var (blk, left) := BlockLines(below, n, []);
        r == ParseFields(flow, left, n, MapSet(acc, key, BlockText(after, blk)))
      else if after == "" then
        var (v, left) := ParseBlock(flow, below, n); r == ParseFields(flow, left, n, MapSet(acc, key, v))
      else r == ParseFields(flow, below, n, MapSet(acc, key, ParseScalar(flow, after)))
  {
    assert ([line] + below)[1..] == below;
  }

  lemma ValueKind(e: Entry)
    requires EntryValueOk(e.value)
    ensures match e.value
      case Scalar(text) => ValueText(e) == text && text != "" && text != "|" && text != ">-"
      case Literal(folded, _) => ValueText(e) == Marker(folded)
      case _ => ValueText(e) == ""
  {
  }

  /** One turn of the mapping loop over a whole entry. */
  lemma {:induction false} EntryReads(flow: Flow, e: Entry, n: nat, acc: seq<Field>, rest: seq<string>)
    requires KeyOk(e.key) && EntryValueOk(e.value) && Fresh(e.key, acc) && Closed(rest, n + 1)
    ensures var v := Recover(flow, e.value);
      var r := ParseFields(flow, [Spaces(n) + EntryHead(e)] + (EntryBody(e, n) + rest), n, acc);
      if v.complete then r == ParseFields(flow, rest, n, acc + [Field(e.key, v.value)])
      else r.0 == acc + [Field(e.key, v.value)] && Stuck(r.1, n)
    decreases e, 1
  {
    if IsBlock(e.value) {
      BlockEntryReads(flow, e, n, acc, rest);
    } else {
      FlatEntryReads(flow, e, n, acc, rest);
    }
  }

  lemma FlatEntryReads(flow: Flow, e: Entry, n: nat, acc: seq<Field>, rest: seq<string>)
    requires !IsBlock(e.value) && KeyOk(e.key) && EntryValueOk(e.value) && Fresh(e.key, acc) && Closed(rest, n + 1)
    ensures ParseFields(flow, [Spaces(n) + EntryHead(e)] + (EntryBody(e, n) + rest), n, acc)
         == ParseFields(flow, rest, n, acc + [Field(e.key, Recover(flow, e.value).value)])
  {
    HeadField(e, n);
    ValueKind(e);
    FieldTurn(flow, Spaces(n) + EntryHead(e), EntryBody(e, n) + rest, n, acc, e.key, ValueText(e));
    MapSetFresh(acc, e.key, Recover(flow, e.value).value);
    if e.value.Literal? {
      LiteralValueReads(e, n, rest);
    } else {
      assert EntryBody(e, n) + rest == rest;
      if e.value.Nothing? { NothingReads(flow, n, rest); }
    }
  }

  /** The turn over the head of an entry whose value is a block. */
  lemma BlockEntryTurn(flow: Flow, e: Entry, n: nat, acc: seq<Field>, rest: seq<string>)
    requires IsBlock(e.value) && KeyOk(e.key) && EntryValueOk(e.value) && Fresh(e.key, acc)
    ensures var (v, left) := ParseBlock(flow, Layout(e.value, n + 2) + rest, n);
      ParseFields(flow, [Spaces(n) + EntryHead(e)] + (EntryBody(e, n) + rest), n, acc)
        == ParseFields(flow, left, n, acc + [Field(e.key, v)])
  {
    HeadField(e, n);
    ValueKind(e);
    BlockBody(e, n);
    FieldTurn(flow, Spaces(n) + EntryHead(e), EntryBody(e, n) + rest, n, acc, e.key, "");
    MapSetFresh(acc, e.key, ParseBlock(flow, Layout(e.value, n + 2) + rest, n).0);
  }

  lemma {:induction false} BlockEntryReads(flow: Flow, e: Entry, n: nat, acc: seq<Field>, rest: seq<string>)
    requires IsBlock(e.value) && KeyOk(e.key) && EntryValueOk(e.value) && Fresh(e.key, acc) && Closed(rest, n + 1)
    ensures var v := Recover(flow, e.value);
      var r := ParseFields(flow, [Spaces(n) + EntryHead(e)] + (EntryBody(e, n) + rest), n, acc);
      if v.complete then r == ParseFields(flow, rest, n, acc + [Field(e.key, v.value)])
      else r.0 == acc + [Field(e.key, v.value)] && Stuck(r.1, n)
    decreases e, 0
  {
    BlockEntryTurn(flow, e, n, acc, rest);
    BlockBody(e, n);
    ClosedEnds(e.value, n + 2, rest);
    BlockRoundTrip(flow, e.value, n + 2, n, rest);
    var v := Recover(flow, e.value);
    if !v.complete {
      StuckFields(flow, ParseBlock(flow, Layout(e.value, n + 2) + rest, n).1, n, acc + [Field(e.key, v.value)]);
    }
  }

  /** No deeper line follows, so there is no block to read. */
  lemma NothingReads(flow: Flow, n: nat, rest: seq<string>)
    requires Closed(rest, n + 1)
    ensures ParseBlock(flow, rest, n) == (YNull, rest)
  {
  }

  lemma LiteralValueReads(e: Entry, n: nat, rest: seq<string>)
    requires e.value.Literal? && EntryValueOk(e.value) && Closed(rest, n + 1)
    ensures BlockLines(EntryBody(e, n) + rest, n, []) == (e.value.lines, rest)
  {
    LiteralReads(e.value.lines, n, [], rest);
    assert [] + e.value.lines == e.value.lines;
  }

  lemma BlockBody(e: Entry, n: nat)
    requires IsBlock(e.value) && EntryValueOk(e.value)
    ensures BlockOk(e.value) && EntryBody(e, n) == Layout(e.value, n + 2)
  {
  }

  /** A line further left ends a block of either kind. */
  lemma ClosedEnds(t: Tree, n: nat, tail: seq<string>)
    requires IsBlock(t) && Closed(tail, n)
    ensures EndsBlock(t, tail, n)
  {
  }

  /** One turn of the sequence loop at an item line. */
  lemma {:induction false} ItemStep(flow: Flow, all: seq<string>, n: nat, arr: seq<Yaml>)
    requires all != [] && !Blank(all[0]) && IndentOf(all[0]) == n && StartsDash(Trim(all[0]))
    ensures var a := AfterDash(all[0]);
      ParseItems(flow, all, n, arr) ==
        if a == "" then
          var (v, left) := ParseBlock(flow, all[1..], n);
          ParseItems(flow, left, n, arr + [v])
        else if InlineMap(a) then
          var (v, left) := ParseBlock(flow, [FakeLine(n, a)] + all[1..], n);
          ParseItems(flow, left, n, arr + [OrElse(v, YMap([]))])
        else ParseItems(flow, all[1..], n, arr + [ParseScalar(flow, a)])
  {
    SpliceFalls(all, n);
  }

  /** A turn of the sequence loop over an item: it is added, and the loop goes on or stops. */
  predicate ItemTurn(flow: Flow, x: Tree, n: nat, acc: seq<Yaml>, rest: seq<string>) {
    var v := RecoverItem(flow, x);
    var r := ParseItems(flow, LayoutItem(x, n) + rest, n, acc);
    if v.complete then r == ParseItems(flow, rest, n, acc + [v.value])
    else r.0 == acc + [v.value] && Stuck(r.1, n)
  }

  lemma {:induction false} ItemsRoundTrip(flow: Flow, items: seq<Tree>, n: nat, acc: seq<Yaml>, tail: seq<string>)
    requires forall x | x in items :: ItemOk(x)
    requires EndsItems(tail, n)
    ensures Adds(ParseItems(flow, LayoutItems(items, n) + tail, n, acc), acc, RecoverItems(flow, items), tail, n)
    decreases items, 0
  {
    if items == [] {
      assert LayoutItems(items, n) + tail == tail && acc + [] == acc;
    } else {
      var x, more := items[0], items[1..];
      assert x in items;
      var rest := LayoutItems(more, n) + tail;
      Regroup(LayoutItem(x, n), LayoutItems(more, n), tail);
      ItemsAreClosed(more, n, n + 1, tail);
      ItemReads(flow, x, n, acc, rest);
      var v := RecoverItem(flow, x);
      if v.complete {
        ItemsRoundTrip(flow, more, n, acc + [v.value], tail);
        Regroup(acc, [v.value], RecoverItems(flow, more).value);
      }
    }
  }

  lemma {:induction false} ItemReads(flow: Flow, x: Tree, n: nat, acc: seq<Yaml>, rest: seq<string>)
    requires ItemOk(x) && Closed(rest, n + 1)
    ensures ItemTurn(flow, x, n, acc, rest)
    decreases x, 4
  {
    if x.Nothing? {
      NothingItemReads(flow, x, n, acc, rest);
    } else if !x.Scalar? {
      BlockItemReads(flow, x, n, acc, rest);
    } else if InlineMap(x.text) {
      if RecoverInline(flow, x.text).complete {
        InlineGoesOn(flow, x, n, acc, rest);
      } else {
        InlineStops(flow, x, n, acc, rest);
      }
    } else {
      ScalarStep(flow, x, n, acc, rest);
    }
  }

  lemma NothingItemReads(flow: Flow, x: Tree, n: nat, acc: seq<Yaml>, rest: seq<string>)
    requires x.Nothing? && Closed(rest, n + 1)
    ensures ItemTurn(flow, x, n, acc, rest)
  {
    ItemHeadReads(x, n);
    var all := LayoutItem(x, n) + rest;
    assert all[0] == LayoutItem(x, n)[0] && all[1..] == rest;
    ItemStep(flow, all, n, acc);
    NothingReads(flow, n, rest);
  }

  /** One turn of the sequence loop at a scalar. */
  lemma ScalarStep(flow: Flow, x: Tree, n: nat, acc: seq<Yaml>, rest: seq<string>)
    requires x.Scalar? && ItemOk(x)
    ensures var r := ParseItems(flow, LayoutItem(x, n) + rest, n, acc);
      if InlineMap(x.text) then
        var (v, left) := ParseBlock(flow, [FakeLine(n, x.text)] + rest, n);
        r == ParseItems(flow, left, n, acc + [OrElse(v, YMap([]))])
      else r == ParseItems(flow, rest, n, acc + [ParseScalar(flow, x.text)])
  {
    ItemHeadReads(x, n);
    var all := LayoutItem(x, n) + rest;
    assert all[0] == LayoutItem(x, n)[0] && all[1..] == rest;
    ItemStep(flow, all, n, acc);
  }

  /** Quoted text whose colon does not count as quoted becomes a mapping of one field, and the loop goes on. */
  lemma InlineGoesOn(flow: Flow, x: Tree, n: nat, acc: seq<Yaml>, rest: seq<string>)
    requires x.Scalar? && ItemOk(x) && InlineMap(x.text) && Closed(rest, n + 2) && RecoverInline(flow, x.text).complete
    ensures ParseItems(flow, LayoutItem(x, n) + rest, n, acc)
         == ParseItems(flow, rest, n, acc + [RecoverInline(flow, x.text).value])
  {
    ScalarStep(flow, x, n, acc, rest);
    InlineReads(flow, x.text, n, rest);
  }

  /** Otherwise it becomes a mapping without fields, and the loop stops in front of the text. */
  lemma InlineStops(flow: Flow, x: Tree, n: nat, acc: seq<Yaml>, rest: seq<string>)
    requires x.Scalar? && ItemOk(x) && InlineMap(x.text) && Closed(rest, n + 2) && !RecoverInline(flow, x.text).complete
    ensures var left := [FakeLine(n, x.text)] + rest;
      Stuck(left, n) && ParseItems(flow, LayoutItem(x, n) + rest, n, acc) == (acc + [YMap([])], left)
  {
    ScalarStep(flow, x, n, acc, rest);
    InlineReads(flow, x.text, n, rest);
    StuckItems(flow, [FakeLine(n, x.text)] + rest, n, acc + [YMap([])]);
  }

  lemma AfterColon(text: string, colon: int)
    requires InQuotes(text) && LineOk(text) && colon == FindColon(text) && colon >= 0 && text[colon] == ':'
    ensures var after := Trim(text[colon + 1..]); after != "" && after != "|" && after != ">-"
  {
    var s := text[colon + 1..];
    assert s != "" && s[|s| - 1] == text[|text| - 1] && s[|s| - 1] in {'"', '\''};
    TrimStartEnd(s);
  }

  /** Trimming the left end keeps the right end. */
  lemma {:induction false} TrimStartEnd(s: string)
    requires s != "" && !IsSpace(s[|s| - 1])
    ensures Trim(s) != "" && Trim(s)[|Trim(s)| - 1] == s[|s| - 1]
  {
    if IsSpace(s[0]) { TrimStartEnd(s[1..]); }
  }

  lemma {:induction false} ColonThere(s: string, i: nat, quote: string)
    requires i <= |s|
    ensures var c := FindColonFrom(s, i, quote); c != -1 ==> s[c] == ':'
    decreases |s| - i
  {
    if i < |s| { ColonThere(s, i + 1, if quote != "" then (if [s[i]] == quote then "" else quote)
                                      else if s[i] == '"' || s[i] == '\'' then [s[i]] else ""); }
  }

  lemma FakeReads(text: string, n: nat)
    requires LineOk(text) && !IsItem(text)
    ensures var line := FakeLine(n, text); var colon := FindColon(text);
      && !Blank(line) && IndentOf(line) == n + 2
      && FieldHead(line, n + 2) == if colon == -1 then None else Some((Trim(text[..colon]), Trim(text[colon + 1..])))
  {
    PaddedLine(n + 2, text);
  }

  lemma QuotedIsNoItem(text: string)
    requires InQuotes(text)
    ensures !IsItem(text) && text[0] != ' '
  {
    assert text[..2][0] == text[0] && "- "[0] == '-';
  }

  lemma NoField(flow: Flow, line: string, below: seq<string>, n: nat, acc: seq<Field>)
    requires !Blank(line) && FieldHead(line, n).None?
    ensures ParseFields(flow, [line] + below, n, acc) == (acc, [line] + below)
  {
    assert ([line] + below)[0] == line;
  }

  /** The spliced line of quoted text with a colon that does not count as quoted is a field, and the mapping ends with
      it. */
  lemma InlineField(flow: Flow, text: string, n: nat, rest: seq<string>)
    requires LineOk(text) && InQuotes(text) && FindColon(text) != -1 && Closed(rest, n + 2)
    ensures ParseFields(flow, [FakeLine(n, text)] + rest, n + 2, []) == (RecoverInline(flow, text).value.fields, rest)
  {
    var key, after := InlineHead(flow, text, n);
    OneField(flow, FakeLine(n, text), rest, n + 2, key, after);
  }

  lemma InlineHead(flow: Flow, text: string, n: nat) returns (key: string, after: string)
    requires LineOk(text) && InQuotes(text) && FindColon(text) != -1
    ensures !Blank(FakeLine(n, text)) && FieldHead(FakeLine(n, text), n + 2) == Some((key, after))
    ensures after != "" && after != "|" && after != ">-"
    ensures RecoverInline(flow, text) == Recovered(YMap([Field(key, ParseScalar(flow, after))]), true)
  {
    var colon := FindColon(text);
    key, after := Trim(text[..colon]), Trim(text[colon + 1..]);
    QuotedIsNoItem(text);
    FakeReads(text, n);
    AfterQuotedColon(text);
  }

  lemma AfterQuotedColon(text: string)
    requires LineOk(text) && InQuotes(text) && FindColon(text) != -1
    ensures var after := Trim(text[FindColon(text) + 1..]); after != "" && after != "|" && after != ">-"
  {
    ColonThere(text, 0, "");
    AfterColon(text, FindColon(text));
  }

  /** A mapping of one field with a scalar. */
  lemma OneField(flow: Flow, line: string, rest: seq<string>, n: nat, key: string, after: string)
    requires !Blank(line) && FieldHead(line, n) == Some((key, after)) && Closed(rest, n)
    requires after != "" && after != "|" && after != ">-"
    ensures ParseFields(flow, [line] + rest, n, []) == ([Field(key, ParseScalar(flow, after))], rest)
  {
    FieldTurn(flow, line, rest, n, [], key, after);
    ClosedFields(flow, rest, n, [Field(key, ParseScalar(flow, after))]);
  }

  lemma InlineReads(flow: Flow, text: string, n: nat, rest: seq<string>)
    requires LineOk(text) && InlineMap(text) && InQuotes(text) && Closed(rest, n + 2)
    ensures var v := RecoverInline(flow, text); var all := [FakeLine(n, text)] + rest;
      ParseBlock(flow, all, n) == (v.value, if v.complete then rest else all) && (!v.complete ==> Stuck(all, n))
  {
    var all := [FakeLine(n, text)] + rest;
    InlineStarts(flow, text, n, rest);
    if FindColon(text) == -1 {
      QuotedIsNoItem(text);
      FakeReads(text, n);
      NoField(flow, FakeLine(n, text), rest, n + 2, []);
    } else {
      InlineField(flow, text, n, rest);
    }
  }

  lemma InlineStarts(flow: Flow, text: string, n: nat, rest: seq<string>)
    requires LineOk(text) && InlineMap(text) && InQuotes(text)
    ensures var all := [FakeLine(n, text)] + rest; var (fields, left) := ParseFields(flow, all, n + 2, []);
      ParseBlock(flow, all, n) == (YMap(fields), left) && Stuck(all, n)
  {
    var all := [FakeLine(n, text)] + rest;
    PaddedLine(n + 2, text);
    QuotedIsNoItem(text);
    assert all[0] == FakeLine(n, text);
    StartsMapping(flow, all, n + 2, n);
  }

  lemma ItemLayout(entries: seq<Entry>, n: nat)
    requires entries != []
    ensures LayoutItem(Mapping(entries), n)[1..] == EntryBody(entries[0], n + 2) + LayoutEntries(entries[1..], n + 2)
  {
    var front := [Spaces(n) + "- " + EntryHead(entries[0])];
    Regroup(front, EntryBody(entries[0], n + 2), LayoutEntries(entries[1..], n + 2));
    assert LayoutItem(Mapping(entries), n)
      == front + (EntryBody(entries[0], n + 2) + LayoutEntries(entries[1..], n + 2));
  }

  lemma EntriesLayout(entries: seq<Entry>, n: nat)
    requires entries != []
    ensures LayoutEntries(entries, n)
      == [Spaces(n) + EntryHead(entries[0])] + (EntryBody(entries[0], n) + LayoutEntries(entries[1..], n))
  {
  }

  /** The lines handed to the recursive call are the layout of the item, two columns deeper. */
  lemma MappingItemFront(entries: seq<Entry>, n: nat, rest: seq<string>)
    requires entries != []
    ensures var all := LayoutItem(Mapping(entries), n) + rest;
      [FakeLine(n, EntryHead(entries[0]))] + all[1..] == LayoutEntries(entries, n + 2) + rest
  {
    ItemLayout(entries, n);
    EntriesLayout(entries, n + 2);
    var all := LayoutItem(Mapping(entries), n) + rest;
    assert all[1..] == LayoutItem(Mapping(entries), n)[1..] + rest;
  }

  lemma {:induction false} BlockItemReads(flow: Flow, x: Tree, n: nat, acc: seq<Yaml>, rest: seq<string>)
    requires IsBlock(x) && BlockOk(x) && Closed(rest, n + 2)
    ensures ItemTurn(flow, x, n, acc, rest)
    decreases x, 3
  {
    var all := LayoutItem(x, n) + rest;
    ItemHeadReads(x, n);
    assert all[0] == LayoutItem(x, n)[0];
    ItemBlockReads(flow, x, n, rest);
    if x.Mapping? { ItemIsInline(x); }
    var v := Recover(flow, x);
    assert AfterDash(all[0]) == ItemAfterDash(x) && OrElse(v.value, YMap([])) == v.value;
    ItemStep(flow, all, n, acc);
    if !v.complete { StuckItems(flow, ParseBlock(flow, ItemLines(x, n, rest), n).1, n, acc + [v.value]); }
  }

  /** The lines the parser sees after the dash, with the spliced line of an inline mapping in front. */
  function ItemLines(x: Tree, n: nat, rest: seq<string>): seq<string>
    requires IsBlock(x)
  {
    var all := LayoutItem(x, n) + rest;
    if x.Mapping? then [FakeLine(n, ItemAfterDash(x))] + all[1..] else all[1..]
  }

  lemma ItemIsInline(x: Tree)
    requires x.Mapping? && BlockOk(x)
    ensures InlineMap(ItemAfterDash(x))
  {
    assert x.entries[0] in x.entries;
    EntryHeadReads(x.entries[0]);
  }

  lemma ItemLinesAre(x: Tree, n: nat, rest: seq<string>)
    requires IsBlock(x) && BlockOk(x)
    ensures ItemLines(x, n, rest) == Layout(x, n + 2) + rest
  {
    if x.Mapping? {
      MappingItemFront(x.entries, n, rest);
    } else {
      assert (LayoutItem(x, n) + rest)[1..] == Layout(x, n + 2) + rest;
    }
  }

  /** The block of an item, behind its dash. */
  lemma {:induction false} ItemBlockReads(flow: Flow, x: Tree, n: nat, rest: seq<string>)
    requires IsBlock(x) && BlockOk(x) && Closed(rest, n + 2)
    ensures Leaves(ParseBlock(flow, ItemLines(x, n, rest), n), Recover(flow, x), rest, n)
    decreases x, 2
  {
    ItemLinesAre(x, n, rest);
    BlockRoundTrip(flow, x, n + 2, n, rest);
  }

  // ---------- whole documents ----------

  /** Every text of a tree has a property. */
  predicate TextsOk(t: Tree, p: string -> bool) {
    match t
    case Scalar(text) => p(text)
    case Literal(_, lines) => forall l | l in lines :: l == "" || p(l)
    case Nothing => true
    case Mapping(entries) => forall e | e in entries :: TextsOk(e.value, p)
    case Sequence(items) => forall x | x in items :: TextsOk(x, p)
  }

  predicate AllBuiltOn(p: string -> bool, lines: seq<string>) {
    forall l | l in lines :: BuiltOn(p, l)
  }

  lemma Built(p: string -> bool, pre: string, text: string)
    requires Quiet(pre) && text != "" && !IsSpace(text[|text| - 1]) && p(text)
    ensures BuiltOn(p, pre + text)
  {
    var l := pre + text;
    assert l[..|pre|] == pre && l[|pre|..] == text && l[|l| - 1] == text[|text| - 1];
    assert BuiltAt(p, l, |pre|);
  }

  lemma {:induction false} PadAllBuilt(p: string -> bool, lines: seq<string>, n: nat)
    requires forall l | l in lines :: LiteralLineOk(l) && (l == "" || p(l))
    ensures AllBuiltOn(p, PadAll(lines, n))
  {
    if lines != [] {
      assert lines[0] in lines;
      if lines[0] != "" { Built(p, Spaces(n), lines[0]); }
      PadAllBuilt(p, lines[1..], n);
    }
  }

  /** The first line of an entry behind anything quiet, its indentation or a dash. */
  lemma HeadBuilt(p: string -> bool, pre: string, e: Entry)
    requires Quiet(pre) && KeyOk(e.key) && EntryValueOk(e.value) && TextsOk(e.value, p)
    ensures BuiltOn(p, pre + EntryHead(e))
  {
    assert Quiet(e.key) by { assert forall c | c in e.key :: PlainKeyChar(c); }
    if e.value.Scalar? {
      Built(p, pre + e.key + ": ", e.value.text);
      assert pre + e.key + ": " + e.value.text == pre + EntryHead(e);
    } else {
      assert Quiet(pre + EntryHead(e));
    }
  }

  lemma {:induction false} BodyBuilt(p: string -> bool, e: Entry, n: nat)
    requires EntryValueOk(e.value) && TextsOk(e.value, p)
    ensures AllBuiltOn(p, EntryBody(e, n))
    decreases e, 0
  {
    match e.value {
      case Scalar(_) =>
      case Literal(_, lines) => PadAllBuilt(p, lines, n + 2);
      case Nothing =>
      case _ => LayoutBuilt(p, e.value, n + 2);
    }
  }

  lemma {:induction false} EntriesBuilt(p: string -> bool, entries: seq<Entry>, n: nat)
    requires forall e | e in entries :: KeyOk(e.key) && EntryValueOk(e.value) && TextsOk(e.value, p)
    ensures AllBuiltOn(p, LayoutEntries(entries, n))
    decreases entries, 0
  {
    if entries != [] {
      assert entries[0] in entries;
      HeadBuilt(p, Spaces(n), entries[0]);
      BodyBuilt(p, entries[0], n);
      EntriesBuilt(p, entries[1..], n);
    }
  }

  lemma {:induction false} ItemBuilt(p: string -> bool, t: Tree, n: nat)
    requires ItemOk(t) && TextsOk(t, p)
    ensures AllBuiltOn(p, LayoutItem(t, n))
    decreases t, 3
  {
    var dash := Spaces(n) + "- ";
    match t {
      case Scalar(text) =>
        Built(p, dash, text);
      case Mapping(entries) =>
        assert entries[0] in entries;
        HeadBuilt(p, dash, entries[0]);
        BodyBuilt(p, entries[0], n + 2);
        EntriesBuilt(p, entries[1..], n + 2);
      case Sequence(items) =>
        ItemsBuilt(p, items, n + 2);
      case Nothing =>
    }
  }

  lemma {:induction false} ItemsBuilt(p: string -> bool, items: seq<Tree>, n: nat)
    requires forall x | x in items :: ItemOk(x) && TextsOk(x, p)
    ensures AllBuiltOn(p, LayoutItems(items, n))
    decreases items, 0
  {
    if items != [] {
      assert items[0] in items;
      ItemBuilt(p, items[0], n);
      ItemsBuilt(p, items[1..], n);
    }
  }

  /** Every line of a layout is quiet up to one of the tree's texts. */
  lemma {:induction false} LayoutBuilt(p: string -> bool, t: Tree, n: nat)
    requires IsBlock(t) && BlockOk(t) && TextsOk(t, p)
    ensures AllBuiltOn(p, Layout(t, n))
    decreases t, 1
  {
    match t {
      case Mapping(entries) => EntriesBuilt(p, entries, n);
      case Sequence(items) => ItemsBuilt(p, items, n);
    }
  }

  lemma StripLayout(t: Tree)
    requires IsBlock(t) && BlockOk(t) && TextsOk(t, Clean)
    ensures StripAll(Layout(t, 0)) == Layout(t, 0) && Layout(t, 0) != []
    ensures forall l | l in Layout(t, 0) :: OneLine(l)
  {
    var lines := Layout(t, 0);
    LayoutBuilt(Clean, t, 0);
    forall l | l in lines ensures Clean(l) { BuiltClean(l); }
    forall i | 0 <= i < |lines| ensures StripComment(lines[i]) == lines[i] { assert lines[i] in lines; }
  }

  lemma ParseText(flow: Flow, lines: seq<string>)
    requires lines != [] && forall l | l in lines :: OneLine(l)
    ensures ParseYaml(flow, Join(lines, "\n")) == OrElse(ParseBlock(flow, StripAll(lines), -1).0, YMap([]))
  {
    SplitJoin(lines);
  }

  lemma StripConcat(a: seq<string>, b: seq<string>)
    ensures StripAll(a + b) == StripAll(a) + StripAll(b)
  {
  }

  /** What is read when lines follow a canonical layout. */
  lemma ParseWithMore(flow: Flow, t: Tree, more: seq<string>)
    requires IsBlock(t) && BlockOk(t) && TextsOk(t, Clean)
    requires (forall l | l in more :: OneLine(l)) && EndsBlock(t, StripAll(more), 0)
    ensures ParseYaml(flow, Join(Layout(t, 0) + more, "\n")) == Recover(flow, t).value
  {
    StripLayout(t);
    StripConcat(Layout(t, 0), more);
    BlockRoundTrip(flow, t, 0, -1, StripAll(more));
    ParseText(flow, Layout(t, 0) + more);
  }

  /** What `parseYaml` returns for the text of a canonical layout. */
  lemma ParseYamlRoundTrip(flow: Flow, t: Tree)
    requires IsBlock(t) && BlockOk(t) && TextsOk(t, Clean)
    ensures ParseYaml(flow, Join(Layout(t, 0), "\n")) == Recover(flow, t).value
  {
    ParseWithMore(flow, t, []);
    assert Layout(t, 0) + [] == Layout(t, 0);
  }

  /** A line at the left margin that does not continue a block of the same kind. */
  predicate Alien(t: Tree, line: string) {
    var l := StripComment(line);
    && OneLine(line) && !Blank(l) && IndentOf(l) == 0
    && if t.Mapping? then FieldHead(l, 0).None? else !StartsDash(Trim(l))
  }

  lemma AlienEnds(t: Tree, line: string, below: seq<string>)
    requires IsBlock(t) && Alien(t, line)
    ensures EndsBlock(t, StripAll([line] + below), 0)
  {
    assert StripAll([line] + below)[0] == StripComment(line);
  }

  /** Nothing fails: such a line behind a canonical block is dropped, with all lines below it. */
  lemma TrailingLinesDropped(flow: Flow, t: Tree, line: string, below: seq<string>)
    requires IsBlock(t) && BlockOk(t) && TextsOk(t, Clean) && Alien(t, line) && forall l | l in below :: OneLine(l)
    ensures ParseYaml(flow, Join(Layout(t, 0) + ([line] + below), "\n"))
         == ParseYaml(flow, Join(Layout(t, 0), "\n")) == Recover(flow, t).value
  {
    AlienEnds(t, line, below);
    ParseWithMore(flow, t, [line] + below);
    ParseYamlRoundTrip(flow, t);
  }
}
