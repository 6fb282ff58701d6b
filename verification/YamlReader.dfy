/** What `parseYaml` (website/app.js) computes, as functions of the lines not read yet.

    `parseBlock` pushes a synthetic line back in front of the input when it meets `- key: value`, so the
    functions below recurse on `Weight`, not on the number of lines. */
module YamlReader {
  import opened Wrappers
  import opened Text

  datatype Field = Field(key: string, value: Yaml)

  /** Values the reader returns. `YNum` keeps the digits `Number(..)` is applied to. */
  datatype Yaml =
    | YNull
    | YBool(b: bool)
    | YNum(digits: string)
    | YStr(s: string)
    | YSeq(items: seq<Yaml>)
    | YMap(fields: seq<Field>)

  /** The value of a flow-style text `{..}` or `[..]`; foreign code (`JSON.parse` after regex rewriting). */
  type Flow = string -> Yaml

  // ---------- lines ----------

  /** The open quote character behind `raw[i]`, if any; `quote` is the one before it. */
  function NextQuote(raw: string, i: nat, quote: string): string
    requires i < |raw|
  {
    if quote != "" then (if [raw[i]] == quote && (i == 0 || raw[i - 1] != '\\') then "" else quote)
    else if raw[i] == '"' || raw[i] == '\'' then [raw[i]]
    else ""
  }

  /** Steps the comment scanner over `raw[i..]`; `quote` is the open quote character, if any. */
  function StripFrom(raw: string, i: nat, quote: string): string
    requires i <= |raw|
    decreases |raw| - i
  {
    if i == |raw| || (quote == "" && raw[i] == '#') then ""
    else [raw[i]] + StripFrom(raw, i + 1, NextQuote(raw, i, quote))
  }

  function StripComment(raw: string): string {
    TrimEnd(StripFrom(raw, 0, ""))
  }

  function StripAll(lines: seq<string>): (r: seq<string>)
    ensures |r| == |lines|
  {
    seq(|lines|, i requires 0 <= i < |lines| => StripComment(lines[i]))
  }

  /** Index of the first colon outside quotes, or -1; `quote` is the open quote character, if any. */
  function FindColonFrom(s: string, i: nat, quote: string): (r: int)
    requires i <= |s|
    ensures r == -1 || i <= r < |s|
    decreases |s| - i
  {
    if i == |s| then -1
    else if quote != "" then FindColonFrom(s, i + 1, if [s[i]] == quote then "" else quote)
    else if s[i] == '"' || s[i] == '\'' then FindColonFrom(s, i + 1, [s[i]])
    else if s[i] == ':' then i
    else FindColonFrom(s, i + 1, "")
  }

  function FindColon(s: string): (r: int)
    ensures r == -1 || 0 <= r < |s|
  {
    FindColonFrom(s, 0, "")
  }

  // ---------- scalars ----------

  predicate Digits(s: string) {
    s != "" && forall c | c in s :: '0' <= c <= '9'
  }

  predicate IsNumber(s: string) {
    var t := if s != "" && s[0] == '-' then s[1..] else s;
    Digits(t) || exists i | 0 <= i < |t| :: t[i] == '.' && Digits(t[..i]) && Digits(t[i + 1..])
  }

  function ReplacePair(s: string, a: char, b: char, c: char): string {
    if |s| >= 2 && s[0] == a && s[1] == b then [c] + ReplacePair(s[2..], a, b, c)
    else if s == "" then ""
    else [s[0]] + ReplacePair(s[1..], a, b, c)
  }

  predicate Wrapped(s: string, open: char, close: char) {
    s != "" && s[0] == open && s[|s| - 1] == close
  }

  function ParseScalar(flow: Flow, raw: string): Yaml {
    var s := Trim(raw);
    if s == "" || s == "null" || s == "~" then YNull
    else if s == "true" then YBool(true)
    else if s == "false" then YBool(false)
    else if IsNumber(s) then YNum(s)
    else if Wrapped(s, '"', '"') || Wrapped(s, '\'', '\'') then
      var inner := if |s| >= 2 then s[1..|s| - 1] else "";
      YStr(ReplacePair(ReplacePair(inner, '\\', '"', '"'), '\\', 'n', '\n'))
    else if Wrapped(s, '{', '}') || Wrapped(s, '[', ']') then flow(s)
    else YStr(s)
  }

  /** Assignment `map[key] = v` on a plain object: overwrite in place, else append. */
  function MapSet(fields: seq<Field>, key: string, v: Yaml): seq<Field> {
    if fields == [] then [Field(key, v)]
    else if fields[0].key == key then [Field(key, v)] + fields[1..]
    else [fields[0]] + MapSet(fields[1..], key, v)
  }

  /** The value under a key. */
  function ValueAt(fields: seq<Field>, key: string): Option<Yaml> {
    if fields == [] then None else if fields[0].key == key then Some(fields[0].value) else ValueAt(fields[1..], key)
  }

  /** A repeated key keeps its place and takes the new value; every other key keeps its own; a new key comes last. */
  lemma {:induction false} MapSetIs(fields: seq<Field>, key: string, v: Yaml, other: string)
    ensures var r := MapSet(fields, key, v);
      && ValueAt(r, key) == Some(v) && (other != key ==> ValueAt(r, other) == ValueAt(fields, other))
      && |r| == |fields| + (if ValueAt(fields, key).None? then 1 else 0)
      && forall i | 0 <= i < |fields| :: r[i].key == fields[i].key
  {
    if fields != [] && fields[0].key != key { MapSetIs(fields[1..], key, v, other); }
  }

  // ---------- blocks ----------

  /** Termination measure: each remaining line counts its trimmed length and one more. */
  function Weight(rest: seq<string>): nat {
    if rest == [] then 0 else |Trim(rest[0])| + 1 + Weight(rest[1..])
  }

  predicate StartsDash(t: string) {
    t != "" && t[0] == '-'
  }

  predicate IsItem(t: string) {
    t == "-" || (|t| >= 2 && t[..2] == "- ")
  }

  function AfterDash(line: string): string
    requires StartsDash(Trim(line))
  {
    Trim(Trim(line)[1..])
  }

  predicate InlineMap(afterDash: string) {
    afterDash != "" && ':' in afterDash && afterDash[0] != '{' && afterDash[0] != '['
  }

  /** The line spliced into the input for `- key: value`. */
  function FakeLine(indent: nat, afterDash: string): string {
    Spaces(indent + 2) + afterDash
  }

  function DropBlank(rest: seq<string>): (r: seq<string>)
    ensures |r| <= |rest| && r == rest[|rest| - |r|..]
    ensures Weight(r) <= Weight(rest)
    ensures r != [] ==> !Blank(r[0])
  {
    if rest != [] && Blank(rest[0]) then DropBlank(rest[1..]) else rest
  }

  /** `l.slice(n)`. */
  function SliceFrom(l: string, n: nat): string {
    if n <= |l| then l[n..] else ""
  }

  /** Lines of a `|` or `>-` block under a key at indentation `indent`. */
  function BlockLines(rest: seq<string>, indent: nat, blk: seq<string>): (r: (seq<string>, seq<string>))
    ensures Weight(r.1) <= Weight(rest)
    decreases |rest|
  {
    if rest == [] then (blk, rest)
    else if Blank(rest[0]) then BlockLines(rest[1..], indent, blk + [""])
    else if IndentOf(rest[0]) <= indent then (blk, rest)
    else BlockLines(rest[1..], indent, blk + [SliceFrom(rest[0], indent + 2)])
  }

  lemma SpliceFalls(rest: seq<string>, indent: nat)
    requires rest != [] && StartsDash(Trim(rest[0]))
    ensures Weight([FakeLine(indent, AfterDash(rest[0]))] + rest[1..]) < Weight(rest)
  {
    var t := AfterDash(rest[0]);
    TrimPad(indent + 2, t);
  }

  function OrElse(v: Yaml, d: Yaml): Yaml {
    if v == YNull then d else v
  }

  /** The value of the block at the front of `rest` if indented deeper than `parent`, and what is left. */
  function ParseBlock(flow: Flow, rest: seq<string>, parent: int): (r: (Yaml, seq<string>))
    ensures Weight(r.1) <= Weight(rest)
    decreases Weight(rest), 2
  {
    var r := DropBlank(rest);
    if r == [] then (YNull, r)
    else
      var trimmed := Trim(r[0]);
      var indent := IndentOf(r[0]);
      if indent <= parent then (YNull, r)
      else if IsItem(trimmed) then
        var (items, left) := ParseItems(flow, r, indent, []);
        (YSeq(items), left)
      else if ':' in trimmed then
        var (fields, left) := ParseFields(flow, r, indent, []);
        (YMap(fields), left)
      else (ParseScalar(flow, trimmed), r[1..])
  }

  function ParseItems(flow: Flow, rest: seq<string>, indent: nat, arr: seq<Yaml>): (r: (seq<Yaml>, seq<string>))
    ensures Weight(r.1) <= Weight(rest)
    decreases Weight(rest), 1
  {
    if rest == [] then (arr, rest)
    else if Blank(rest[0]) then ParseItems(flow, rest[1..], indent, arr)
    else if IndentOf(rest[0]) != indent || !StartsDash(Trim(rest[0])) then (arr, rest)
    else
      var afterDash := AfterDash(rest[0]);
      if afterDash == "" then
        var (v, left) := ParseBlock(flow, rest[1..], indent);
        ParseItems(flow, left, indent, arr + [v])
      else if InlineMap(afterDash) then
        SpliceFalls(rest, indent);
        var (v, left) := ParseBlock(flow, [FakeLine(indent, afterDash)] + rest[1..], indent);
        ParseItems(flow, left, indent, arr + [OrElse(v, YMap([]))])
      else ParseItems(flow, rest[1..], indent, arr + [ParseScalar(flow, afterDash)])
  }

  /** A mapping line at an indentation: its key and the text behind the colon. */
  function FieldHead(line: string, indent: nat): Option<(string, string)> {
    var t := Trim(line);
    var colon := FindColon(t);
    if IndentOf(line) != indent || IsItem(t) || colon == -1 then None
    else Some((Trim(t[..colon]), Trim(t[colon + 1..])))
  }

  function ParseFields(flow: Flow, rest: seq<string>, indent: nat, map_: seq<Field>): (r: (seq<Field>, seq<string>))
    ensures Weight(r.1) <= Weight(rest)
    decreases Weight(rest), 1
  {
    if rest == [] then (map_, rest)
    else if Blank(rest[0]) then ParseFields(flow, rest[1..], indent, map_)
    else
      match FieldHead(rest[0], indent)
      case None => (map_, rest)
      case Some((key, after)) =>
        if after == "|" || after == ">-" then
          var (blk, left) := BlockLines(rest[1..], indent, []);
          ParseFields(flow, left, indent, MapSet(map_, key, BlockText(after, blk)))
        else if after == "" then
          var (v, left) := ParseBlock(flow, rest[1..], indent);
          ParseFields(flow, left, indent, MapSet(map_, key, v))
        else ParseFields(flow, rest[1..], indent, MapSet(map_, key, ParseScalar(flow, after)))
  }

  function BlockText(marker: string, blk: seq<string>): Yaml {
    YStr(if marker == "|" then Join(blk, "\n") else Trim(Join(blk, " ")))
  }

  /** `parseYaml(src)`. */
  function ParseYaml(flow: Flow, src: string): Yaml {
    OrElse(ParseBlock(flow, StripAll(SplitLines(src)), -1).0, YMap([]))
  }
}
