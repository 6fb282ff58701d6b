/** The surgical edit of `fleet.yaml` in packages/cli/src/fleet-scaffold.ts, and how YAML reads a block list of
    agents. */
module FleetManifest {
  import opened Wrappers
  import opened Text

  /** One agent of the list, its scalars as written. */
  datatype Entry = Entry(id: string, path: string)

  predicate IsEmptyAgents(line: string) {
    && "agents:" <= line
    && var open := TrimStart(line[7..]);
       "[" <= open && var close := TrimStart(open[1..]);
       "]" <= close && Blank(close[1..])
  }

  predicate IsAgentsKey(line: string) {
    "agents:" <= line && Blank(line[7..])
  }

  predicate IsAgentsLine(line: string) {
    IsEmptyAgents(line) || IsAgentsKey(line)
  }

  /** The block ends at a line that is neither blank nor indented nor a comment. */
  predicate EndsBlock(line: string) {
    line != "" && !IsSpace(line[0]) && line[0] != '#'
  }

  /** `lines.findIndex(…)`, with the length for "not found". */
  function FirstAt(lines: seq<string>, p: string -> bool): (k: nat)
    ensures k <= |lines|
    ensures k < |lines| ==> p(lines[k])
    ensures forall j | 0 <= j < k :: !p(lines[j])
  {
    if lines == [] then 0 else if p(lines[0]) then 0 else 1 + FirstAt(lines[1..], p)
  }

  // ---------- writing ----------

  function EntryLines(id: string, path: string): seq<string> {
    ["  - id: " + id, "    path: " + path]
  }

  /** `appendAgentEntry()` on lines; None when there is no `agents:` line to add to. */
  function AppendEntry(lines: seq<string>, id: string, path: string): Option<seq<string>> {
    var empty := FirstAt(lines, IsEmptyAgents);
    var key := FirstAt(lines, IsAgentsKey);
    if empty < |lines| then Some(lines[..empty] + (["agents:"] + EntryLines(id, path)) + lines[empty + 1..])
    else if key == |lines| then None
    else Some(InsertAfterBlock(lines, key, EndsBlock, EntryLines(id, path)))
  }

  /** New lines before the one that ends the block opened by `lines[key]`, set off by blank lines. */
  function InsertAfterBlock(lines: seq<string>, key: nat, ends: string -> bool, e: seq<string>): seq<string>
    requires key < |lines|
  {
    var at := key + 1 + FirstAt(lines[key + 1..], ends);
    var gap := if lines[at - 1] != "" then [""] else [];
    lines[..at] + gap + e + [""] + lines[at..]
  }

  /** `appendAgentEntry()` in its own form. */
  method AppendAgentEntry(lines: seq<string>, id: string, path: string) returns (r: Option<seq<string>>)
    ensures r == AppendEntry(lines, id, path)
  {
    var empty := FirstAt(lines, IsEmptyAgents);
    if empty < |lines| {
      var replacement := ["agents:"] + EntryLines(id, path);
      return Some(lines[..empty] + replacement + lines[empty + 1..]);
    }
    var key := FirstAt(lines, IsAgentsKey);
    if key == |lines| { return None; }
    var out := AppendToBlock(lines, key, EntryLines(id, path));
    r := Some(out);
  }

  method AppendToBlock(lines: seq<string>, key: nat, e: seq<string>) returns (out: seq<string>)
    requires key < |lines|
    ensures out == InsertAfterBlock(lines, key, EndsBlock, e)
  {
    var insertAt := EndOfBlock(lines, key + 1);
    var before := lines[..insertAt];
    var gap := [];
    if before[|before| - 1] != "" { gap := [""]; }
    out := before + gap + e + [""] + lines[insertAt..];
  }

  /** Its loop: the first line from `start` on that ends the block, or the end of the file. */
  method EndOfBlock(lines: seq<string>, start: nat) returns (insertAt: nat)
    requires start <= |lines|
    ensures insertAt == start + FirstAt(lines[start..], EndsBlock)
  {
    insertAt := |lines|;
    var i := start;
    while i < |lines|
      invariant start <= i <= |lines| == insertAt
      invariant FirstAt(lines[start..], EndsBlock) == i - start + FirstAt(lines[i..], EndsBlock)
    {
      var line := lines[i];
      assert lines[i..][1..] == lines[i + 1..];
      if line == "" || IsSpace(line[0]) || line[0] == '#' {
        i := i + 1;
        continue;
      }
      return i;
    }
  }

  // ---------- reading ----------

  /** What YAML makes of the parts of a manifest: `item` of the lines of one list item, from its dash to the next item;
      `rest` of the lines before the `agents:` line and of those behind its value, namely whether they can be read at
      all; and `other` of a manifest whose agents are not written as a block list. None stands for text that cannot be
      parsed, and for agents that are not a list. */
  datatype Reader = Reader(
    item: seq<string> -> Option<Entry>,
    rest: (seq<string>, seq<string>) -> bool,
    other: seq<string> -> Option<seq<Entry>>)

  /** Blank, or a comment. */
  predicate Silent(line: string) {
    Blank(line) || Trim(line)[0] == '#'
  }

  /** The first line of a list item at an indentation. */
  predicate ItemAt(line: string, n: nat) {
    && IndentOf(line) == n && |line| > n && line[n] == '-'
    && (|line| == n + 1 || IsSpace(line[n + 1]))
  }

  /** The value of the `agents:` line ends at the next top-level key. A list may stand at the left margin. */
  predicate EndsValue(line: string) {
    EndsBlock(line) && !ItemAt(line, 0)
  }

  /** A block list with its items at an indentation. `item` holds the lines of the item being read. Every other line is
      silent or indented deeper; YAML rejects the rest. */
  function ReadItems(r: Reader, n: nat, item: seq<string>, lines: seq<string>): Option<seq<Entry>>
    decreases |lines|
  {
    if lines == [] then Cons(r.item(item), Some([]))
    else if ItemAt(lines[0], n) then Cons(r.item(item), ReadItems(r, n, [lines[0]], lines[1..]))
    else if Silent(lines[0]) || IndentOf(lines[0]) > n then ReadItems(r, n, item + [lines[0]], lines[1..])
    else None
  }

  function Cons(first: Option<Entry>, more: Option<seq<Entry>>): Option<seq<Entry>> {
    if first.Some? && more.Some? then Some([first.value] + more.value) else None
  }

  /** The only line with a property, if there is exactly one. */
  function OnlyAt(lines: seq<string>, p: string -> bool): (r: Option<nat>)
    ensures r.Some? ==> r.value < |lines| && p(lines[r.value])
  {
    var k := FirstAt(lines, p);
    if k == |lines| || FirstAt(lines[k + 1..], p) < |lines[k + 1..]| then None else Some(k)
  }

  function BlockAfter(lines: seq<string>, k: nat, ends: string -> bool): seq<string>
    requires k < |lines|
  {
    lines[k + 1..][..FirstAt(lines[k + 1..], ends)]
  }

  function FirstItem(value: seq<string>): nat {
    FirstAt(value, (line: string) => !Silent(line))
  }

  /** The indentation of the list that makes up a value, if its first line is that of an item. */
  function ListIndent(value: seq<string>): Option<nat> {
    var k := FirstItem(value);
    if k < |value| && ItemAt(value[k], IndentOf(value[k])) then Some(IndentOf(value[k])) else None
  }

  /** `[]`, a block list, or nothing, which is null to YAML. */
  predicate IsBlockValue(key: string, value: seq<string>) {
    IsEmptyAgents(key) || FirstItem(value) == |value| || ListIndent(value).Some?
  }

  function ReadValue(r: Reader, key: string, value: seq<string>): Option<seq<Entry>>
    requires IsBlockValue(key, value)
  {
    var k := FirstItem(value);
    if IsEmptyAgents(key) then if k == |value| then Some([]) else None
    else if k == |value| then None
    else ReadItems(r, IndentOf(value[k]), [value[k]], value[k + 1..])
  }

  /** The agents of a manifest. */
  function ReadAgents(r: Reader, lines: seq<string>): Option<seq<Entry>> {
    match OnlyAt(lines, IsAgentsLine)
    case None => r.other(lines)
    case Some(k) =>
      var value := BlockAfter(lines, k, EndsValue);
      if !IsBlockValue(lines[k], value) then r.other(lines)
      else if !r.rest(lines[..k], lines[k + 1 + |value|..]) then None
      else ReadValue(r, lines[k], value)
  }

  // ---------- the shapes of a manifest ----------

  /** Its agents are written as `[]` or as a block list. */
  predicate InBlockStyle(lines: seq<string>) {
    var at := OnlyAt(lines, IsAgentsLine);
    at.Some? && IsBlockValue(lines[at.value], BlockAfter(lines, at.value, EndsValue))
  }

  /** The indentation of its list; None for `[]`. */
  function Indentation(lines: seq<string>): Option<nat>
    requires InBlockStyle(lines)
  {
    var k := OnlyAt(lines, IsAgentsLine).value;
    if IsEmptyAgents(lines[k]) then None else ListIndent(BlockAfter(lines, k, EndsValue))
  }

  /** The list is empty or stands where the edit puts its items. */
  predicate Appendable(lines: seq<string>) {
    InBlockStyle(lines) && (Indentation(lines) == None || Indentation(lines) == Some(2))
  }

  predicate HasAgentsLine(lines: seq<string>) {
    exists line | line in lines :: IsAgentsLine(line)
  }

  /** What is used of YAML: it reads the item that the edit writes, with or without comments behind it, and blank lines
      behind an item change nothing. */
  ghost predicate ReadsEntries(r: Reader) {
    && (forall id, more | IsAgentId(id) && AllSilent(more) ::
          r.item(EntryLines(id, PathTo(id)) + more) == Some(Entry(id, PathTo(id))))
    && forall item :: r.item(item + [""]) == r.item(item)
  }

  predicate AllSilent(lines: seq<string>) {
    forall line | line in lines :: Silent(line)
  }

  function PathTo(id: string): string {
    "./agents/" + id
  }

  // ---------- listing an agent ----------

  predicate IsAgentId(id: string) {
    id != "" && IsAlphanumeric(id[0]) && forall c | c in id :: IsAlphanumeric(c) || c in {'_', '-'}
  }

  predicate IsAlphanumeric(c: char) {
    '0' <= c <= '9' || 'a' <= c <= 'z' || 'A' <= c <= 'Z'
  }

  datatype EditResult = Edited(manifest: string) | NotAManifest | Collision | NoAgentsLine

  /** What `addAgentFromTemplate()` and `addAgentFromPath()` do with the text of the manifest. `scalar` is YAML's
      reading of a plain scalar: Some(s) when it is the string s, None when it is a number, a boolean or null. */
  function EditManifest(r: Reader, scalar: string -> Option<string>, manifest: string, id: string): EditResult {
    var lines := SplitLines(manifest);
    match ReadAgents(r, lines)
    case None => NotAManifest
    case Some(entries) =>
      if exists e | e in entries :: scalar(e.id) == Some(id) then Collision
      else match AppendEntry(lines, id, PathTo(id))
        case None => NoAgentsLine
        case Some(out) => Edited(Join(out, "\n"))
  }
}
