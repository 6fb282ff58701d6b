/** Adding an agent to `fleet.yaml`: when the new entry is read back, and what else the text then says. */
module FleetManifestProperties {
  import opened Wrappers
  import opened Text
  import opened Sequences
  import opened FleetManifest

  predicate NoneOf(lines: seq<string>, p: string -> bool) {
    forall line | line in lines :: !p(line)
  }

  /** Lines in parts: what precedes their only line with `p`, that line, the block it opens, and what ends the block. */
  predicate Parts(
    p: string -> bool, ends: string -> bool, pre: seq<string>, key: string, block: seq<string>, tail: seq<string>)
  {
    && NoneOf(pre, p) && p(key) && NoneOf(block, p) && NoneOf(tail, p)
    && NoneOf(block, ends) && (tail == [] || ends(tail[0]))
  }

  function Assemble(pre: seq<string>, key: string, block: seq<string>, tail: seq<string>): seq<string> {
    pre + ([key] + (block + tail))
  }

  lemma {:induction false} FirstAfter(pre: seq<string>, rest: seq<string>, p: string -> bool)
    requires NoneOf(pre, p)
    ensures FirstAt(pre + rest, p) == |pre| + FirstAt(rest, p)
  {
    if pre == [] {
      assert pre + rest == rest;
    } else {
      assert (pre + rest)[1..] == pre[1..] + rest;
      assert pre[0] in pre;
      FirstAfter(pre[1..], rest, p);
    }
  }

  lemma {:induction false} NoneFound(lines: seq<string>, p: string -> bool)
    requires NoneOf(lines, p)
    ensures FirstAt(lines, p) == |lines|
  {
    if lines != [] {
      assert lines[0] in lines;
      NoneFound(lines[1..], p);
    }
  }

  lemma KeyAt(pre: seq<string>, key: string, block: seq<string>, tail: seq<string>)
    ensures var lines := Assemble(pre, key, block, tail); lines[|pre|] == key && lines[|pre| + 1..] == block + tail
  {
  }

  lemma OnlyKey(p: string -> bool, pre: seq<string>, key: string, rest: seq<string>)
    requires NoneOf(pre, p) && p(key) && NoneOf(rest, p)
    ensures OnlyAt(pre + ([key] + rest), p) == Some(|pre|)
  {
    var lines := pre + ([key] + rest);
    FirstAfter(pre, [key] + rest, p);
    assert lines[|pre| + 1..] == rest;
    NoneFound(rest, p);
  }

  lemma PartsAre(
    p: string -> bool, ends: string -> bool, pre: seq<string>, key: string, block: seq<string>, tail: seq<string>)
    requires Parts(p, ends, pre, key, block, tail)
    ensures var lines := Assemble(pre, key, block, tail);
      OnlyAt(lines, p) == Some(|pre|) && lines[|pre|] == key && BlockAfter(lines, |pre|, ends) == block
  {
    OnlyKey(p, pre, key, block + tail);
    KeyAt(pre, key, block, tail);
    FirstAfter(block, tail, ends);
    assert (block + tail)[..|block|] == block;
  }

  /** Lines with exactly one line with `p` have such parts. */
  lemma TakeApart(p: string -> bool, ends: string -> bool, lines: seq<string>)
    returns (pre: seq<string>, key: string, block: seq<string>, tail: seq<string>)
    requires OnlyAt(lines, p).Some?
    ensures Parts(p, ends, pre, key, block, tail) && lines == Assemble(pre, key, block, tail)
  {
    var k := FirstAt(lines, p);
    var rest := lines[k + 1..];
    var n := FirstAt(rest, ends);
    pre, key, block, tail := lines[..k], lines[k], rest[..n], rest[n..];
    assert rest == block + tail;
    assert tail != [] ==> tail[0] == rest[n];
  }

  predicate ManifestParts(pre: seq<string>, key: string, value: seq<string>, tail: seq<string>) {
    Parts(IsAgentsLine, EndsValue, pre, key, value, tail)
  }

  /** What the reader makes of a manifest in parts. */
  lemma ReadParts(r: Reader, pre: seq<string>, key: string, value: seq<string>, tail: seq<string>)
    requires ManifestParts(pre, key, value, tail) && IsBlockValue(key, value)
    ensures var lines := Assemble(pre, key, value, tail);
      && InBlockStyle(lines) && Indentation(lines) == (if IsEmptyAgents(key) then None else ListIndent(value))
      && ReadAgents(r, lines) == if r.rest(pre, tail) then ReadValue(r, key, value) else None
  {
    PartsAre(IsAgentsLine, EndsValue, pre, key, value, tail);
    Around(pre, key, value, tail);
  }

  lemma Around(pre: seq<string>, key: string, value: seq<string>, tail: seq<string>)
    ensures var lines := Assemble(pre, key, value, tail); lines[..|pre|] == pre && lines[|pre| + 1 + |value|..] == tail
  {
  }

  // ---------- single lines ----------

  /** What stands behind the indentation decides whether a line is silent. */
  lemma {:induction false} TrimFirst(line: string, n: nat)
    requires IndentOf(line) == n < |line| && !IsSpace(line[n])
    ensures !Blank(line) && Trim(line)[0] == line[n]
    decreases |line|
  {
    if IsSpace(line[|line| - 1]) {
      IndentOfPrefix(line, |line| - 1);
      TrimFirst(line[..|line| - 1], n);
      assert Trim(line) == Trim(line[..|line| - 1]);
    } else {
      SkipBlanks(line);
    }
  }

  lemma {:induction false} IndentOfPrefix(line: string, k: nat)
    requires IndentOf(line) < k <= |line|
    ensures IndentOf(line[..k]) == IndentOf(line)
  {
    if line[0] == ' ' {
      assert line[..k][1..] == line[1..][..k - 1];
      IndentOfPrefix(line[1..], k - 1);
    }
  }

  lemma {:induction false} SkipBlanks(line: string)
    requires IndentOf(line) < |line| && !IsSpace(line[IndentOf(line)])
    ensures TrimStart(line) == line[IndentOf(line)..]
  {
    if line[0] == ' ' {
      SkipBlanks(line[1..]);
      assert line[IndentOf(line)..] == line[1..][IndentOf(line[1..])..];
    }
  }

  lemma ItemIsLoud(line: string, n: nat)
    requires ItemAt(line, n)
    ensures !Silent(line)
  {
    TrimFirst(line, n);
  }

  lemma EntryLinesAre(id: string, path: string)
    ensures var e := EntryLines(id, path);
      && |e| == 2 && ItemAt(e[0], 2) && !Silent(e[0]) && IndentOf(e[0]) == 2 && IndentOf(e[1]) == 4
      && NoneOf(e, IsAgentsLine) && NoneOf(e, EndsBlock)
  {
    var e := EntryLines(id, path);
    assert e[0][0] == ' ' && e[0][1] == ' ' && e[0][2] == '-' && e[0][3] == ' ';
    assert e[1][0] == ' ' && e[1][1] == ' ' && e[1][2] == ' ' && e[1][3] == ' ' && e[1][4] == 'p';
    assert "agents:"[0] == 'a';
    IndentIs(e[0], 2);
    IndentIs(e[1], 4);
    ItemIsLoud(e[0], 2);
  }

  lemma {:induction false} IndentIs(line: string, n: nat)
    requires n < |line| && line[n] != ' ' && forall i | 0 <= i < n :: line[i] == ' '
    ensures IndentOf(line) == n
  {
    if n > 0 { IndentIs(line[1..], n - 1); }
  }

  lemma BlankLine()
    ensures Silent("") && (forall n :: !ItemAt("", n)) && NoneOf([""], IsAgentsLine) && NoneOf([""], EndsBlock)
  {
  }

  lemma KeyLine()
    ensures IsAgentsKey("agents:") && !IsEmptyAgents("agents:")
  {
    assert "agents:"[7..] == "";
  }

  // ---------- items ----------

  /** A line that cannot stand in a list with items at an indentation. */
  predicate Misplaced(line: string, n: nat) {
    !ItemAt(line, n) && !Silent(line) && IndentOf(line) <= n
  }

  lemma {:induction false} MisplacedRejects(r: Reader, n: nat, item: seq<string>, lines: seq<string>, k: nat)
    requires k < |lines| && Misplaced(lines[k], n)
    ensures ReadItems(r, n, item, lines) == None
    decreases |lines|
  {
    if k > 0 {
      MisplacedRejects(r, n, item + [lines[0]], lines[1..], k - 1);
      MisplacedRejects(r, n, [lines[0]], lines[1..], k - 1);
    }
  }

  function ItemCount(lines: seq<string>, n: nat): nat {
    if lines == [] then 0 else (if ItemAt(lines[0], n) then 1 else 0) + ItemCount(lines[1..], n)
  }

  lemma {:induction false} CountConcat(a: seq<string>, b: seq<string>, n: nat)
    ensures ItemCount(a + b, n) == ItemCount(a, n) + ItemCount(b, n)
  {
    if a == [] {
      assert a + b == b;
    } else {
      assert (a + b)[1..] == a[1..] + b;
      CountConcat(a[1..], b, n);
    }
  }

  lemma {:induction false} AsManyAsItems(r: Reader, n: nat, item: seq<string>, lines: seq<string>)
    requires ReadItems(r, n, item, lines).Some?
    ensures |ReadItems(r, n, item, lines).value| == 1 + ItemCount(lines, n)
    decreases |lines|
  {
    if lines != [] {
      if ItemAt(lines[0], n) {
        AsManyAsItems(r, n, [lines[0]], lines[1..]);
      } else {
        AsManyAsItems(r, n, item + [lines[0]], lines[1..]);
      }
    }
  }

  /** Silent and deeper lines belong to the item before them. */
  lemma {:induction false} LastItem(r: Reader, n: nat, item: seq<string>, lines: seq<string>)
    requires forall line | line in lines :: !ItemAt(line, n) && (Silent(line) || IndentOf(line) > n)
    ensures ReadItems(r, n, item, lines) == Cons(r.item(item + lines), Some([]))
    decreases |lines|
  {
    if lines == [] {
      assert item + lines == item;
    } else {
      assert lines[0] in lines;
      LastItem(r, n, item + [lines[0]], lines[1..]);
      assert item + [lines[0]] + lines[1..] == item + lines;
    }
  }

  /** More items behind a list. */
  lemma {:induction false} MoreItems(r: Reader, n: nat, item: seq<string>, lines: seq<string>, more: seq<string>)
    requires more != [] && ItemAt(more[0], n)
    requires ReadItems(r, n, item, lines).Some? && ReadItems(r, n, [more[0]], more[1..]).Some?
    ensures ReadItems(r, n, item, lines + more)
      == Some(ReadItems(r, n, item, lines).value + ReadItems(r, n, [more[0]], more[1..]).value)
    decreases |lines|
  {
    if lines == [] {
      assert lines + more == more;
      var rest := ReadItems(r, n, [more[0]], more[1..]).value;
      assert [r.item(item).value] + [] + rest == [r.item(item).value] + rest;
    } else {
      assert (lines + more)[1..] == lines[1..] + more;
      if ItemAt(lines[0], n) {
        MoreItems(r, n, [lines[0]], lines[1..], more);
        ConsAssoc(r.item(item).value, ReadItems(r, n, [lines[0]], lines[1..]).value,
                  ReadItems(r, n, [more[0]], more[1..]).value);
      } else {
        MoreItems(r, n, item + [lines[0]], lines[1..], more);
      }
    }
  }

  lemma ConsAssoc(e: Entry, a: seq<Entry>, b: seq<Entry>)
    ensures [e] + (a + b) == [e] + a + b
  {
  }

  lemma {:induction false} BlankBehind(r: Reader, n: nat, item: seq<string>, lines: seq<string>)
    requires ReadsEntries(r)
    ensures ReadItems(r, n, item, lines + [""]) == ReadItems(r, n, item, lines)
    decreases |lines|
  {
    BlankLine();
    if lines == [] {
      assert lines + [""] == [""] && [""][1..] == [];
      assert r.item(item + [""]) == r.item(item);
    } else {
      assert (lines + [""])[1..] == lines[1..] + [""];
      BlankBehind(r, n, item + [lines[0]], lines[1..]);
      BlankBehind(r, n, [lines[0]], lines[1..]);
    }
  }

  /** The written item and silent lines behind it. */
  lemma WrittenItem(r: Reader, id: string, more: seq<string>)
    requires ReadsEntries(r) && IsAgentId(id) && AllSilent(more)
    ensures var e := EntryLines(id, PathTo(id));
      ReadItems(r, 2, [e[0]], [e[1]] + more) == Some([Entry(id, PathTo(id))])
  {
    var e := EntryLines(id, PathTo(id));
    EntryLinesAre(id, PathTo(id));
    forall line | line in [e[1]] + more ensures !ItemAt(line, 2) && (Silent(line) || IndentOf(line) > 2) {
      if line in more && ItemAt(line, 2) { ItemIsLoud(line, 2); }
    }
    LastItem(r, 2, [e[0]], [e[1]] + more);
    assert [e[0]] + ([e[1]] + more) == e + more;
    var entry := Entry(id, PathTo(id));
    assert r.item(e + more) == Some(entry) && [entry] + [] == [entry];
  }

  // ---------- appending ----------

  /** Replacing the line: the block grows at its start. */
  lemma Replaced(pre: seq<string>, key: string, block: seq<string>, tail: seq<string>, key': string, e: seq<string>)
    ensures var lines := Assemble(pre, key, block, tail);
      lines[..|pre|] + ([key'] + e) + lines[|pre| + 1..] == Assemble(pre, key', e + block, tail)
  {
    var lines := Assemble(pre, key, block, tail);
    assert lines[..|pre|] == pre && lines[|pre| + 1..] == block + tail;
    assert pre + ([key'] + e) + (block + tail) == pre + ([key'] + ((e + block) + tail));
  }

  function Gap(key: string, block: seq<string>): seq<string> {
    if ([key] + block)[|block|] != "" then [""] else []
  }

  lemma SplitAt(pre: seq<string>, key: string, block: seq<string>, tail: seq<string>)
    ensures var lines := Assemble(pre, key, block, tail); var at := |pre| + 1 + |block|;
      lines[..at] == pre + ([key] + block) && lines[at..] == tail && lines[at - 1] == ([key] + block)[|block|]
  {
  }

  lemma KeyFirst(key: string, block: seq<string>, gap: seq<string>, more: seq<string>, tail: seq<string>)
    ensures ([key] + block) + gap + more + tail == [key] + ((block + gap + more) + tail)
  {
  }

  lemma GrownIs(
    pre: seq<string>, key: string, block: seq<string>, tail: seq<string>, gap: seq<string>, e: seq<string>)
    ensures pre + ([key] + block) + gap + e + [""] + tail == Assemble(pre, key, block + gap + (e + [""]), tail)
  {
    var all := [key] + block;
    Regroup(pre + all + gap, e, [""]);
    Regroup(pre, all, gap);
    Regroup(pre, all + gap, e + [""]);
    Regroup(pre, all + gap + (e + [""]), tail);
    KeyFirst(key, block, gap, e + [""], tail);
  }

  lemma BlockEndsAt(pre: seq<string>, key: string, block: seq<string>, tail: seq<string>, ends: string -> bool)
    requires NoneOf(block, ends) && (tail == [] || ends(tail[0]))
    ensures FirstAt(Assemble(pre, key, block, tail)[|pre| + 1..], ends) == |block|
  {
    KeyAt(pre, key, block, tail);
    FirstAfter(block, tail, ends);
  }

  /** Inserting after the block: it grows at its end. */
  lemma Inserted(
    pre: seq<string>, key: string, block: seq<string>, tail: seq<string>, ends: string -> bool, e: seq<string>)
    requires NoneOf(block, ends) && (tail == [] || ends(tail[0]))
    ensures InsertAfterBlock(Assemble(pre, key, block, tail), |pre|, ends, e)
      == Assemble(pre, key, block + Gap(key, block) + (e + [""]), tail)
  {
    BlockEndsAt(pre, key, block, tail, ends);
    SplitAt(pre, key, block, tail);
    GrownIs(pre, key, block, tail, Gap(key, block), e);
  }

  lemma AppendToEmpty(pre: seq<string>, key: string, block: seq<string>, tail: seq<string>, id: string, path: string)
    requires NoneOf(pre, IsEmptyAgents) && IsEmptyAgents(key)
    ensures AppendEntry(Assemble(pre, key, block, tail), id, path)
      == Some(Assemble(pre, "agents:", EntryLines(id, path) + block, tail))
  {
    FirstAfter(pre, [key] + (block + tail), IsEmptyAgents);
    Replaced(pre, key, block, tail, "agents:", EntryLines(id, path));
  }

  lemma AppendToList(pre: seq<string>, key: string, block: seq<string>, tail: seq<string>, id: string, path: string)
    requires NoneOf(Assemble(pre, key, block, tail), IsEmptyAgents) && NoneOf(pre, IsAgentsKey) && IsAgentsKey(key)
    requires NoneOf(block, EndsBlock) && (tail == [] || EndsBlock(tail[0]))
    ensures AppendEntry(Assemble(pre, key, block, tail), id, path)
      == Some(Assemble(pre, key, block + Gap(key, block) + (EntryLines(id, path) + [""]), tail))
  {
    NoneFound(Assemble(pre, key, block, tail), IsEmptyAgents);
    FirstAfter(pre, [key] + (block + tail), IsAgentsKey);
    Inserted(pre, key, block, tail, EndsBlock, EntryLines(id, path));
  }

  /** No line but the `agents:` line is of either form. */
  lemma Forms(lines: seq<string>)
    requires NoneOf(lines, IsAgentsLine)
    ensures NoneOf(lines, IsEmptyAgents) && NoneOf(lines, IsAgentsKey)
  {
    forall line | line in lines ensures !IsEmptyAgents(line) && !IsAgentsKey(line) { assert !IsAgentsLine(line); }
  }

  lemma NewParts(
    pre: seq<string>, key: string, value: seq<string>, tail: seq<string>, key': string, a: seq<string>, e: seq<string>,
    b: seq<string>)
    requires ManifestParts(pre, key, value, tail) && IsAgentsLine(key')
    requires forall line | line in a + b :: line in value
    requires NoneOf(e, IsAgentsLine) && NoneOf(e, EndsBlock)
    ensures ManifestParts(pre, key', a + e + b, tail)
  {
    forall line | line in a + e + b ensures !IsAgentsLine(line) && !EndsValue(line) {
      assert line in e || line in a + b;
    }
  }

  // ---------- where the list stands ----------

  /** The list of a value: silent lines, the first line of an item, and the lines behind it. */
  predicate ListParts(value: seq<string>, n: nat, before: seq<string>, first: string, behind: seq<string>) {
    value == before + ([first] + behind) && AllSilent(before) && ItemAt(first, n)
  }

  lemma TakeList(value: seq<string>) returns (before: seq<string>, first: string, behind: seq<string>)
    requires ListIndent(value).Some?
    ensures ListParts(value, ListIndent(value).value, before, first, behind)
  {
    var k := FirstItem(value);
    before, first, behind := value[..k], value[k], value[k + 1..];
    forall line | line in before ensures Silent(line) { var j :| 0 <= j < k && value[j] == line; }
  }

  lemma ListReads(
    r: Reader, key: string, value: seq<string>, n: nat, before: seq<string>, first: string, behind: seq<string>)
    requires ListParts(value, n, before, first, behind) && !IsEmptyAgents(key)
    ensures ListIndent(value) == Some(n) && IsBlockValue(key, value)
    ensures ReadValue(r, key, value) == ReadItems(r, n, [first], behind)
  {
    var loud := (line: string) => !Silent(line);
    ItemIsLoud(first, n);
    FirstAfter(before, [first] + behind, loud);
    assert FirstItem(value) == |before|;
    assert value[|before|] == first && value[|before| + 1..] == behind;
  }

  lemma NothingLoud(value: seq<string>)
    requires FirstItem(value) == |value|
    ensures AllSilent(value)
  {
    forall line | line in value ensures Silent(line) { var j :| 0 <= j < |value| && value[j] == line; }
  }

  lemma OnlyWritten(r: Reader, id: string, value: seq<string>)
    requires ReadsEntries(r) && IsAgentId(id) && AllSilent(value)
    ensures var value' := EntryLines(id, PathTo(id)) + value;
      && ListIndent(value') == Some(2) && IsBlockValue("agents:", value')
      && ReadValue(r, "agents:", value') == Some([Entry(id, PathTo(id))])
  {
    var e := EntryLines(id, PathTo(id));
    EntryLinesAre(id, PathTo(id));
    KeyLine();
    assert e + value == [] + ([e[0]] + ([e[1]] + value));
    ListReads(r, "agents:", e + value, 2, [], e[0], [e[1]] + value);
    WrittenItem(r, id, value);
  }

  /** `[]`: the new list has the new item only. */
  lemma EmptyReads(r: Reader, key: string, value: seq<string>, id: string)
    requires ReadsEntries(r) && IsAgentId(id) && IsEmptyAgents(key) && ReadValue(r, key, value).Some?
    ensures var value' := EntryLines(id, PathTo(id)) + value;
      && ListIndent(value') == Some(2) && IsBlockValue("agents:", value')
      && ReadValue(r, "agents:", value') == Some([Entry(id, PathTo(id))])
  {
    NothingLoud(value);
    OnlyWritten(r, id, value);
  }

  /** The new item behind a list: it is read as the next one exactly at indentation two. */
  lemma BehindReads(
    r: Reader, key: string, n: nat, before: seq<string>, first: string, behind: seq<string>, gap: seq<string>,
    id: string)
    requires ReadsEntries(r) && IsAgentId(id) && !IsEmptyAgents(key) && ItemAt(first, n) && AllSilent(before)
    requires ReadItems(r, n, [first], behind).Some? && (gap == [] || gap == [""])
    ensures var value' := before + ([first] + behind) + gap + (EntryLines(id, PathTo(id)) + [""]);
      && ListIndent(value') == Some(n) && IsBlockValue(key, value')
      && var read, old_ := ReadValue(r, key, value'), ReadItems(r, n, [first], behind).value;
         && (read == Some(old_ + [Entry(id, PathTo(id))]) <==> n == 2)
         && (n > 2 ==> read == None)
  {
    var e := EntryLines(id, PathTo(id));
    var more := e + [""];
    var value' := before + ([first] + behind) + gap + more;
    var behind' := behind + gap + more;
    EntryLinesAre(id, PathTo(id));
    BlankLine();
    assert value' == before + ([first] + behind');
    ListReads(r, key, value', n, before, first, behind');
    if n == 2 {
      NextReads(r, first, behind, gap, id);
    } else if n > 2 {
      assert behind'[|behind + gap|] == e[0];
      MisplacedRejects(r, n, [first], behind', |behind + gap|);
    } else {
      TooShallow(r, n, first, behind, gap, id);
    }
  }

  lemma NextReads(r: Reader, first: string, behind: seq<string>, gap: seq<string>, id: string)
    requires ReadsEntries(r) && IsAgentId(id) && ReadItems(r, 2, [first], behind).Some? && (gap == [] || gap == [""])
    ensures ReadItems(r, 2, [first], behind + gap + (EntryLines(id, PathTo(id)) + [""]))
      == Some(ReadItems(r, 2, [first], behind).value + [Entry(id, PathTo(id))])
  {
    var e := EntryLines(id, PathTo(id));
    var more := e + [""];
    EntryLinesAre(id, PathTo(id));
    BlankLine();
    GapReads(r, 2, [first], behind, gap);
    assert more[0] == e[0] && more[1..] == [e[1]] + [""];
    WrittenItem(r, id, [""]);
    MoreItems(r, 2, [first], behind + gap, more);
  }

  lemma GapReads(r: Reader, n: nat, item: seq<string>, lines: seq<string>, gap: seq<string>)
    requires ReadsEntries(r) && (gap == [] || gap == [""])
    ensures ReadItems(r, n, item, lines + gap) == ReadItems(r, n, item, lines)
  {
    if gap == [] { assert lines + gap == lines; } else { BlankBehind(r, n, item, lines); }
  }

  /** Below items further left, the new lines belong to the last item. */
  lemma TooShallow(
    r: Reader, n: nat, first: string, behind: seq<string>, gap: seq<string>, id: string)
    requires n < 2 && ReadItems(r, n, [first], behind).Some? && (gap == [] || gap == [""])
    ensures var read := ReadItems(r, n, [first], behind + gap + (EntryLines(id, PathTo(id)) + [""]));
      read.Some? ==> |read.value| == |ReadItems(r, n, [first], behind).value|
  {
    var e := EntryLines(id, PathTo(id));
    var added := gap + (e + [""]);
    EntryLinesAre(id, PathTo(id));
    BlankLine();
    assert behind + gap + (e + [""]) == behind + added;
    AsManyAsItems(r, n, [first], behind);
    CountConcat(behind, added, n);
    CountNone(added, n);
    if ReadItems(r, n, [first], behind + added).Some? { AsManyAsItems(r, n, [first], behind + added); }
  }

  lemma {:induction false} CountNone(lines: seq<string>, n: nat)
    requires forall line | line in lines :: !ItemAt(line, n)
    ensures ItemCount(lines, n) == 0
  {
    if lines != [] {
      assert lines[0] in lines;
      CountNone(lines[1..], n);
    }
  }

  /** A list at the left margin ends the block the edit looks for, so the new item comes to stand in front of it. */
  lemma BeforeReads(r: Reader, key: string, silent: seq<string>, gap: seq<string>, items: seq<string>, id: string)
    requires IsAgentId(id) && !IsEmptyAgents(key) && AllSilent(silent) && (gap == [] || gap == [""])
    requires items != [] && ItemAt(items[0], 0)
    ensures var value' := silent + gap + (EntryLines(id, PathTo(id)) + [""]) + items;
      ListIndent(value') == Some(2) && IsBlockValue(key, value') && ReadValue(r, key, value') == None
  {
    var e := EntryLines(id, PathTo(id));
    var behind' := [e[1]] + [""] + items;
    EntryLinesAre(id, PathTo(id));
    BlankLine();
    assert silent + gap + (e + [""]) + items == (silent + gap) + ([e[0]] + behind');
    ListReads(r, key, silent + gap + (e + [""]) + items, 2, silent + gap, e[0], behind');
    ItemIsLoud(items[0], 0);
    assert behind'[2] == items[0];
    MisplacedRejects(r, 2, [e[0]], behind', 2);
  }

  // ---------- the whole manifest ----------

  /** Where the edit adds to a list: to `[]`, or behind items indented by two blanks. */
  predicate Meets(at: Option<nat>) {
    at == None || at == Some(2)
  }

  /** What is read of a new value, by the indentation of the old list. */
  predicate ValueExtends(
    r: Reader, at: Option<nat>, key': string, value': seq<string>, entries: seq<Entry>, id: string)
  {
    && !IsEmptyAgents(key') && ListIndent(value').Some? && IsBlockValue(key', value')
    && (ReadValue(r, key', value') == Some(entries + [Entry(id, PathTo(id))]) <==> Meets(at))
    && (Meets(at) ==> ListIndent(value') == Some(2))
    && (!Meets(at) && at != Some(1) ==> ReadValue(r, key', value') == None)
  }

  /** What is read of an edited manifest. At indentation one the new lines fall into the last item. */
  predicate Extends(r: Reader, at: Option<nat>, out: seq<string>, entries: seq<Entry>, id: string) {
    && InBlockStyle(out)
    && (ReadAgents(r, out) == Some(entries + [Entry(id, PathTo(id))]) <==> Meets(at))
    && (Meets(at) ==> Appendable(out))
    && (!Meets(at) && at != Some(1) ==> ReadAgents(r, out) == None)
  }

  lemma Lift(
    r: Reader, at: Option<nat>, pre: seq<string>, key': string, value': seq<string>, tail: seq<string>,
    entries: seq<Entry>, id: string)
    requires ManifestParts(pre, key', value', tail) && r.rest(pre, tail)
    requires ValueExtends(r, at, key', value', entries, id)
    ensures Extends(r, at, Assemble(pre, key', value', tail), entries, id)
  {
    ReadParts(r, pre, key', value', tail);
  }

  predicate EditReads(r: Reader, at: Option<nat>, lines: seq<string>, id: string, entries: seq<Entry>) {
    var out := AppendEntry(lines, id, PathTo(id));
    out.Some? && Extends(r, at, out.value, entries, id)
  }

  lemma TakeManifestApart(r: Reader, lines: seq<string>)
    returns (pre: seq<string>, key: string, value: seq<string>, tail: seq<string>)
    requires InBlockStyle(lines) && ReadAgents(r, lines).Some?
    ensures ManifestParts(pre, key, value, tail) && lines == Assemble(pre, key, value, tail) && r.rest(pre, tail)
    ensures IsBlockValue(key, value) && ReadAgents(r, lines) == ReadValue(r, key, value)
    ensures Indentation(lines) == if IsEmptyAgents(key) then None else ListIndent(value)
    ensures !IsEmptyAgents(key) ==> IsAgentsKey(key) && ListIndent(value).Some?
  {
    pre, key, value, tail := TakeApart(IsAgentsLine, EndsValue, lines);
    PartsAre(IsAgentsLine, EndsValue, pre, key, value, tail);
    ReadParts(r, pre, key, value, tail);
  }

  lemma EmptyManifest(r: Reader, pre: seq<string>, key: string, value: seq<string>, tail: seq<string>, id: string)
    requires ManifestParts(pre, key, value, tail) && IsEmptyAgents(key) && ReadsEntries(r) && IsAgentId(id)
    requires r.rest(pre, tail) && ReadValue(r, key, value).Some?
    ensures EditReads(r, None, Assemble(pre, key, value, tail), id, [])
  {
    var e := EntryLines(id, PathTo(id));
    Forms(pre);
    AppendToEmpty(pre, key, value, tail, id, PathTo(id));
    EmptyReads(r, key, value, id);
    EntryLinesAre(id, PathTo(id));
    KeyLine();
    assert [] + e + value == e + value && [] + value == value;
    NewParts(pre, key, value, tail, "agents:", [], e, value);
    assert [] + [Entry(id, PathTo(id))] == [Entry(id, PathTo(id))];
    Lift(r, None, pre, "agents:", e + value, tail, [], id);
  }

  /** The value up to the first line that ends the block for the edit: a list at the left margin begins there. */
  lemma TakeBlock(value: seq<string>) returns (block: seq<string>, items: seq<string>)
    requires NoneOf(value, EndsValue) && ListIndent(value).Some?
    ensures value == block + items && NoneOf(block, EndsBlock)
    ensures items != [] ==> EndsBlock(items[0]) && ItemAt(items[0], 0)
    ensures ListIndent(value) == Some(0) ==> AllSilent(block) && items != []
  {
    var k := FirstAt(value, EndsBlock);
    block, items := value[..k], value[k..];
    forall line | line in block ensures !EndsBlock(line) { var j :| 0 <= j < k && value[j] == line; }
    if items != [] { assert items[0] == value[k] && value[k] in value; }
    if ListIndent(value) == Some(0) {
      var first := FirstItem(value);
      assert EndsBlock(value[first]);
      forall line | line in block ensures Silent(line) { var j :| 0 <= j < k && value[j] == line; }
    }
  }

  /** A line that neither is silent nor begins an item does not stand before the first item. */
  lemma LoudBehind(
    value: seq<string>, n: nat, before: seq<string>, first: string, behind: seq<string>, k: nat)
    requires ListParts(value, n, before, first, behind) && k < |value| && !Silent(value[k]) && !ItemAt(value[k], n)
    ensures |before| < k && behind[k - |before| - 1] == value[k]
  {
    assert forall j | 0 <= j < |before| :: value[j] in before;
    assert value[|before|] == first;
  }

  /** A list that reads does not have a line at the left margin unless all its items stand there. */
  lemma BlockIsAll(r: Reader, key: string, value: seq<string>, block: seq<string>, items: seq<string>)
    requires !IsEmptyAgents(key) && value == block + items && ListIndent(value).Some? && ListIndent(value) != Some(0)
    requires ReadValue(r, key, value).Some? && (items != [] ==> ItemAt(items[0], 0))
    ensures items == []
  {
    if items != [] {
      var before, first, behind := TakeList(value);
      var n := ListIndent(value).value;
      ListReads(r, key, value, n, before, first, behind);
      ItemIsLoud(items[0], 0);
      assert value[|block|] == items[0];
      LoudBehind(value, n, before, first, behind, |block|);
      MisplacedRejects(r, n, [first], behind, |block| - |before| - 1);
    }
  }

  lemma ListAppends(
    pre: seq<string>, key: string, block: seq<string>, items: seq<string>, tail: seq<string>, id: string)
    requires ManifestParts(pre, key, block + items, tail) && IsAgentsKey(key) && !IsEmptyAgents(key)
    requires NoneOf(block, EndsBlock) && (items != [] ==> EndsBlock(items[0]))
    ensures var value' := block + (Gap(key, block) + (EntryLines(id, PathTo(id)) + [""])) + items;
      && AppendEntry(Assemble(pre, key, block + items, tail), id, PathTo(id))
           == Some(Assemble(pre, key, value', tail))
      && ManifestParts(pre, key, value', tail)
  {
    var gap, e := Gap(key, block), EntryLines(id, PathTo(id)) + [""];
    Forms(pre);
    Forms(block + items + tail);
    Regroup(block, items, tail);
    AppendToList(pre, key, block, items + tail, id, PathTo(id));
    EntryLinesAre(id, PathTo(id));
    BlankLine();
    Regroup(block, gap, e);
    Regroup(block + gap + e, items, tail);
    NewParts(pre, key, block + items, tail, key, block, gap + e, items);
  }

  lemma ListExtends(
    r: Reader, key: string, value: seq<string>, block: seq<string>, items: seq<string>, gap: seq<string>, id: string)
    requires ReadsEntries(r) && IsAgentId(id) && !IsEmptyAgents(key) && (gap == [] || gap == [""])
    requires ListIndent(value).Some? && ReadValue(r, key, value).Some?
    requires value == block + items && (items != [] ==> ItemAt(items[0], 0))
    requires ListIndent(value) == Some(0) ==> AllSilent(block) && items != []
    ensures var value' := block + gap + (EntryLines(id, PathTo(id)) + [""]) + items;
      ValueExtends(r, ListIndent(value), key, value', ReadValue(r, key, value).value, id)
  {
    if ListIndent(value) == Some(0) {
      BeforeReads(r, key, block, gap, items, id);
    } else {
      BlockIsAll(r, key, value, block, items);
      var value' := value + gap + (EntryLines(id, PathTo(id)) + [""]);
      assert block == value && value' + [] == value';
      var before, first, behind := TakeList(value);
      ListReads(r, key, value, ListIndent(value).value, before, first, behind);
      BehindReads(r, key, ListIndent(value).value, before, first, behind, gap, id);
    }
  }

  lemma ListManifest(r: Reader, pre: seq<string>, key: string, value: seq<string>, tail: seq<string>, id: string)
    requires ManifestParts(pre, key, value, tail) && IsAgentsKey(key) && !IsEmptyAgents(key)
    requires ReadsEntries(r) && IsAgentId(id) && r.rest(pre, tail)
    requires ListIndent(value).Some? && ReadValue(r, key, value).Some?
    ensures EditReads(r, ListIndent(value), Assemble(pre, key, value, tail), id, ReadValue(r, key, value).value)
  {
    var block, items := TakeBlock(value);
    var gap, e := Gap(key, block), EntryLines(id, PathTo(id)) + [""];
    ListAppends(pre, key, block, items, tail, id);
    ListExtends(r, key, value, block, items, gap, id);
    Regroup(block, gap, e);
    Lift(r, ListIndent(value), pre, key, block + (gap + e) + items, tail, ReadValue(r, key, value).value, id);
  }

  /** Appending to a manifest that reads, with its agents written as `[]` or as a block list, adds exactly one entry at
      the end if and only if the list is empty or its items are indented by two blanks; and then the new manifest is of
      that kind again. Otherwise no such list is read: a list at the left margin or indented deeper than two comes to
      stand next to an item of another indentation, which YAML rejects. */
  lemma AppendReads(r: Reader, lines: seq<string>, id: string)
    requires ReadsEntries(r) && IsAgentId(id) && InBlockStyle(lines) && ReadAgents(r, lines).Some?
    ensures EditReads(r, Indentation(lines), lines, id, ReadAgents(r, lines).value)
    ensures Meets(Indentation(lines)) <==> Appendable(lines)
  {
    var pre, key, value, tail := TakeManifestApart(r, lines);
    if IsEmptyAgents(key) {
      EmptyManifest(r, pre, key, value, tail, id);
    } else {
      ListManifest(r, pre, key, value, tail, id);
    }
  }
}
