/** The append-only deploy history of packages/cli/src/fleet-deploy-cli.ts and the last-deploy index that
    packages/cli/src/fleet-status-cli.ts builds over it. */
module DeployHistory {
  import opened Wrappers
  import opened Text

  /** `JSON.stringify` and `JSON.parse`; `dec` is None where parsing throws. */
  datatype Codec<!R> = Codec(enc: R -> string, dec: string -> Option<R>)

  /** What is used of JSON: a record prints on one line that is not blank and parses back. */
  ghost predicate Faithful<R(!new)>(c: Codec<R>) {
    forall r :: OneLine(c.enc(r)) && !Blank(c.enc(r)) && c.dec(Trim(c.enc(r))) == Some(r)
  }

  // ---------- reading and appending ----------

  function ParseLine<R>(c: Codec<R>, rawLine: string): seq<R> {
    var line := Trim(rawLine);
    if line == "" then []
    else
      match c.dec(line)
      case Some(r) => [r]
      case None => []
  }

  function ParseLines<R>(c: Codec<R>, lines: seq<string>): seq<R> {
    if lines == [] then [] else ParseLine(c, lines[0]) + ParseLines(c, lines[1..])
  }

  /** `readDeployHistory`: the file text, or None when there is no file. */
  function Read<R>(c: Codec<R>, file: Option<string>): seq<R> {
    match file
    case None => []
    case Some(text) => ParseLines(c, SplitLines(text))
  }

  predicate EndsWithNewline(s: string) {
    s != "" && s[|s| - 1] == '\n'
  }

  /** `appendDeployRecord`: the new file text. */
  function Append<R>(c: Codec<R>, file: Option<string>, r: R): string {
    var existing := if file.Some? then file.value else "";
    var next := if EndsWithNewline(existing) || existing == "" then existing else existing + "\n";
    next + c.enc(r) + "\n"
  }

  function AppendAll<R>(c: Codec<R>, file: Option<string>, rs: seq<R>): Option<string>
    decreases |rs|
  {
    if rs == [] then file else AppendAll(c, Some(Append(c, file, rs[0])), rs[1..])
  }

  /** One more character in front of lines goes to the first of them, or makes a new one. */
  function Push(c: char, lines: seq<string>): seq<string>
    requires lines != []
  {
    if c == '\n' then [""] + lines else [[c] + lines[0]] + lines[1..]
  }

  lemma SplitPush(s: string)
    requires s != ""
    ensures SplitLines(s) == Push(s[0], SplitLines(s[1..]))
  {
  }

  lemma PushConcat(c: char, a: seq<string>, b: seq<string>)
    requires a != []
    ensures Push(c, a + b) == Push(c, a) + b
  {
    assert (a + b)[1..] == a[1..] + b;
  }

  lemma {:induction false} SplitConcat(a: string, b: string)
    ensures SplitLines(a + "\n" + b) == SplitLines(a) + SplitLines(b)
  {
    var s := a + "\n" + b;
    SplitPush(s);
    if a == "" {
      assert s[0] == '\n' && s[1..] == b;
    } else {
      assert s[0] == a[0] && s[1..] == a[1..] + "\n" + b;
      SplitConcat(a[1..], b);
      SplitPush(a);
      PushConcat(a[0], SplitLines(a[1..]), SplitLines(b));
    }
  }

  lemma {:induction false} ParseConcat<R>(c: Codec<R>, a: seq<string>, b: seq<string>)
    ensures ParseLines(c, a + b) == ParseLines(c, a) + ParseLines(c, b)
  {
    if a == [] {
      assert a + b == b;
    } else {
      assert (a + b)[1..] == a[1..] + b;
      ParseConcat(c, a[1..], b);
    }
  }

  lemma ParseBlank<R>(c: Codec<R>)
    ensures ParseLines(c, [""]) == []
  {
    assert [""][1..] == [];
  }

  /** The lines a complete record adds: its own, and the empty one behind its line break. */
  lemma RecordLines<R(!new)>(c: Codec<R>, r: R)
    requires Faithful(c)
    ensures ParseLines(c, SplitLines(c.enc(r) + "\n")) == [r]
  {
    SplitConcat(c.enc(r), "");
    assert c.enc(r) + "\n" + "" == c.enc(r) + "\n";
    SplitOneLine(c.enc(r));
    assert SplitLines(c.enc(r) + "\n") == [c.enc(r)] + [""];
    ParseBlank(c);
    assert ([c.enc(r)] + [""])[1..] == [""];
  }

  /** Whatever the file holds, be it torn in the middle of a line, appending a record and reading back gives what was
      readable before, then exactly the new record. */
  lemma AppendReads<R(!new)>(c: Codec<R>, file: Option<string>, r: R)
    requires Faithful(c)
    ensures Read(c, Some(Append(c, file, r))) == Read(c, file) + [r]
  {
    RecordLines(c, r);
    LineReads(c, file, r, c.enc(r) + "\n");
  }

  lemma LineReads<R>(c: Codec<R>, file: Option<string>, r: R, line: string)
    requires line == c.enc(r) + "\n" && ParseLines(c, SplitLines(line)) == [r]
    ensures Read(c, Some(Append(c, file, r))) == Read(c, file) + [r]
  {
    var body, closed := AppendShape(c, file, r, line);
    var text := Append(c, file, r);
    if text == line {
      ParseBlank(c);
    } else {
      ReadsAcross(c, body, line);
      var before := ParseLines(c, SplitLines(body));
      assert Read(c, Some(text)) == before + [r];
      BodyReads(c, file.value, body, closed, before);
    }
  }

  lemma BodyReads<R>(c: Codec<R>, existing: string, body: string, closed: bool, before: seq<R>)
    requires before == ParseLines(c, SplitLines(body)) && existing == if closed then body + "\n" + "" else body
    ensures Read(c, Some(existing)) == before
  {
    if closed {
      ReadsAcross(c, body, "");
      ParseBlank(c);
      assert before + [] == before;
    }
  }

  /** The appended line either is the whole file or follows a line break; `closed` tells that the break was there. */
  lemma AppendShape<R>(c: Codec<R>, file: Option<string>, r: R, line: string) returns (body: string, closed: bool)
    requires line == c.enc(r) + "\n"
    ensures Append(c, file, r) == line || Append(c, file, r) == body + "\n" + line
    ensures Append(c, file, r) == line ==> Read(c, file) == ParseLines(c, [""])
    ensures Append(c, file, r) != line ==> file == Some(if closed then body + "\n" + "" else body)
  {
    var existing := if file.Some? then file.value else "";
    closed := EndsWithNewline(existing);
    body := if closed then existing[..|existing| - 1] else existing;
    if closed { assert existing == body + "\n" + ""; }
    assert existing == "" ==> "" + c.enc(r) + "\n" == line;
    assert existing != "" ==> |Append(c, file, r)| > |line|;
  }

  /** Text is read line by line: a line break separates what is read before it from what is read behind it. */
  lemma ReadsAcross<R>(c: Codec<R>, a: string, b: string)
    ensures ParseLines(c, SplitLines(a + "\n" + b)) == ParseLines(c, SplitLines(a)) + ParseLines(c, SplitLines(b))
  {
    SplitConcat(a, b);
    ParseConcat(c, SplitLines(a), SplitLines(b));
  }

  lemma AssocCons<R>(base: seq<R>, rs: seq<R>)
    requires rs != []
    ensures base + [rs[0]] + rs[1..] == base + rs
  {
  }

  lemma {:induction false} AppendAllFrom<R(!new)>(c: Codec<R>, file: Option<string>, rs: seq<R>, base: seq<R>)
    requires Faithful(c) && Read(c, file) == base
    ensures Read(c, AppendAll(c, file, rs)) == base + rs
    decreases |rs|
  {
    if rs == [] {
      assert base + [] == base;
    } else {
      AppendReads(c, file, rs[0]);
      AppendAllFrom(c, Some(Append(c, file, rs[0])), rs[1..], base + [rs[0]]);
      AssocCons(base, rs);
    }
  }

  /** Any run of appends. */
  lemma AppendAllReads<R(!new)>(c: Codec<R>, file: Option<string>, rs: seq<R>)
    requires Faithful(c)
    ensures Read(c, AppendAll(c, file, rs)) == Read(c, file) + rs
  {
    AppendAllFrom(c, file, rs, Read(c, file));
  }

  lemma AppendReadsIf<R(!new)>(c: Codec<R>, file: Option<string>, r: R)
    ensures Faithful(c) ==> Read(c, Some(Append(c, file, r))) == Read(c, file) + [r]
  {
    if Faithful(c) { AppendReads(c, file, r); }
  }

  /** One turn of the loop: what is read so far and what is read of the rest. */
  lemma NextLine<R>(c: Codec<R>, lines: seq<string>, i: nat, out: seq<R>, more: seq<R>)
    requires i < |lines| && more == ParseLine(c, lines[i])
    ensures out + ParseLines(c, lines[i..]) == out + more + ParseLines(c, lines[i + 1..])
  {
    assert lines[i..][1..] == lines[i + 1..];
    assert out + (more + ParseLines(c, lines[i + 1..])) == out + more + ParseLines(c, lines[i + 1..]);
  }

  method ReadDeployHistory<R>(c: Codec<R>, file: Option<string>) returns (out: seq<R>)
    ensures out == Read(c, file)
  {
    out := [];
    if file.None? { return; }
    var lines := SplitLines(file.value);
    for i := 0 to |lines|
      invariant out + ParseLines(c, lines[i..]) == ParseLines(c, lines)
    {
      NextLine(c, lines, i, out, ParseLine(c, lines[i]));
      var line := Trim(lines[i]);
      if line == "" {
        assert out + [] == out;
        continue;
      }
      match c.dec(line) {
        case Some(r) => out := out + [r];
        case None => assert out + [] == out;
      }
    }
  }

  method AppendDeployRecord<R(!new)>(c: Codec<R>, file: Option<string>, r: R) returns (text: string)
    ensures text == Append(c, file, r)
    ensures Faithful(c) ==> Read(c, Some(text)) == Read(c, file) + [r]
  {
    var existing := if file.Some? then file.value else "";
    var next := existing;
    if !(EndsWithNewline(existing) || |existing| == 0) { next := existing + "\n"; }
    text := next + c.enc(r) + "\n";
    AppendReadsIf(c, file, r);
  }

  // ---------- last deploy per agent ----------

  type Id = string

  /** The entry of a record for an agent; `entries` is `Object.entries(record.agents)`. */
  function Mention<A>(entries: seq<(Id, A)>, id: Id): Option<A> {
    if entries == [] then None
    else if entries[|entries| - 1].0 == id then Some(entries[|entries| - 1].1)
    else Mention(entries[..|entries| - 1], id)
  }

  /** The last record of the history that mentions the agent. */
  function LastOf<R, A>(agents: R -> seq<(Id, A)>, history: seq<R>, id: Id): Option<(R, A)> {
    if history == [] then None
    else
      var r := history[|history| - 1];
      OrBefore(r, Mention(agents(r), id), LastOf(agents, history[..|history| - 1], id))
  }

  function LookUp<V>(m: map<Id, V>, id: Id): Option<V> {
    if id in m then Some(m[id]) else None
  }

  function OrBefore<R, A>(record: R, a: Option<A>, before: Option<(R, A)>): Option<(R, A)> {
    match a
    case Some(x) => Some((record, x))
    case None => before
  }

  /** The one-pass index of `buildFleetStatus`: per agent, the last record mentioning it. */
  method IndexLastDeploys<R, A>(agents: R -> seq<(Id, A)>, history: seq<R>) returns (lastByAgent: map<Id, (R, A)>)
    ensures forall id :: LookUp(lastByAgent, id) == LastOf(agents, history, id)
  {
    lastByAgent := map[];
    for i := 0 to |history|
      invariant forall id :: LookUp(lastByAgent, id) == LastOf(agents, history[..i], id)
    {
      var record := history[i];
      var entries := agents(record);
      ghost var before := lastByAgent;
      for j := 0 to |entries|
        invariant forall id ::
          LookUp(lastByAgent, id) == OrBefore(record, Mention(entries[..j], id), LookUp(before, id))
      {
        assert entries[..j + 1][..j] == entries[..j];
        lastByAgent := lastByAgent[entries[j].0 := (record, entries[j].1)];
      }
      assert entries[..|entries|] == entries;
      assert history[..i + 1][..i] == history[..i];
    }
    assert history[..|history|] == history;
  }

  lemma {:induction false} LastOfConcat<R, A>(agents: R -> seq<(Id, A)>, old_: seq<R>, new_: seq<R>, id: Id)
    ensures LastOf(agents, old_ + new_, id) ==
      match LastOf(agents, new_, id) case Some(x) => Some(x) case None => LastOf(agents, old_, id)
  {
    var all := old_ + new_;
    if new_ == [] {
      assert all == old_;
    } else {
      assert all[|all| - 1] == new_[|new_| - 1];
      assert all[..|all| - 1] == old_ + new_[..|new_| - 1];
      LastOfConcat(agents, old_, new_[..|new_| - 1], id);
    }
  }

  /** After any run of appends to any file, the index of the re-read history holds for every agent the last appended
      record that mentions it, and falls back to what the file said before. */
  lemma IndexAfterAppends<R(!new), A>(c: Codec<R>, agents: R -> seq<(Id, A)>, file: Option<string>, rs: seq<R>, id: Id)
    requires Faithful(c)
    ensures LastOf(agents, Read(c, AppendAll(c, file, rs)), id) ==
      match LastOf(agents, rs, id) case Some(x) => Some(x) case None => LastOf(agents, Read(c, file), id)
  {
    AppendAllReads(c, file, rs);
    LastOfConcat(agents, Read(c, file), rs, id);
  }
}
