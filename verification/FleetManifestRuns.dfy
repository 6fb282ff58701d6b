/** Edits of `fleet.yaml`: the lines that survive, the text that is read back, and when ids stay distinct. */
module FleetManifestRuns {
  import opened Wrappers
  import opened Sequences
  import opened Text
  import opened FleetManifest
  import opened FleetManifestProperties

  // ---------- lines that survive ----------

  /** The lines that are no `agents:` line. */
  function OtherLines(lines: seq<string>): seq<string> {
    if lines == [] then []
    else if IsAgentsLine(lines[0]) then OtherLines(lines[1..])
    else [lines[0]] + OtherLines(lines[1..])
  }

  /** `a` is `b` with some lines left out. */
  predicate Within(a: seq<string>, b: seq<string>) {
    a == [] || (b != [] && ((a[0] == b[0] && Within(a[1..], b[1..])) || Within(a, b[1..])))
  }

  lemma {:induction false} OtherConcat(a: seq<string>, b: seq<string>)
    ensures OtherLines(a + b) == OtherLines(a) + OtherLines(b)
  {
    if a == [] {
      assert a + b == b;
    } else {
      assert (a + b)[1..] == a[1..] + b;
      OtherConcat(a[1..], b);
    }
  }

  lemma {:induction false} WithinSelf(a: seq<string>)
    ensures Within(a, a)
  {
    if a != [] { WithinSelf(a[1..]); }
  }

  lemma {:induction false} WithinMore(a: seq<string>, extra: seq<string>, b: seq<string>)
    requires Within(a, b)
    ensures Within(a, extra + b)
  {
    if extra == [] {
      assert extra + b == b;
    } else {
      assert (extra + b)[1..] == extra[1..] + b;
      WithinMore(a, extra[1..], b);
    }
  }

  lemma {:induction false} WithinAfter(pre: seq<string>, a: seq<string>, b: seq<string>)
    requires Within(a, b)
    ensures Within(pre + a, pre + b)
  {
    if pre == [] {
      assert pre + a == a && pre + b == b;
    } else {
      assert (pre + a)[1..] == pre[1..] + a && (pre + b)[1..] == pre[1..] + b;
      WithinAfter(pre[1..], a, b);
    }
  }

  lemma {:induction false} WithinTrans(a: seq<string>, b: seq<string>, c: seq<string>)
    requires Within(a, b) && Within(b, c)
    ensures Within(a, c)
    decreases |c|
  {
    if a != [] && b != [] {
      if b[0] == c[0] && Within(b[1..], c[1..]) {
        if a[0] == b[0] && Within(a[1..], b[1..]) {
          WithinTrans(a[1..], b[1..], c[1..]);
        } else {
          WithinTrans(a, b[1..], c[1..]);
        }
      } else {
        WithinTrans(a, b, c[1..]);
      }
    }
  }

  predicate Survives(lines: seq<string>, out: seq<string>) {
    Within(OtherLines(lines), OtherLines(out))
  }

  lemma WithinMiddle(a: seq<string>, m: seq<string>, b: seq<string>)
    ensures Within(a + b, a + m + b)
  {
    WithinSelf(b);
    WithinMore(b, m, b);
    WithinAfter(a, b, m + b);
    Regroup(a, m, b);
  }

  lemma OtherParts(a: seq<string>, m: seq<string>, b: seq<string>)
    ensures OtherLines(a + m + b) == OtherLines(a) + OtherLines(m) + OtherLines(b)
  {
    OtherConcat(a + m, b);
    OtherConcat(a, m);
  }

  /** New lines in place of `agents:` lines, or between two lines. */
  lemma Spliced(a: seq<string>, old_: seq<string>, new_: seq<string>, b: seq<string>)
    requires OtherLines(old_) == []
    ensures Survives(a + old_ + b, a + new_ + b)
  {
    var x, m, z := OtherLines(a), OtherLines(new_), OtherLines(b);
    OtherParts(a, old_, b);
    OtherParts(a, new_, b);
    assert x + [] + z == x + z;
    WithinMiddle(x, m, z);
  }

  lemma InsertedSurvives(lines: seq<string>, at: nat, gap: seq<string>, e: seq<string>, end: seq<string>)
    requires at <= |lines|
    ensures Survives(lines, lines[..at] + gap + e + end + lines[at..])
  {
    Spliced(lines[..at], [], gap + e + end, lines[at..]);
    assert lines == lines[..at] + [] + lines[at..];
    assert lines[..at] + gap + e + end == lines[..at] + (gap + e + end);
  }

  lemma ReplacedSurvives(lines: seq<string>, k: nat, e: seq<string>)
    requires k < |lines| && IsAgentsLine(lines[k])
    ensures Survives(lines, lines[..k] + e + lines[k + 1..])
  {
    assert OtherLines([lines[k]]) == [] by { assert [lines[k]][1..] == []; }
    Spliced(lines[..k], [lines[k]], e, lines[k + 1..]);
    assert lines == lines[..k] + [lines[k]] + lines[k + 1..];
  }

  lemma BlockSurvives(lines: seq<string>, key: nat, ends: string -> bool, e: seq<string>)
    requires key < |lines|
    ensures Survives(lines, InsertAfterBlock(lines, key, ends, e))
  {
    var at := key + 1 + FirstAt(lines[key + 1..], ends);
    InsertedSurvives(lines, at, if lines[at - 1] != "" then [""] else [], e, [""]);
  }

  /** Every line other than an `agents:` line survives, in order, whatever the manifest looks like. */
  lemma AppendSurvives(lines: seq<string>, id: string, path: string)
    requires AppendEntry(lines, id, path).Some?
    ensures Survives(lines, AppendEntry(lines, id, path).value)
  {
    var empty := FirstAt(lines, IsEmptyAgents);
    if empty < |lines| {
      ReplacedSurvives(lines, empty, ["agents:"] + EntryLines(id, path));
    } else {
      BlockSurvives(lines, FirstAt(lines, IsAgentsKey), EndsBlock, EntryLines(id, path));
    }
  }

  // ---------- the text of the manifest ----------

  function AgentsOf(r: Reader, manifest: string): Option<seq<Entry>> {
    ReadAgents(r, SplitLines(manifest))
  }

  /** All lines come from the old manifest or are new, so none holds a line break. */
  lemma AppendedLines(lines: seq<string>, id: string, path: string)
    requires AppendEntry(lines, id, path).Some?
    requires (forall line | line in lines :: OneLine(line)) && OneLine(id) && OneLine(path)
    ensures var out := AppendEntry(lines, id, path).value; out != [] && forall line | line in out :: OneLine(line)
  {
    EntryLinesAreLines(id, path);
    var out := AppendEntry(lines, id, path).value;
    forall line | line in out ensures OneLine(line) {
      assert line in lines || line in EntryLines(id, path) || line == "" || line == "agents:";
    }
  }

  lemma EntryLinesAreLines(id: string, path: string)
    requires OneLine(id) && OneLine(path)
    ensures OneLine("agents:") && forall line | line in EntryLines(id, path) :: OneLine(line)
  {
    assert OneLine("  - id: ") && OneLine("    path: ");
  }

  lemma IdIsLine(id: string)
    requires IsAgentId(id)
    ensures OneLine(id) && OneLine(PathTo(id))
  {
    assert OneLine("./agents/");
  }

  predicate Listed(scalar: string -> Option<string>, entries: seq<Entry>, id: string) {
    exists e | e in entries :: scalar(e.id) == Some(id)
  }

  /** There is a line to add to exactly when there is an `agents:` line of either form. */
  lemma AppendsIff(lines: seq<string>, id: string, path: string)
    ensures AppendEntry(lines, id, path).Some? <==> HasAgentsLine(lines)
  {
    if line :| line in lines && IsAgentsLine(line) {
      var k :| 0 <= k < |lines| && lines[k] == line;
      assert FirstAt(lines, IsEmptyAgents) <= k || FirstAt(lines, IsAgentsKey) <= k;
    }
    if FirstAt(lines, IsEmptyAgents) < |lines| { assert IsAgentsLine(lines[FirstAt(lines, IsEmptyAgents)]); }
    if FirstAt(lines, IsAgentsKey) < |lines| { assert IsAgentsLine(lines[FirstAt(lines, IsAgentsKey)]); }
  }

  /** How the new manifest of a successful edit reads, if the old one is written as `[]` or as a block list. */
  ghost predicate ReadsOn(r: Reader, manifest: string, manifest': string, id: string) {
    var lines := SplitLines(manifest);
    InBlockStyle(lines) && AgentsOf(r, manifest).Some? ==>
      && Extends(r, Indentation(lines), SplitLines(manifest'), AgentsOf(r, manifest).value, id)
      && (Meets(Indentation(lines)) <==> Appendable(lines))
  }

  /** The text of an edited manifest has the edited lines. */
  lemma EditedText(manifest: string, id: string)
    requires IsAgentId(id) && AppendEntry(SplitLines(manifest), id, PathTo(id)).Some?
    ensures var out := AppendEntry(SplitLines(manifest), id, PathTo(id)).value;
      SplitLines(Join(out, "\n")) == out && Survives(SplitLines(manifest), out)
  {
    var lines := SplitLines(manifest);
    AppendSurvives(lines, id, PathTo(id));
    IdIsLine(id);
    JoinSplit(manifest);
    AppendedLines(lines, id, PathTo(id));
    SplitJoin(AppendEntry(lines, id, PathTo(id)).value);
  }

  lemma EditedReads(r: Reader, manifest: string, id: string)
    requires IsAgentId(id) && ReadsEntries(r) && AppendEntry(SplitLines(manifest), id, PathTo(id)).Some?
    ensures ReadsOn(r, manifest, Join(AppendEntry(SplitLines(manifest), id, PathTo(id)).value, "\n"), id)
  {
    EditedText(manifest, id);
    if InBlockStyle(SplitLines(manifest)) && AgentsOf(r, manifest).Some? { AppendReads(r, SplitLines(manifest), id); }
  }

  /** Which edits succeed: those of a manifest that YAML reads, for an id that no entry reads as, and with an `agents:`
      line of a form that the edit knows. All other lines survive, and the new text reads as `AppendReads` states. */
  lemma EditExact(r: Reader, scalar: string -> Option<string>, manifest: string, id: string)
    requires IsAgentId(id) && ReadsEntries(r)
    ensures var e := EditManifest(r, scalar, manifest, id); var agents := AgentsOf(r, manifest);
      && (e.NotAManifest? <==> agents.None?)
      && (e.Collision? <==> agents.Some? && Listed(scalar, agents.value, id))
      && (e.Edited? <==> agents.Some? && !Listed(scalar, agents.value, id) && HasAgentsLine(SplitLines(manifest)))
      && (e.Edited? ==> Survives(SplitLines(manifest), SplitLines(e.manifest)) && ReadsOn(r, manifest, e.manifest, id))
  {
    AppendsIff(SplitLines(manifest), id, PathTo(id));
    if HasAgentsLine(SplitLines(manifest)) {
      EditedText(manifest, id);
      EditedReads(r, manifest, id);
    }
  }

  // ---------- many entries ----------

  function NewEntries(ids: seq<string>): seq<Entry> {
    seq(|ids|, i requires 0 <= i < |ids| => Entry(ids[i], PathTo(ids[i])))
  }

  predicate Distinct(entries: seq<Entry>) {
    forall i, j | 0 <= i < j < |entries| :: entries[i].id != entries[j].id
  }

  /** YAML reads every id that is added as the string it is. */
  predicate ReadAsIs(scalar: string -> Option<string>, ids: seq<string>) {
    forall id | id in ids :: scalar(id) == Some(id)
  }

  lemma StaysDistinct(scalar: string -> Option<string>, entries: seq<Entry>, id: string)
    requires Distinct(entries) && scalar(id) == Some(id) && !Listed(scalar, entries, id)
    ensures Distinct(entries + [Entry(id, PathTo(id))])
  {
    forall i | 0 <= i < |entries| ensures entries[i].id != id { assert entries[i] in entries; }
  }

  lemma NewEntriesCons(entries: seq<Entry>, ids: seq<string>)
    requires ids != []
    ensures entries + [Entry(ids[0], PathTo(ids[0]))] + NewEntries(ids[1..]) == entries + NewEntries(ids)
  {
  }

  lemma SurvivesTrans(a: seq<string>, b: seq<string>, c: seq<string>)
    requires Survives(a, b) && Survives(b, c)
    ensures Survives(a, c)
  {
    WithinTrans(OtherLines(a), OtherLines(b), OtherLines(c));
  }
}
