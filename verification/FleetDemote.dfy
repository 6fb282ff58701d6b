/** `demote` on a directory that `promote` has made, step by step. */
module FleetDemote {
  import opened Wrappers
  import opened Text
  import opened FileTree
  import opened FleetManifest
  import FleetManifestProperties
  import FleetManifestRuns
  import opened FleetPromote
  import opened FleetPromoteMoves
  import opened FleetPromoted

  // ---------- the manifest that promote writes ----------

  lemma NotAgentsLine(line: string)
    requires line == "" || line[0] != 'a'
    ensures !IsAgentsLine(line)
  {
    assert "agents:"[0] == 'a';
  }

  lemma HeadAndTail(id: string)
    ensures FleetManifestProperties.NoneOf(ManifestHead(id), IsAgentsLine)
    ensures FleetManifestProperties.NoneOf(ManifestTail, IsAgentsLine)
    ensures EndsValue(ManifestTail[0])
  {
    var head := ManifestHead(id);
    assert head[0][0] == 'v' && head[1][0] == 'n' && head[2][0] == 'd' && head[3] == "";
    forall k | 0 <= k < 4 ensures !IsAgentsLine(head[k]) { NotAgentsLine(head[k]); }
    assert ManifestTail[0][0] == 'e' && ManifestTail[1][0] == ' ' && ManifestTail[2][0] == ' ' && ManifestTail[3] == "";
    forall k | 0 <= k < 4 ensures !IsAgentsLine(ManifestTail[k]) { NotAgentsLine(ManifestTail[k]); }
    assert ManifestTail[0][0] == 'e';
  }

  /** What is used of YAML: it reads the lines around the list that `promote` writes, and its item. */
  ghost predicate ReadsManifests(r: Reader) {
    ReadsEntries(r) && forall id | IsAgentId(id) :: r.rest(ManifestHead(id), ManifestTail)
  }

  /** The manifest of a fleet of one lists its agent and nothing else. */
  lemma ManifestReads(r: Reader, id: string)
    requires IsAgentId(id) && ReadsManifests(r)
    ensures ReadAgents(r, SplitLines(ManifestText(id))) == Some([Entry(id, PathTo(id))])
  {
    var e := EntryLines(id, PathTo(id));
    HeadAndTail(id);
    FleetManifestProperties.KeyLine();
    FleetManifestProperties.EntryLinesAre(id, PathTo(id));
    FleetManifestProperties.BlankLine();
    assert e + [""] == [] + ([e[0]] + ([e[1]] + [""]));
    FleetManifestProperties.ListReads(r, "agents:", e + [""], 2, [], e[0], [e[1]] + [""]);
    FleetManifestProperties.WrittenItem(r, id, [""]);
    FleetManifestProperties.ReadParts(r, ManifestHead(id), "agents:", e + [""], ManifestTail);
    ManifestSplits(id);
  }

  lemma ManifestSplits(id: string)
    requires IsAgentId(id)
    ensures SplitLines(ManifestText(id)) == ManifestLines(id)
  {
    FleetManifestRuns.IdIsLine(id);
    FleetManifestRuns.EntryLinesAreLines(id, PathTo(id));
    HeadLines(id);
    TailLines();
    forall line | line in ManifestLines(id) ensures OneLine(line) {
      assert line in ManifestHead(id) || line == "agents:" || line in EntryLines(id, PathTo(id)) || line == ""
        || line in ManifestTail;
    }
    SplitJoin(ManifestLines(id));
  }

  lemma HeadLines(id: string)
    requires OneLine(id)
    ensures forall line | line in ManifestHead(id) :: OneLine(line)
  {
    assert OneLine("version: 1") && OneLine("name: ");
    assert OneLine("description: ") && OneLine("\"Fleet-of-one promoted ");
    assert OneLine("from a single-agent directory.\"");
  }

  lemma TailLines()
    ensures forall line | line in ManifestTail :: OneLine(line)
  {
    assert OneLine("environments:") && OneLine("  default:") && OneLine("    peersRef: ./rpc-peers.yaml");
  }

  // ---------- demote on a promoted tree ----------

  ghost predicate IsPromoted(texts: Texts, t: Tree, p: Tree, id: string, names: seq<string>) {
    && Planned(t, names) && CanApply(texts, t, id, names) && !Exists(t, [Agents])
    && forall q :: At(p, q) == PromotedAt(texts, t, id, names, q)
  }

  lemma NotInAgents(t: Tree, q: Path)
    requires !Exists(t, [Agents]) && q != [] && q[0] == Agents
    ensures q !in t
  {
    assert [Agents] <= q;
  }

  lemma AgentFiles(texts: Texts, t: Tree, p: Tree, id: string, names: seq<string>, q: Path)
    requires IsPromoted(texts, t, p, id, names) && AgentDir(id) < q
    ensures At(p, q) == if q[2] in names then AgentFileAt(t, id, q[2..]) else None
  {
    assert At(p, q) == PromotedAt(texts, t, id, names, q);
    AgentFilesOf(texts, t, id, names, q);
  }

  lemma AgentFilesOf(texts: Texts, t: Tree, id: string, names: seq<string>, q: Path)
    requires !Exists(t, [Agents]) && AgentDir(id) < q && Agents !in names
    ensures PromotedAt(texts, t, id, names, q) == if q[2] in names then AgentFileAt(t, id, q[2..]) else None
  {
    NotInAgents(t, q);
    assert |q| > 1 && |[Package]| == 1 && |[Manifest]| == 1 && |[Note]| == 1;
  }

  lemma StaysAFile(texts: Texts, t: Tree, id: string, q: Path)
    requires [AgentYaml] in t && NewName(t[[AgentYaml]], id).Some?
    ensures AgentFileAt(t, id, q).Some? <==> At(t, q).Some?
  {
    RootNames();
    if |q| == 1 { assert q == [q[0]]; }
  }

  /** The agent's directory holds exactly the names that were moved there. */
  lemma ChildrenAre(texts: Texts, t: Tree, p: Tree, id: string, names: seq<string>, children: seq<string>)
    requires IsPromoted(texts, t, p, id, names) && Lists(p, AgentDir(id), children)
    ensures forall name :: name in children <==> name in names
  {
    forall name ensures name in children <==> name in names {
      if name in names {
        forall q | AgentDir(id) < q && q[2] == name ensures At(p, q).Some? <==> At(t, q[2..]).Some? {
          AgentFiles(texts, t, p, id, names, q);
          StaysAFile(texts, t, id, q[2..]);
        }
        ExistsBelow(t, p, id, name);
      } else {
        forall q | q in p ensures !(AgentPath(id, name) <= q) {
          Below(id, name, q);
          if AgentDir(id) < q { AgentFiles(texts, t, p, id, names, q); }
        }
      }
      assert AgentDir(id) + [name] == AgentPath(id, name);
    }
  }

  /** A promoted tree has no other agent's directory. */
  lemma OnlyAgent(texts: Texts, t: Tree, p: Tree, id: string, names: seq<string>, other: string)
    requires IsPromoted(texts, t, p, id, names)
    ensures IsDir(p, AgentDir(other)) <==> other == id
  {
    if other == id {
      var path := AgentPath(id, AgentYaml);
      assert path[2..] == [AgentYaml];
      AgentFiles(texts, t, p, id, names, path);
      StaysAFile(texts, t, id, [AgentYaml]);
      assert path in p && AgentDir(id) < path;
    } else {
      forall q | AgentDir(other) < q ensures q !in p { OtherAgent(texts, t, p, id, names, other, q); }
    }
  }

  lemma OtherAgent(texts: Texts, t: Tree, p: Tree, id: string, names: seq<string>, other: string, q: Path)
    requires IsPromoted(texts, t, p, id, names) && other != id && AgentDir(other) < q
    ensures q !in p
  {
    assert q[0] == Agents && q[1] == other && AgentDir(id)[1] == id;
    NotInAgents(t, q);
    assert At(p, q) == PromotedAt(texts, t, id, names, q);
    assert |q| > 1 && |[Package]| == 1 && |[Manifest]| == 1 && |[Note]| == 1;
  }

  lemma ManifestAt(texts: Texts, t: Tree, p: Tree, id: string, names: seq<string>)
    requires IsPromoted(texts, t, p, id, names)
    ensures [Manifest] in p && p[[Manifest]] == ManifestText(id) && Exists(p, [Manifest])
  {
    RootNames();
    assert At(p, [Manifest]) == PromotedAt(texts, t, id, names, [Manifest]);
    assert [Manifest] <= [Manifest];
  }

  lemma SoleOf(texts: Texts, p: Tree, id: string, entry: Entry)
    requires [Manifest] in p && Exists(p, [Manifest]) && entry.id == id
    requires ReadAgents(texts.reader, SplitLines(p[[Manifest]])) == Some([entry])
    ensures var only := texts.asText(id);
      Sole(texts, p, None) ==
        if !IsAgentId(only) then (Some(BadAgentId), "")
        else if !IsDir(p, AgentDir(only)) then (Some(NoAgentDir), "")
        else (None, only)
  {
  }

  lemma SoleAgent(texts: Texts, t: Tree, p: Tree, id: string, names: seq<string>)
    requires IsPromoted(texts, t, p, id, names) && IsAgentId(id) && ReadsManifests(texts.reader)
    ensures var (error, onlyId) := Sole(texts, p, None);
      && (error.None? <==> texts.asText(id) == id)
      && (error.None? ==> onlyId == id)
      && (error.Some? ==> error.value in {BadAgentId, NoAgentDir})
  {
    ManifestAt(texts, t, p, id, names);
    ManifestReads(texts.reader, id);
    SoleOf(texts, p, id, Entry(id, PathTo(id)));
    OnlyAgent(texts, t, p, id, names, texts.asText(id));
  }

  function RestoredAt(t: Tree, id: string, q: Path): Option<string> {
    if [Note] <= q then None else AgentFileAt(t, id, q)
  }

  /** What is at a path after the agent's files have moved up again. */
  function BackAt(t: Tree, p: Tree, id: string, names: seq<string>, q: Path): Option<string> {
    if q != [] && q[0] in names then AgentFileAt(t, id, q)
    else if AgentDir(id) < q then None
    else At(p, q)
  }

  lemma PromotedRoot(texts: Texts, t: Tree, id: string, names: seq<string>, q: Path)
    requires q != [] && q[0] in names && Agents !in names && Package !in names && Manifest !in names && Note !in names
    ensures PromotedAt(texts, t, id, names, q) == None
  {
    UnderAgents(id, q);
    assert q != [Package] && q != [Manifest] && q != [Note];
  }

  lemma RootIsFree(texts: Texts, t: Tree, p: Tree, id: string, names: seq<string>, q: Path)
    requires IsPromoted(texts, t, p, id, names) && q != [] && q[0] in names
    ensures q !in p
  {
    assert At(p, q) == PromotedAt(texts, t, id, names, q);
    PromotedRoot(texts, t, id, names, q);
  }

  lemma UnderAgents(id: string, p: Path)
    ensures AgentDir(id) < p ==> p[0] == Agents
  {
    if AgentDir(id) < p { assert p[0] == AgentDir(id)[0]; }
  }

  lemma MovedFileAt(texts: Texts, t: Tree, p: Tree, id: string, names: seq<string>, q: Path)
    requires IsPromoted(texts, t, p, id, names) && q != [] && q[0] in names
    ensures At(p, AgentDir(id) + q) == AgentFileAt(t, id, q)
  {
    var below := AgentDir(id) + q;
    assert below[2] == q[0] && below[2..] == q;
    AgentFiles(texts, t, p, id, names, below);
  }

  lemma MovedBackAt(
    texts: Texts, t: Tree, p: Tree, id: string, names: seq<string>, children: seq<string>, q: Path)
    requires IsPromoted(texts, t, p, id, names)
    requires forall name :: name in children <==> name in names
    ensures UpAt(p, id, children, q) == BackAt(t, p, id, names, q)
  {
    if q != [] && q[0] in names {
      MovedFileAt(texts, t, p, id, names, q);
    } else if AgentDir(id) < q {
      AgentFiles(texts, t, p, id, names, q);
    }
  }

  lemma MovedBack(texts: Texts, t: Tree, p: Tree, id: string, names: seq<string>, children: seq<string>)
    requires IsPromoted(texts, t, p, id, names) && NoDuplicates(children)
    requires forall name :: name in children <==> name in names
    ensures var up := MoveUp(p, id, children);
      up.error.None? && forall q :: At(up.tree, q) == BackAt(t, p, id, names, q)
  {
    forall q | q != [] && q[0] in children ensures q !in p { RootIsFree(texts, t, p, id, names, q); }
    MoveUpAt(p, id, children);
    forall q ensures UpAt(p, id, children, q) == BackAt(t, p, id, names, q) {
      MovedBackAt(texts, t, p, id, names, children, q);
    }
  }
}
