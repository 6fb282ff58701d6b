/** Under which name an agent ends up: the given id, or the name its own file declares, in its directory, its files and
    the manifest. */
module FleetNames {
  import opened Wrappers
  import opened Text
  import opened FileTree
  import FieldLine
  import opened FleetManifest
  import FleetPromote
  import FleetPromoted
  import FleetDemote
  import FleetAdd

  /** A copy of a text in which the line of a field, and nothing else, has a new value. */
  ghost predicate Renamed(text: string, copy: string, field: string, value: string) {
    && FieldLine.Match(text, field).Some? && FieldLine.Match(copy, field) == Some(field + " " + value)
    && exists pre, post ::
         FieldLine.Swapped(text, copy, FieldLine.Match(text, field).value, field + " " + value, pre, post)
  }

  lemma RenamedBy(text: string, field: string, value: string)
    requires FieldLine.Replace(text, field, field + " " + value).Some? && FieldLine.NoTerminator(field)
    requires value != "" && !IsSpace(value[0]) && OneLine(value)
    ensures Renamed(text, FieldLine.Replace(text, field, field + " " + value).value, field, value)
  {
    FieldLine.ReplacedMatches(text, field, value);
    var pre, post := FieldLine.ReplaceSplits(text, field, field + " " + value);
  }

  lemma Fields()
    ensures FieldLine.NoTerminator("name:") && FieldLine.NoTerminator("agent:")
  {
    var a, b := "name:", "agent:";
    assert forall i | 0 <= i < 5 :: !FieldLine.IsLineTerminator(a[i]);
    assert forall i | 0 <= i < 6 :: !FieldLine.IsLineTerminator(b[i]);
  }

  lemma IdIsValue(id: string)
    requires IsAgentId(id)
    ensures id != "" && !IsSpace(id[0]) && OneLine(id)
    ensures var uri := "agent://" + id; uri != "" && !IsSpace(uri[0]) && OneLine(uri)
    ensures "name: " + id == "name:" + " " + id && "agent: agent://" + id == "agent:" + " " + ("agent://" + id)
  {
    assert OneLine("agent://");
    assert "name: " == "name:" + " " && "agent: agent://" == "agent:" + " " + "agent://";
  }

  /** The agent's own file under its id. */
  lemma AgentNamed(text: string, id: string)
    requires IsAgentId(id) && FleetPromote.NewName(text, id).Some?
    ensures Renamed(text, FleetPromote.NewName(text, id).value, "name:", id)
  {
    Fields();
    IdIsValue(id);
    RenamedBy(text, "name:", id);
  }

  lemma CapabilitiesNamed(text: string, id: string)
    requires IsAgentId(id) && FieldLine.Replace(text, "agent:", "agent: agent://" + id).Some?
    ensures Renamed(text, FieldLine.Replace(text, "agent:", "agent: agent://" + id).value, "agent:", "agent://" + id)
  {
    Fields();
    IdIsValue(id);
    RenamedBy(text, "agent:", "agent://" + id);
  }

  // ---------- add ----------

  /** The given id, or else the name in the agent's own file. */
  function IdFor(given: Option<string>, declared: Option<string>): Option<string> {
    if given.Some? && declared.Some? then given else declared
  }

  /** The file of the source that stands at a path of the new agent's directory. */
  ghost predicate CopiedTo(t': Tree, id: string, source: Tree, p: Path)
    requires p in source
  {
    var copy := At(t', FleetAdd.AgentDir(id) + p);
    && copy.Some?
    && (p == [FleetPromote.AgentYaml] ==> Renamed(source[p], copy.value, "name:", id))
    && (p == [FleetPromote.Capabilities] ==> Renamed(source[p], copy.value, "agent:", "agent://" + id))
    && (p != [FleetPromote.AgentYaml] && p != [FleetPromote.Capabilities] ==> copy.value == source[p])
  }

  lemma AddSucceeded(y: FleetAdd.Yaml, t: Tree, q: FleetAdd.Request, t': Tree)
    requires FleetAdd.WellFormedRequest(q) && ReadsEntries(y.reader)
    requires FleetAdd.AddAgent(y, t, q) == FleetAdd.Outcome(t', None)
    ensures FleetAdd.Addable(y, t, q) && FleetAdd.AddedTo(y, t, t', FleetAdd.AgentId(y, q).value, q)
  {
    FleetAdd.AddExact(y, t, q);
  }

  lemma AddUsesId(y: FleetAdd.Yaml, t: Tree, q: FleetAdd.Request)
    requires FleetAdd.Addable(y, t, q)
    ensures FleetAdd.AgentYamlPath in q.source && IsAgentId(FleetAdd.AgentId(y, q).value)
    ensures IdFor(q.id, y.readName(q.source[FleetAdd.AgentYamlPath])) == Some(FleetAdd.AgentId(y, q).value)
    ensures forall p | p in q.source :: FleetAdd.CanCopy(t, FleetAdd.AgentId(y, q).value, q.source, p)
  {
  }

  /** After a successful add, the new agent's directory is named after the given id, or else after the name that its
      file declares; its `agent.yaml` and its capabilities say that id and nothing else has changed in them, and every
      other file is a copy. */
  lemma AddedIsNamed(y: FleetAdd.Yaml, t: Tree, q: FleetAdd.Request)
    requires FleetAdd.WellFormedRequest(q) && ReadsEntries(y.reader) && FleetAdd.AddAgent(y, t, q).error.None?
    ensures FleetAdd.AgentYamlPath in q.source
    ensures var id := IdFor(q.id, y.readName(q.source[FleetAdd.AgentYamlPath]));
      id.Some? && forall p | p in q.source :: CopiedTo(FleetAdd.AddAgent(y, t, q).tree, id.value, q.source, p)
  {
    var t' := FleetAdd.AddAgent(y, t, q).tree;
    AddSucceeded(y, t, q, t');
    AddUsesId(y, t, q);
    var id := FleetAdd.AgentId(y, q).value;
    forall p | p in q.source ensures CopiedTo(t', id, q.source, p) { FileCopied(y, t, t', id, q, p); }
  }

  lemma FileCopied(y: FleetAdd.Yaml, t: Tree, t': Tree, id: string, q: FleetAdd.Request, p: Path)
    requires FleetAdd.WellFormedRequest(q) && p in q.source && IsAgentId(id)
    requires FleetAdd.CanCopy(t, id, q.source, p) && FleetAdd.AddedTo(y, t, t', id, q)
    ensures CopiedTo(t', id, q.source, p)
  {
    var to := FleetAdd.AgentDir(id) + p;
    assert |to| >= 2 && |FleetAdd.ManifestPath| == 1 && to != FleetAdd.ManifestPath;
    assert to[2..] == p && FleetAdd.AgentDir(id) <= to;
    assert At(t', to) == FleetAdd.CopiedAt(t, id, q.source, q.walk, to) == FleetAdd.Rewrite(id, p, q.source[p]);
    FileNamesDiffer();
    if p == [FleetPromote.AgentYaml] { AgentNamed(q.source[p], id); }
    if p == [FleetPromote.Capabilities] { CapabilitiesNamed(q.source[p], id); }
  }

  lemma FileNamesDiffer()
    ensures [FleetPromote.AgentYaml] != [FleetPromote.Capabilities]
  {
    FleetPromoted.RootNames();
    assert [FleetPromote.AgentYaml][0] != [FleetPromote.Capabilities][0];
  }

  // ---------- promote ----------

  /** The agent stands in a promoted tree under a name: so says the manifest, and so does its `agent.yaml` in the
      directory of that name, nothing else being changed in it. */
  ghost predicate StandsAs(texts: FleetPromote.Texts, t: Tree, p: Tree, name: string)
    requires FleetAdd.AgentYamlPath in t
  {
    && FleetAdd.ManifestPath in p
    && ReadAgents(texts.reader, SplitLines(p[FleetAdd.ManifestPath])) == Some([Entry(name, PathTo(name))])
    && var copy := At(p, FleetPromote.AgentDir(name) + FleetAdd.AgentYamlPath);
       copy.Some? && Renamed(t[FleetAdd.AgentYamlPath], copy.value, "name:", name)
  }

  lemma PromotedStands(texts: FleetPromote.Texts, t: Tree, p: Tree, id: string, names: seq<string>)
    requires FleetPromoted.Planned(t, names) && FleetPromoted.CanApply(texts, t, id, names) && IsAgentId(id)
    requires FleetDemote.ReadsManifests(texts.reader)
    requires forall q :: At(p, q) == FleetPromoted.PromotedAt(texts, t, id, names, q)
    ensures StandsAs(texts, t, p, id)
  {
    FleetPromoted.RootNames();
    FleetDemote.ManifestReads(texts.reader, id);
    assert At(p, FleetAdd.ManifestPath) == FleetPromoted.PromotedAt(texts, t, id, names, FleetAdd.ManifestPath);
    var path := FleetPromote.AgentDir(id) + FleetAdd.AgentYamlPath;
    assert |path| == 3 && path[2..] == FleetAdd.AgentYamlPath && path[2] == FleetPromote.AgentYaml;
    assert At(p, path) == FleetPromoted.PromotedAt(texts, t, id, names, path);
    AgentNamed(t[FleetAdd.AgentYamlPath], id);
  }

  /** After a successful `promote` the agent stands under the given id, or else under the name that its file declares.
      */
  lemma PromotedIsNamed(texts: FleetPromote.Texts, t: Tree, id: Option<string>, listing: seq<string>)
    requires WellFormed(t) && Lists(t, [], listing) && FleetDemote.ReadsManifests(texts.reader)
    requires FleetPromote.Promote(texts, t, id, listing).error.None?
    ensures FleetAdd.AgentYamlPath in t
    ensures var name := IdFor(id, texts.readName(t[FleetAdd.AgentYamlPath]));
      name.Some? && StandsAs(texts, t, FleetPromote.Promote(texts, t, id, listing).tree, name.value)
  {
    var agentId := FleetPromote.Plan(texts, t, id).1;
    var names := FleetPromote.Moves(t, listing);
    PlanUsesId(texts, t, id);
    FleetPromoted.PlanIsPlanned(texts, t, id, listing);
    FleetPromoted.ApplyAt(texts, t, agentId, names);
    PromotedStands(texts, t, FleetPromote.Promote(texts, t, id, listing).tree, agentId, names);
  }

  /** What a caller can check before the call. */
  predicate Plannable(texts: FleetPromote.Texts, t: Tree, id: Option<string>) {
    && !Exists(t, FleetAdd.ManifestPath) && FleetAdd.AgentYamlPath in t
    && (Exists(t, [FleetPromote.Package]) ==> [FleetPromote.Package] in t)
    && var name := IdFor(id, texts.readName(t[FleetAdd.AgentYamlPath])); name.Some? && IsAgentId(name.value)
  }

  lemma PlannableIff(texts: FleetPromote.Texts, t: Tree, id: Option<string>)
    ensures FleetPromote.Plan(texts, t, id).0.None? <==> Plannable(texts, t, id)
  {
    assert FleetAdd.AgentYamlPath in t ==> FleetAdd.AgentYamlPath <= FleetAdd.AgentYamlPath;
    assert FleetAdd.AgentYamlPath in t ==> Exists(t, FleetAdd.AgentYamlPath);
  }

  predicate Promotable(texts: FleetPromote.Texts, t: Tree, id: Option<string>, listing: seq<string>) {
    && Plannable(texts, t, id)
    && var name := IdFor(id, texts.readName(t[FleetAdd.AgentYamlPath])).value;
       FleetPromoted.CanApply(texts, t, name, FleetPromote.Moves(t, listing))
  }

  /** `promote` succeeds exactly when the directory is no fleet yet, its `agent.yaml` can be read and declares a name,
      the given id, or else that name, is well formed, and the moves, rewrites and writes can be carried out. */
  lemma PromoteExact(texts: FleetPromote.Texts, t: Tree, id: Option<string>, listing: seq<string>)
    requires WellFormed(t) && Lists(t, [], listing)
    ensures var r := FleetPromote.Promote(texts, t, id, listing);
      && (r.error.None? <==> Promotable(texts, t, id, listing))
      && (!Plannable(texts, t, id) ==> r.tree == t)
  {
    PlannableIff(texts, t, id);
    FleetPromoted.PromoteOutcome(texts, t, id, listing);
    if Plannable(texts, t, id) { PlanUsesId(texts, t, id); }
  }

  lemma PlanUsesId(texts: FleetPromote.Texts, t: Tree, id: Option<string>)
    requires FleetPromote.Plan(texts, t, id).0.None?
    ensures [FleetPromote.AgentYaml] in t && IsAgentId(FleetPromote.Plan(texts, t, id).1)
    ensures IdFor(id, texts.readName(t[[FleetPromote.AgentYaml]])) == Some(FleetPromote.Plan(texts, t, id).1)
  {
  }
}
