/** `fleet promote` and `fleet demote` of packages/cli/src/fleet-promote-cli.ts as functions on the file tree below the
    directory, and in their own form as methods that change it. */
module FleetPromote {
  import opened Wrappers
  import opened Text
  import opened FileTree
  import FieldLine
  import opened FleetManifest

  datatype Error =
    | AlreadyFleet | NoAgentYaml | NoName | BadAgentId
    | NotADirectory | RenameFails(name: string) | NoNameLine | BadPackage | NotAFile(name: string)
    | NoManifest | NotAManifest | NoAgents | ManyAgents | WrongId | NoAgentDir | Clobbers(name: string)

  /** What a command leaves behind, also when it throws half-way. */
  datatype Outcome = Outcome(tree: Tree, error: Option<Error>)

  /** What the YAML and JSON libraries and the clock contribute: the `name` field of a YAML text, the agents of a
      manifest and the string a plain scalar of it becomes, `package.json` with and without workspaces, and the note. */
  datatype Texts = Texts(
    readName: string -> Option<string>,
    reader: Reader,
    asText: string -> string,
    packageForFleet: string -> Option<string>,
    newPackage: string -> string,
    packageForAgent: string -> Option<string>,
    note: string -> string)

  // ---------- promote ----------

  const AgentYaml := "agent.yaml"
  const Capabilities := "capabilities.yaml"
  const PerAgentFiles := [AgentYaml, Capabilities, "event-sources.yaml", "rpc-peers.yaml", "channels.yaml",
                          "tenants.yaml", "secrets.yaml"]
  const Skills := "skills"
  const Agents := "agents"
  const Package := "package.json"
  const Manifest := "fleet.yaml"
  const Note := "PROMOTED.md"

  function AgentDir(id: string): Path {
    [Agents, id]
  }

  predicate IsMarkdown(name: string) {
    |name| >= 3 && name[|name| - 3..] == ".md"
  }

  /** The root entries that belong to the agent. */
  predicate Belongs(t: Tree, name: string) {
    || (name in PerAgentFiles && Exists(t, [name]))
    || (name == Skills && IsDir(t, [name]))
    || (IsMarkdown(name) && name != Note && [name] in t)
  }

  function Filter(names: seq<string>, p: string -> bool): (r: seq<string>)
    ensures forall name :: name in r <==> name in names && p(name)
    ensures NoDuplicates(names) ==> NoDuplicates(r)
  {
    if names == [] then []
    else if p(names[0]) then [names[0]] + Filter(names[1..], p)
    else Filter(names[1..], p)
  }

  function Present(t: Tree): string -> bool {
    name => Exists(t, [name])
  }

  function Documents(t: Tree): string -> bool {
    name => IsMarkdown(name) && name != Note && [name] in t
  }

  /** The planned moves in order; `listing` is what `readdir` returned for the root. */
  function Moves(t: Tree, listing: seq<string>): seq<string> {
    Filter(PerAgentFiles, Present(t)) + (if IsDir(t, [Skills]) then [Skills] else []) + Filter(listing, Documents(t))
  }

  /** The checks of `buildPromotePlan()`: the new agent's id, or why there is no plan. */
  function Plan(texts: Texts, t: Tree, id: Option<string>): (Option<Error>, string) {
    if Exists(t, [Manifest]) then (Some(AlreadyFleet), "")
    else if !Exists(t, [AgentYaml]) then (Some(NoAgentYaml), "")
    else if [AgentYaml] !in t then (Some(NotAFile(AgentYaml)), "")
    else match texts.readName(t[[AgentYaml]])
      case None => (Some(NoName), "")
      case Some(name) =>
        var agentId := if id.Some? then id.value else name;
        if !IsAgentId(agentId) then (Some(BadAgentId), "")
        else if Exists(t, [Package]) && [Package] !in t then (Some(NotAFile(Package)), "")
        else (None, agentId)
  }

  function MoveDown(t: Tree, id: string, names: seq<string>): Outcome
    decreases |names|
  {
    if names == [] then Outcome(t, None)
    else match Rename(t, [names[0]], AgentDir(id) + [names[0]])
      case None => Outcome(t, Some(RenameFails(names[0])))
      case Some(next) => MoveDown(next, id, names[1..])
  }

  function NewName(text: string, id: string): Option<string> {
    FieldLine.Replace(text, "name:", "name: " + id)
  }

  function NewAgent(text: string, id: string): string {
    match FieldLine.Replace(text, "agent:", "agent: agent://" + id)
    case None => text
    case Some(rewritten) => rewritten
  }

  function RewriteName(t: Tree, id: string): Outcome {
    var p := AgentDir(id) + [AgentYaml];
    if !Exists(t, p) then Outcome(t, None)
    else if p !in t then Outcome(t, Some(NotAFile(AgentYaml)))
    else match NewName(t[p], id)
      case None => Outcome(t, Some(NoNameLine))
      case Some(text) => Outcome(t[p := text], None)
  }

  function RewriteCapabilities(t: Tree, id: string): Outcome {
    var p := AgentDir(id) + [Capabilities];
    if !Exists(t, p) then Outcome(t, None)
    else if p !in t then Outcome(t, Some(NotAFile(Capabilities)))
    else Outcome(t[p := NewAgent(t[p], id)], None)
  }

  const Description := "description: " + "\"Fleet-of-one promoted " + "from a single-agent directory.\""

  function ManifestHead(id: string): seq<string> {
    ["version: 1", "name: " + id, Description, ""]
  }

  const ManifestTail := ["environments:", "  default:", "    peersRef: ./rpc-peers.yaml", ""]

  function ManifestLines(id: string): seq<string> {
    ManifestHead(id) + (["agents:"] + ((EntryLines(id, PathTo(id)) + [""]) + ManifestTail))
  }

  /** `renderFleetOfOneManifest()`. */
  function ManifestText(id: string): string {
    Join(ManifestLines(id), "\n")
  }

  function FleetPackage(texts: Texts, existing: Option<string>, id: string): Option<string> {
    if existing.Some? then texts.packageForFleet(existing.value) else Some(texts.newPackage(id))
  }

  /** Steps 4 to 6 of `applyPromotePlan()`. */
  function WriteRoot(texts: Texts, t: Tree, id: string, existing: Option<string>): Outcome {
    match FleetPackage(texts, existing, id)
    case None => Outcome(t, Some(BadPackage))
    case Some(package) =>
      var t1 := t[[Package] := package][[Manifest] := ManifestText(id)];
      if IsDir(t1, [Note]) then Outcome(t1, Some(NotAFile(Note))) else Outcome(t1[[Note] := texts.note(id)], None)
  }

  function Promote(texts: Texts, t: Tree, id: Option<string>, listing: seq<string>): Outcome {
    var (error, agentId) := Plan(texts, t, id);
    if error.Some? then Outcome(t, error) else Apply(texts, t, agentId, Moves(t, listing))
  }

  /** `mkdirSync(agentDir, { recursive: true })` throws when a file is in the way. */
  predicate Blocked(t: Tree, id: string) {
    [Agents] in t || AgentDir(id) in t
  }

  /** `applyPromotePlan()`. */
  function Apply(texts: Texts, t: Tree, id: string, moves: seq<string>): Outcome {
    var moved := MoveDown(t, id, moves);
    if Blocked(t, id) then Outcome(t, Some(NotADirectory))
    else if moved.error.Some? then moved
    else
      var named := RewriteName(moved.tree, id);
      if named.error.Some? then named
      else
        var capable := RewriteCapabilities(named.tree, id);
        if capable.error.Some? then capable else WriteRoot(texts, capable.tree, id, At(t, [Package]))
  }

  // ---------- demote ----------

  /** The checks of `applyDemote()`: the agent's id, or why there is nothing to demote. */
  function Sole(texts: Texts, t: Tree, id: Option<string>): (Option<Error>, string) {
    if !Exists(t, [Manifest]) then (Some(NoManifest), "")
    else if [Manifest] !in t then (Some(NotAFile(Manifest)), "")
    else match ReadAgents(texts.reader, SplitLines(t[[Manifest]]))
      case None => (Some(Error.NotAManifest), "")
      case Some(entries) =>
        if |entries| == 0 then (Some(NoAgents), "")
        else if |entries| > 1 then (Some(ManyAgents), "")
        else
          var onlyId := texts.asText(entries[0].id);
          if id.Some? && id.value != onlyId then (Some(WrongId), "")
          else if !IsAgentId(onlyId) then (Some(BadAgentId), "")
          else if !IsDir(t, AgentDir(onlyId)) then (Some(NoAgentDir), "")
          else (None, onlyId)
  }

  function MoveUp(t: Tree, id: string, names: seq<string>): Outcome
    decreases |names|
  {
    if names == [] then Outcome(t, None)
    else if Exists(t, [names[0]]) then Outcome(t, Some(Clobbers(names[0])))
    else MoveUp(Moved(t, AgentDir(id) + [names[0]], [names[0]]), id, names[1..])
  }

  /** Steps 2 and 3 of `applyDemote()`. */
  function CleanUp(texts: Texts, t: Tree): Outcome {
    var t1 := FileTree.Without(FileTree.Without(t, [Agents]), [Manifest]);
    if IsDir(t1, [Note]) then Outcome(t1, Some(NotAFile(Note)))
    else
      var t2 := FileTree.Without(t1, [Note]);
      if !Exists(t2, [Package]) then Outcome(t2, None)
      else if [Package] !in t2 then Outcome(t2, Some(NotAFile(Package)))
      else match texts.packageForAgent(t2[[Package]])
        case None => Outcome(t2, Some(BadPackage))
        case Some(package) => Outcome(t2[[Package] := package], None)
  }

  /** `applyDemote()`; `children` is what `readdirSync` returned for the agent's directory. */
  function Demote(texts: Texts, t: Tree, id: Option<string>, children: seq<string>): Outcome {
    var (error, onlyId) := Sole(texts, t, id);
    if error.Some? then Outcome(t, error)
    else
      var moved := MoveUp(t, onlyId, children);
      if moved.error.Some? then moved else CleanUp(texts, moved.tree)
  }

  // ---------- in place ----------

  class Directory {
    var files: Tree
    const texts: Texts

    constructor (files: Tree, texts: Texts)
      ensures this.files == files && this.texts == texts
    {
      this.files, this.texts := files, texts;
    }

    /** Step 1 of the plan, for the per-agent files. */
    method FileMoves(names: seq<string>) returns (moves: seq<string>)
      ensures moves == Filter(names, Present(files))
    {
      moves := [];
      for i := 0 to |names|
        invariant moves + Filter(names[i..], Present(files)) == Filter(names, Present(files))
      {
        assert names[i..][1..] == names[i + 1..];
        if !Exists(files, [names[i]]) { continue; }
        moves := moves + [names[i]];
      }
    }

    /** Step 3 of the plan. */
    method DocumentMoves(listing: seq<string>) returns (moves: seq<string>)
      ensures moves == Filter(listing, Documents(files))
    {
      moves := [];
      for i := 0 to |listing|
        invariant moves + Filter(listing[i..], Documents(files)) == Filter(listing, Documents(files))
      {
        var name := listing[i];
        assert listing[i..][1..] == listing[i + 1..];
        if [name] !in files || !IsMarkdown(name) || name == Note { continue; }
        moves := moves + [name];
      }
    }

    method BuildMoves(listing: seq<string>) returns (moves: seq<string>)
      ensures moves == Moves(files, listing)
    {
      var perAgent := PerAgentFiles;
      moves := FileMoves(perAgent);
      var dirs := [];
      if IsDir(files, [Skills]) { dirs := [Skills]; }
      var documents := DocumentMoves(listing);
      moves := moves + dirs + documents;
    }

    method ExecuteMoves(id: string, moves: seq<string>) returns (error: Option<Error>)
      modifies this`files
      ensures Outcome(files, error) == MoveDown(old(files), id, moves)
    {
      for i := 0 to |moves|
        invariant MoveDown(files, id, moves[i..]) == MoveDown(old(files), id, moves)
      {
        var next := Rename(files, [moves[i]], AgentDir(id) + [moves[i]]);
        if next.None? { return Some(RenameFails(moves[i])); }
        assert moves[i..][1..] == moves[i + 1..];
        files := next.value;
      }
      return None;
    }

    method MoveChildrenUp(id: string, children: seq<string>) returns (error: Option<Error>)
      modifies this`files
      ensures Outcome(files, error) == MoveUp(old(files), id, children)
    {
      for i := 0 to |children|
        invariant MoveUp(files, id, children[i..]) == MoveUp(old(files), id, children)
      {
        if Exists(files, [children[i]]) { return Some(Clobbers(children[i])); }
        assert children[i..][1..] == children[i + 1..];
        files := Moved(files, AgentDir(id) + [children[i]], [children[i]]);
      }
      return None;
    }

    method ApplyPromote(id: Option<string>, listing: seq<string>) returns (error: Option<Error>)
      modifies this`files
      ensures Outcome(files, error) == Promote(texts, old(files), id, listing)
    {
      var (failed, agentId) := Plan(texts, files, id);
      if failed.Some? { return failed; }
      var existing := At(files, [Package]);
      var moves := BuildMoves(listing);
      if Blocked(files, agentId) { return Some(NotADirectory); }
      error := ExecuteMoves(agentId, moves);
      if error.Some? { return; }
      var named := RewriteName(files, agentId);
      files := named.tree;
      if named.error.Some? { return named.error; }
      var capable := RewriteCapabilities(files, agentId);
      files := capable.tree;
      if capable.error.Some? { return capable.error; }
      var written := WriteRoot(texts, files, agentId, existing);
      files := written.tree;
      error := written.error;
    }

    method ApplyDemote(id: Option<string>, children: seq<string>) returns (error: Option<Error>)
      modifies this`files
      ensures Outcome(files, error) == Demote(texts, old(files), id, children)
    {
      var (failed, onlyId) := Sole(texts, files, id);
      if failed.Some? { return failed; }
      error := MoveChildrenUp(onlyId, children);
      if error.Some? { return; }
      var cleaned := CleanUp(texts, files);
      files := cleaned.tree;
      error := cleaned.error;
    }
  }
}
