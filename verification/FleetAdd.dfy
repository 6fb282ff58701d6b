/** `addAgentFromTemplate()` and `addAgentFromPath()` of packages/cli/src/fleet-scaffold.ts on the file tree of a fleet:
    their checks, the copy into `agents/<id>/` with its rewrites, and the manifest. */
module FleetAdd {
  import opened Wrappers
  import opened Text
  import opened FileTree
  import FieldLine
  import FleetManifest
  import FleetPromote
  import Runs = FleetManifestRuns

  const ManifestPath: Path := [FleetPromote.Manifest]
  const AgentYamlPath: Path := [FleetPromote.AgentYaml]
  const CapabilitiesPath: Path := [FleetPromote.Capabilities]

  function AgentDir(id: string): Path {
    FleetPromote.AgentDir(id)
  }

  datatype Error =
    | NoManifest | NoAgentYaml | Unreadable | NoName | BadId | NotAManifest | Collision | DirectoryExists
    | RewriteFails | WriteFails | NoAgentsLine

  datatype Outcome = Outcome(tree: Tree, error: Option<Error>)

  /** What YAML contributes: the `name` of a text, the string a plain scalar reads as, if it is one, and the agents of a
      manifest. */
  datatype Yaml = Yaml(
    readName: string -> Option<string>, scalar: string -> Option<string>, reader: FleetManifest.Reader)

  /** One command: the files to copy with their paths below the source directory, the order in which the walk meets
      them, and the options. */
  datatype Request = Request(source: Tree, walk: seq<Path>, id: Option<string>, force: bool)

  /** The walk meets the files of a directory. */
  predicate WellFormedRequest(q: Request) {
    && FileTree.WellFormed(q.source)
    && (forall p | p in q.walk :: p in q.source) && forall p | p in q.source :: p in q.walk
  }

  // ---------- the copy ----------

  /** The content a file is given; None where the rewrite throws. */
  function Rewrite(id: string, p: Path, text: string): Option<string> {
    if p == AgentYamlPath then FleetPromote.NewName(text, id)
    else if p == CapabilitiesPath then FieldLine.Replace(text, "agent:", "agent: agent://" + id)
    else Some(text)
  }

  /** A directory stands where the file would be, or a file where one of its directories would be. */
  predicate WriteBlocked(t: Tree, p: Path) {
    IsDir(t, p) || exists q | q in t :: q < p
  }

  function CopyFile(t: Tree, id: string, source: Tree, p: Path): Outcome
    requires p in source
  {
    match Rewrite(id, p, source[p])
    case None => Outcome(t, Some(RewriteFails))
    case Some(text) =>
      if WriteBlocked(t, AgentDir(id) + p) then Outcome(t, Some(WriteFails))
      else Outcome(t[AgentDir(id) + p := text], None)
  }

  /** `copyDir()`, up to the first file that throws. */
  function CopyFiles(t: Tree, id: string, source: Tree, walk: seq<Path>): Outcome
    requires forall p | p in walk :: p in source
    decreases |walk|
  {
    if walk == [] then Outcome(t, None)
    else
      var r := CopyFile(t, id, source, walk[0]);
      if r.error.Some? then r else CopyFiles(r.tree, id, source, walk[1..])
  }

  // ---------- the command ----------

  function AgentId(y: Yaml, q: Request): Option<string> {
    if AgentYamlPath !in q.source then None
    else match y.readName(q.source[AgentYamlPath])
      case None => None
      case Some(name) => Some(if q.id.Some? then q.id.value else name)
  }

  /** The checks before anything is written. */
  function Check(y: Yaml, t: Tree, q: Request): Option<Error> {
    if !Exists(t, ManifestPath) then Some(NoManifest)
    else if !Exists(q.source, AgentYamlPath) then Some(NoAgentYaml)
    else if AgentYamlPath !in q.source then Some(Unreadable)
    else match AgentId(y, q)
      case None => Some(NoName)
      case Some(id) =>
        if !FleetManifest.IsAgentId(id) then Some(BadId)
        else if ManifestPath !in t then Some(Unreadable)
        else match FleetManifest.EditManifest(y.reader, y.scalar, t[ManifestPath], id)
          case NotAManifest => Some(NotAManifest)
          case Collision => Some(Collision)
          case _ => if !q.force && Exists(t, AgentDir(id)) then Some(DirectoryExists) else None
  }

  function AddAgent(y: Yaml, t: Tree, q: Request): Outcome
    requires WellFormedRequest(q)
  {
    var error := Check(y, t, q);
    if error.Some? then Outcome(t, error)
    else
      var id := AgentId(y, q).value;
      var copied := CopyFiles(t, id, q.source, q.walk);
      if copied.error.Some? then copied
      else match FleetManifest.EditManifest(y.reader, y.scalar, t[ManifestPath], id)
        case Edited(manifest) => Outcome(copied.tree[ManifestPath := manifest], None)
        case _ => Outcome(copied.tree, Some(NoAgentsLine))
  }

  // ---------- what is copied ----------

  predicate CanCopy(t: Tree, id: string, source: Tree, p: Path)
    requires p in source
  {
    Rewrite(id, p, source[p]).Some? && !WriteBlocked(t, AgentDir(id) + p)
  }

  function CopiedAt(t: Tree, id: string, source: Tree, walk: seq<Path>, q: Path): Option<string> {
    if AgentDir(id) <= q && q[2..] in walk && q[2..] in source then Rewrite(id, q[2..], source[q[2..]]) else At(t, q)
  }

  lemma CopyOne(t: Tree, id: string, source: Tree, p: Path, other: Path)
    requires FileTree.WellFormed(source) && p in source && other in source && CanCopy(t, id, source, p)
    ensures WriteBlocked(CopyFile(t, id, source, p).tree, AgentDir(id) + other)
      <==> WriteBlocked(t, AgentDir(id) + other)
  {
    var t1 := CopyFile(t, id, source, p).tree;
    var to, at := AgentDir(id) + p, AgentDir(id) + other;
    Below(id, p, other);
    Below(id, other, p);
    assert to in t1 && forall q | q in t1 :: q == to || q in t;
    assert forall q | q in t :: q in t1;
  }

  lemma Below(id: string, a: Path, b: Path)
    ensures AgentDir(id) + a < AgentDir(id) + b <==> a < b
    ensures (AgentDir(id) + a)[2..] == a
  {
    if AgentDir(id) + a < AgentDir(id) + b {
      assert a == (AgentDir(id) + a)[2..] && b == (AgentDir(id) + b)[2..];
      assert (AgentDir(id) + b)[..|a| + 2] == AgentDir(id) + a;
      assert b[..|a|] == a;
    }
    if a < b { assert AgentDir(id) + b == AgentDir(id) + a + b[|a|..]; }
  }

  /** The copy runs through exactly when every file can be rewritten and written; then each file is there with its
      rewritten content, and nothing else has changed. */
  lemma {:induction false} CopyExact(t: Tree, id: string, source: Tree, walk: seq<Path>)
    requires FileTree.WellFormed(source) && forall p | p in walk :: p in source
    ensures var r := CopyFiles(t, id, source, walk);
      && (r.error.None? <==> forall p | p in walk :: CanCopy(t, id, source, p))
      && (r.error.None? ==> forall q :: At(r.tree, q) == CopiedAt(t, id, source, walk, q))
      && (forall q | !(AgentDir(id) <= q) :: At(r.tree, q) == At(t, q))
      && r.error != Some(NoAgentsLine)
    decreases |walk|
  {
    if walk != [] {
      var p, rest := walk[0], walk[1..];
      assert walk == [p] + rest && p in walk;
      if CanCopy(t, id, source, p) {
        var t1 := CopyFile(t, id, source, p).tree;
        CopyExact(t1, id, source, rest);
        forall other | other in rest ensures CanCopy(t1, id, source, other) <==> CanCopy(t, id, source, other) {
          CopyOne(t, id, source, p, other);
        }
        forall q ensures CopiedAt(t1, id, source, rest, q) == CopiedAt(t, id, source, walk, q) {
          CopyTwice(t, id, source, walk, q);
        }
      }
    }
  }

  lemma CopyTwice(t: Tree, id: string, source: Tree, walk: seq<Path>, q: Path)
    requires (forall p | p in walk :: p in source) && walk != [] && CanCopy(t, id, source, walk[0])
    ensures CopiedAt(CopyFile(t, id, source, walk[0]).tree, id, source, walk[1..], q)
         == CopiedAt(t, id, source, walk, q)
  {
    var p := walk[0];
    assert walk == [p] + walk[1..];
    Below(id, p, p);
    if AgentDir(id) <= q { assert q == AgentDir(id) + q[2..]; }
  }

  // ---------- when an add succeeds, and what it does ----------

  /** YAML reads the manifest, and no entry reads as the id. */
  ghost predicate IsUnlisted(y: Yaml, t: Tree, id: string)
    requires ManifestPath in t
  {
    var agents := Runs.AgentsOf(y.reader, t[ManifestPath]);
    agents.Some? && !Runs.Listed(y.scalar, agents.value, id)
  }

  /** Everything a caller can check before the call. */
  ghost predicate Addable(y: Yaml, t: Tree, q: Request) {
    && ManifestPath in t && AgentYamlPath in q.source
    && var id := AgentId(y, q);
       && id.Some? && FleetManifest.IsAgentId(id.value)
       && IsUnlisted(y, t, id.value)
       && (q.force || !Exists(t, AgentDir(id.value)))
       && (forall p | p in q.source :: CanCopy(t, id.value, q.source, p))
       && FleetManifest.HasAgentsLine(SplitLines(t[ManifestPath]))
  }

  /** The tree after a successful add. */
  ghost predicate AddedTo(y: Yaml, t: Tree, t': Tree, id: string, q: Request) {
    && ManifestPath in t && ManifestPath in t'
    && Runs.AgentsOf(y.reader, t[ManifestPath]).Some?
    && Runs.ReadsOn(y.reader, t[ManifestPath], t'[ManifestPath], id)
    && Runs.Survives(SplitLines(t[ManifestPath]), SplitLines(t'[ManifestPath]))
    && forall p | p != ManifestPath :: At(t', p) == CopiedAt(t, id, q.source, q.walk, p)
  }

  /** The manifest is readable and its list stands where an edit adds to it. */
  predicate CanGrow(y: Yaml, t: Tree) {
    && ManifestPath in t && FleetManifest.Appendable(SplitLines(t[ManifestPath]))
    && Runs.AgentsOf(y.reader, t[ManifestPath]).Some?
  }

  /** What a successful add makes of such a manifest. */
  lemma Grows(y: Yaml, t: Tree, t': Tree, id: string, q: Request)
    requires AddedTo(y, t, t', id, q) && CanGrow(y, t)
    ensures CanGrow(y, t')
    ensures Runs.AgentsOf(y.reader, t'[ManifestPath])
      == Some(Runs.AgentsOf(y.reader, t[ManifestPath]).value + [FleetManifest.Entry(id, FleetManifest.PathTo(id))])
  {
  }

  lemma ManifestElsewhere(id: string, q: Path)
    requires AgentDir(id) <= q
    ensures q != ManifestPath
  {
    assert |q| >= 2 && |ManifestPath| == 1;
  }

  lemma HasAgentYaml(source: Tree)
    requires AgentYamlPath in source
    ensures Exists(source, AgentYamlPath)
  {
    assert AgentYamlPath <= AgentYamlPath;
  }

  lemma CheckPasses(y: Yaml, t: Tree, q: Request)
    requires FleetManifest.ReadsEntries(y.reader)
    ensures Check(y, t, q).None? <==>
      && ManifestPath in t && AgentYamlPath in q.source
      && var id := AgentId(y, q);
         && id.Some? && FleetManifest.IsAgentId(id.value)
         && IsUnlisted(y, t, id.value)
         && (q.force || !Exists(t, AgentDir(id.value)))
  {
    assert ManifestPath in t ==> ManifestPath <= ManifestPath && Exists(t, ManifestPath);
    if AgentYamlPath in q.source { HasAgentYaml(q.source); }
    if ManifestPath in t && AgentId(y, q).Some? && FleetManifest.IsAgentId(AgentId(y, q).value) {
      Runs.EditExact(y.reader, y.scalar, t[ManifestPath], AgentId(y, q).value);
    }
  }

  /** The agent's files are there, and the manifest has no line to add it to. */
  ghost predicate CopiedOnly(y: Yaml, t: Tree, t': Tree, q: Request) {
    && ManifestPath in t && AgentId(y, q).Some?
    && !FleetManifest.HasAgentsLine(SplitLines(t[ManifestPath]))
    && forall p :: At(t', p) == CopiedAt(t, AgentId(y, q).value, q.source, q.walk, p)
  }

  /** Behind the checks: the copy, and then the manifest. */
  lemma AddChecked(y: Yaml, t: Tree, q: Request)
    requires WellFormedRequest(q) && FleetManifest.ReadsEntries(y.reader) && Check(y, t, q).None?
    ensures var r := AddAgent(y, t, q); var id := AgentId(y, q).value;
      && (r.error.None? <==>
            (forall p | p in q.source :: CanCopy(t, id, q.source, p))
            && FleetManifest.HasAgentsLine(SplitLines(t[ManifestPath])))
      && (r.error.None? ==> AddedTo(y, t, r.tree, id, q))
      && (r.error.Some? ==> At(r.tree, ManifestPath) == At(t, ManifestPath))
      && (r.error == Some(NoAgentsLine) ==> CopiedOnly(y, t, r.tree, q))
  {
    CheckPasses(y, t, q);
    var id := AgentId(y, q).value;
    CopyExact(t, id, q.source, q.walk);
    Runs.EditExact(y.reader, y.scalar, t[ManifestPath], id);
    assert !(AgentDir(id) <= ManifestPath);
    var copied := CopyFiles(t, id, q.source, q.walk);
    if copied.error.None? {
      var e := FleetManifest.EditManifest(y.reader, y.scalar, t[ManifestPath], id);
      assert AddAgent(y, t, q) ==
        if e.Edited? then Outcome(copied.tree[ManifestPath := e.manifest], None)
        else Outcome(copied.tree, Some(NoAgentsLine));
    }
  }

  /** An add succeeds exactly when the id is well formed and not listed, YAML reads the manifest, the agent's directory
      is new or `force` is given, every file can be rewritten and written, and the manifest has an `agents:` line of a
      form that can be edited. Then the files are in place, all other lines of the manifest survive, and nothing else
      has changed. A failed add leaves the manifest as it was; but the form of that line is looked at last, when all
      the files have been copied. */
  lemma AddExact(y: Yaml, t: Tree, q: Request)
    requires WellFormedRequest(q) && FleetManifest.ReadsEntries(y.reader)
    ensures var r := AddAgent(y, t, q);
      && (r.error.None? <==> Addable(y, t, q))
      && (r.error.None? ==> AddedTo(y, t, r.tree, AgentId(y, q).value, q))
      && (r.error.Some? ==> At(r.tree, ManifestPath) == At(t, ManifestPath))
      && (r.error == Some(NoAgentsLine) ==> CopiedOnly(y, t, r.tree, q))
  {
    CheckPasses(y, t, q);
    if Check(y, t, q).None? { AddChecked(y, t, q); }
  }

  // ---------- a second add ----------

  lemma StillFree(y: Yaml, t: Tree, t': Tree, id: string, q: Request, p: Path, x: Path)
    requires WellFormedRequest(q) && AddedTo(y, t, t', id, q) && x in t'
    requires p in q.source && !WriteBlocked(t, AgentDir(id) + p)
    ensures !(AgentDir(id) + p < x) && !(x < AgentDir(id) + p)
  {
    if x != ManifestPath {
      assert At(t', x) == CopiedAt(t, id, q.source, q.walk, x);
      if AgentDir(id) <= x && x[2..] in q.walk {
        assert x == AgentDir(id) + x[2..];
        Below(id, p, x[2..]);
        Below(id, x[2..], p);
      }
    }
  }

  lemma StillCopies(y: Yaml, t: Tree, t': Tree, id: string, q: Request)
    requires WellFormedRequest(q) && (forall p | p in q.source :: CanCopy(t, id, q.source, p))
    requires AddedTo(y, t, t', id, q)
    ensures forall p | p in q.source :: CanCopy(t', id, q.source, p)
  {
    forall p | p in q.source ensures CanCopy(t', id, q.source, p) {
      assert CanCopy(t, id, q.source, p);
      forall x | x in t' ensures !(AgentDir(id) + p < x) && !(x < AgentDir(id) + p) {
        StillFree(y, t, t', id, q, p, x);
      }
    }
  }

  lemma DirectoryMade(y: Yaml, t: Tree, t': Tree, id: string, q: Request)
    requires WellFormedRequest(q) && AgentYamlPath in q.source && AddedTo(y, t, t', id, q)
    requires Rewrite(id, AgentYamlPath, q.source[AgentYamlPath]).Some?
    ensures Exists(t', AgentDir(id))
  {
    var at := AgentDir(id) + AgentYamlPath;
    Below(id, AgentYamlPath, AgentYamlPath);
    ManifestElsewhere(id, at);
    assert At(t', at) == CopiedAt(t, id, q.source, q.walk, at);
  }

  lemma NowListed(y: Yaml, entries: seq<FleetManifest.Entry>, id: string)
    requires !Runs.Listed(y.scalar, entries, id)
    ensures Runs.Listed(y.scalar, entries + [FleetManifest.Entry(id, FleetManifest.PathTo(id))], id)
      <==> y.scalar(id) == Some(id)
  {
    var added := FleetManifest.Entry(id, FleetManifest.PathTo(id));
    assert added in entries + [added];
    forall e | e in entries + [added] ensures e == added || y.scalar(e.id) != Some(id) {
      assert e in entries ==> !(y.scalar(e.id) == Some(id));
    }
  }

  lemma AddableAgain(y: Yaml, t: Tree, q: Request, id: string, force: bool)
    requires CanGrow(y, t) && AgentYamlPath in q.source && AgentId(y, q) == Some(id) && FleetManifest.IsAgentId(id)
    requires Exists(t, AgentDir(id)) && forall p | p in q.source :: CanCopy(t, id, q.source, p)
    ensures Addable(y, t, q.(force := force))
      <==> force && !Runs.Listed(y.scalar, Runs.AgentsOf(y.reader, t[ManifestPath]).value, id)
  {
  }

  lemma SecondAddable(y: Yaml, t: Tree, t': Tree, q: Request, force: bool)
    requires WellFormedRequest(q) && Addable(y, t, q) && AddedTo(y, t, t', AgentId(y, q).value, q) && CanGrow(y, t)
    ensures Addable(y, t', q.(force := force)) <==> force && y.scalar(AgentId(y, q).value) != Some(AgentId(y, q).value)
  {
    var id := AgentId(y, q).value;
    assert CanCopy(t, id, q.source, AgentYamlPath);
    StillCopies(y, t, t', id, q);
    DirectoryMade(y, t, t', id, q);
    Grows(y, t, t', id, q);
    AddableAgain(y, t', q, id, force);
    NowListed(y, Runs.AgentsOf(y.reader, t[ManifestPath]).value, id);
  }

  /** After a successful add to a manifest whose list is empty or indented by two, the same command is refused exactly
      unless it is forced and YAML does not read the id as that string. So an id such as `007`, a number to YAML, is
      listed twice by a forced second add, and by no other. */
  lemma SecondAddRefused(y: Yaml, t: Tree, q: Request, force: bool)
    requires WellFormedRequest(q) && FleetManifest.ReadsEntries(y.reader)
    requires AddAgent(y, t, q).error.None? && CanGrow(y, t)
    ensures var id := AgentId(y, q).value;
      AddAgent(y, AddAgent(y, t, q).tree, q.(force := force)).error.Some? <==> !force || y.scalar(id) == Some(id)
  {
    var t1 := AddAgent(y, t, q).tree;
    AddExact(y, t, q);
    SecondAddable(y, t, t1, q, force);
    AddExact(y, t1, q.(force := force));
  }

  /** After a successful add to a list at the left margin, or indented deeper than two blanks, every further add is
      refused, of whatever agent: the command has written a manifest that YAML rejects. */
  lemma AddBreaksManifest(y: Yaml, t: Tree, q: Request, later: Request)
    requires WellFormedRequest(q) && WellFormedRequest(later) && FleetManifest.ReadsEntries(y.reader)
    requires AddAgent(y, t, q).error.None? && FleetManifest.InBlockStyle(SplitLines(t[ManifestPath]))
    requires FleetManifest.Indentation(SplitLines(t[ManifestPath])) !in {None, Some(1), Some(2)}
    ensures AddAgent(y, AddAgent(y, t, q).tree, later).error.Some?
  {
    AddExact(y, t, q);
    AddExact(y, AddAgent(y, t, q).tree, later);
  }

  // ---------- many adds ----------

  /** Commands that all succeed, and the trees before, between and after them. */
  ghost predicate AddRun(y: Yaml, ts: seq<Tree>, qs: seq<Request>)
    requires forall q | q in qs :: WellFormedRequest(q)
  {
    |ts| == |qs| + 1 && forall i | 0 <= i < |qs| :: AddAgent(y, ts[i], qs[i]) == Outcome(ts[i + 1], None)
  }

  /** The agent ids of successful commands. */
  function IdOf(y: Yaml, q: Request): string {
    if AgentId(y, q).Some? then AgentId(y, q).value else ""
  }

  function IdsOf(y: Yaml, qs: seq<Request>): seq<string> {
    if qs == [] then [] else [IdOf(y, qs[0])] + IdsOf(y, qs[1..])
  }

  /** What is used of one successful command among several. */
  ghost predicate Step(y: Yaml, t: Tree, q: Request, t': Tree) {
    && AddedTo(y, t, t', IdOf(y, q), q)
    && !Runs.Listed(y.scalar, Runs.AgentsOf(y.reader, t[ManifestPath]).value, IdOf(y, q))
    && (q.force || !Exists(t, AgentDir(IdOf(y, q)))) && Exists(t', AgentDir(IdOf(y, q)))
    && forall p | p in t :: p in t'
  }

  lemma AddSteps(y: Yaml, t: Tree, q: Request)
    requires WellFormedRequest(q) && FleetManifest.ReadsEntries(y.reader) && AddAgent(y, t, q).error.None?
    ensures Step(y, t, q, AddAgent(y, t, q).tree)
  {
    AddExact(y, t, q);
    StepFacts(y, t, q, AddAgent(y, t, q).tree);
  }

  lemma StepFacts(y: Yaml, t: Tree, q: Request, t': Tree)
    requires WellFormedRequest(q) && Addable(y, t, q) && AddedTo(y, t, t', AgentId(y, q).value, q)
    ensures Step(y, t, q, t')
  {
    var id := AgentId(y, q).value;
    assert CanCopy(t, id, q.source, AgentYamlPath);
    DirectoryMade(y, t, t', id, q);
    forall p | p in t ensures p in t' {
      if p != ManifestPath {
        assert At(t', p) == CopiedAt(t, id, q.source, q.walk, p);
        assert AgentDir(id) <= p && p[2..] in q.walk ==> CanCopy(t, id, q.source, p[2..]);
      }
    }
  }

  /** The trees between successful commands. */
  ghost predicate Chain(y: Yaml, ts: seq<Tree>, qs: seq<Request>) {
    |ts| == |qs| + 1 && forall i | 0 <= i < |qs| :: Step(y, ts[i], qs[i], ts[i + 1])
  }

  lemma ChainTail(y: Yaml, ts: seq<Tree>, qs: seq<Request>)
    requires Chain(y, ts, qs) && qs != []
    ensures Chain(y, ts[1..], qs[1..]) && Step(y, ts[0], qs[0], ts[1])
  {
    forall i | 0 <= i < |qs| - 1 ensures Step(y, ts[1..][i], qs[1..][i], ts[1..][i + 1]) {
      assert Step(y, ts[i + 1], qs[i + 1], ts[i + 2]);
    }
  }

  /** The manifest read at both ends of a chain, and its other lines. */
  ghost predicate ManifestGrew(y: Yaml, t: Tree, t': Tree, ids: seq<string>) {
    && CanGrow(y, t) && CanGrow(y, t')
    && Runs.AgentsOf(y.reader, t'[ManifestPath])
         == Some(Runs.AgentsOf(y.reader, t[ManifestPath]).value + Runs.NewEntries(ids))
    && Runs.Survives(SplitLines(t[ManifestPath]), SplitLines(t'[ManifestPath]))
  }

  lemma GrowsMore(y: Yaml, t: Tree, t1: Tree, t2: Tree, id: string, ids: seq<string>, q: Request)
    requires AddedTo(y, t, t1, id, q) && CanGrow(y, t) && ManifestGrew(y, t1, t2, ids)
    ensures ManifestGrew(y, t, t2, [id] + ids)
  {
    Grows(y, t, t1, id, q);
    assert ([id] + ids)[1..] == ids;
    Runs.NewEntriesCons(Runs.AgentsOf(y.reader, t[ManifestPath]).value, [id] + ids);
    Runs.SurvivesTrans(SplitLines(t[ManifestPath]), SplitLines(t1[ManifestPath]), SplitLines(t2[ManifestPath]));
  }

  lemma {:induction false} ChainGrows(y: Yaml, ts: seq<Tree>, qs: seq<Request>)
    requires Chain(y, ts, qs) && CanGrow(y, ts[0])
    ensures ManifestGrew(y, ts[0], ts[|qs|], IdsOf(y, qs))
    decreases |qs|
  {
    if qs == [] {
      Runs.WithinSelf(Runs.OtherLines(SplitLines(ts[0][ManifestPath])));
      var entries := Runs.AgentsOf(y.reader, ts[0][ManifestPath]).value;
      assert entries + Runs.NewEntries([]) == entries;
    } else {
      ChainTail(y, ts, qs);
      Grows(y, ts[0], ts[1], IdOf(y, qs[0]), qs[0]);
      ChainGrows(y, ts[1..], qs[1..]);
      GrowsMore(y, ts[0], ts[1], ts[|qs|], IdOf(y, qs[0]), IdsOf(y, qs[1..]), qs[0]);
    }
  }

  lemma {:induction false} ChainDistinct(y: Yaml, ts: seq<Tree>, qs: seq<Request>)
    requires Chain(y, ts, qs) && CanGrow(y, ts[0])
    requires Runs.Distinct(Runs.AgentsOf(y.reader, ts[0][ManifestPath]).value)
    requires Runs.ReadAsIs(y.scalar, IdsOf(y, qs))
    ensures CanGrow(y, ts[|qs|]) && Runs.Distinct(Runs.AgentsOf(y.reader, ts[|qs|][ManifestPath]).value)
    decreases |qs|
  {
    if qs != [] {
      ChainTail(y, ts, qs);
      assert IdOf(y, qs[0]) in IdsOf(y, qs);
      assert forall id | id in IdsOf(y, qs[1..]) :: id in IdsOf(y, qs);
      Grows(y, ts[0], ts[1], IdOf(y, qs[0]), qs[0]);
      Runs.StaysDistinct(y.scalar, Runs.AgentsOf(y.reader, ts[0][ManifestPath]).value, IdOf(y, qs[0]));
      ChainDistinct(y, ts[1..], qs[1..]);
    }
  }

  lemma {:induction false} ChainKeepsFiles(y: Yaml, ts: seq<Tree>, qs: seq<Request>, p: Path)
    requires Chain(y, ts, qs) && p in ts[0]
    ensures p in ts[|qs|]
    decreases |qs|
  {
    if qs != [] {
      ChainTail(y, ts, qs);
      ChainKeepsFiles(y, ts[1..], qs[1..], p);
    }
  }

  /** No unforced command adds an id whose directory is already there. */
  lemma {:induction false} NotAgain(y: Yaml, ts: seq<Tree>, qs: seq<Request>, id: string)
    requires Chain(y, ts, qs) && (forall q | q in qs :: !q.force) && Exists(ts[0], AgentDir(id))
    ensures id !in IdsOf(y, qs)
    decreases |qs|
  {
    if qs != [] {
      ChainTail(y, ts, qs);
      assert qs[0] in qs;
      var x :| x in ts[0] && AgentDir(id) <= x;
      assert x in ts[1];
      NotAgain(y, ts[1..], qs[1..], id);
    }
  }

  lemma {:induction false} UnforcedDistinct(y: Yaml, ts: seq<Tree>, qs: seq<Request>)
    requires Chain(y, ts, qs) && forall q | q in qs :: !q.force
    ensures FileTree.NoDuplicates(IdsOf(y, qs))
    decreases |qs|
  {
    if qs != [] {
      ChainTail(y, ts, qs);
      UnforcedDistinct(y, ts[1..], qs[1..]);
      NotAgain(y, ts[1..], qs[1..], IdOf(y, qs[0]));
    }
  }

  /** The old entries and then the added ones in order, every other line in order, and every file that was there. Ids
      stay distinct if YAML reads the added ones as they are; without `force` the added ids are distinct whatever they
      read as. */
  ghost predicate AllAdded(y: Yaml, t: Tree, t': Tree, qs: seq<Request>) {
    var ids := IdsOf(y, qs);
    && ManifestGrew(y, t, t', ids) && (forall p | p in t :: p in t')
    && (Runs.Distinct(Runs.AgentsOf(y.reader, t[ManifestPath]).value) && Runs.ReadAsIs(y.scalar, ids) ==>
          Runs.Distinct(Runs.AgentsOf(y.reader, t'[ManifestPath]).value))
    && ((forall q | q in qs :: !q.force) ==> FileTree.NoDuplicates(ids))
  }

  lemma ChainAdds(y: Yaml, ts: seq<Tree>, qs: seq<Request>)
    requires Chain(y, ts, qs) && CanGrow(y, ts[0])
    ensures AllAdded(y, ts[0], ts[|qs|], qs)
  {
    ChainGrows(y, ts, qs);
    forall p | p in ts[0] ensures p in ts[|qs|] { ChainKeepsFiles(y, ts, qs, p); }
    if Runs.Distinct(Runs.AgentsOf(y.reader, ts[0][ManifestPath]).value) && Runs.ReadAsIs(y.scalar, IdsOf(y, qs)) {
      ChainDistinct(y, ts, qs);
    }
    if forall q | q in qs :: !q.force { UnforcedDistinct(y, ts, qs); }
  }

  lemma RunIsChain(y: Yaml, ts: seq<Tree>, qs: seq<Request>)
    requires (forall q | q in qs :: WellFormedRequest(q)) && FleetManifest.ReadsEntries(y.reader) && AddRun(y, ts, qs)
    ensures Chain(y, ts, qs)
  {
    forall i | 0 <= i < |qs| ensures Step(y, ts[i], qs[i], ts[i + 1]) {
      assert qs[i] in qs;
      assert AddAgent(y, ts[i], qs[i]) == Outcome(ts[i + 1], None);
      AddSteps(y, ts[i], qs[i]);
    }
  }

  /** After any sequence of successful adds to a manifest whose list stands where the edits add to it. */
  lemma AddsExact(y: Yaml, ts: seq<Tree>, qs: seq<Request>)
    requires (forall q | q in qs :: WellFormedRequest(q)) && FleetManifest.ReadsEntries(y.reader) && AddRun(y, ts, qs)
    requires CanGrow(y, ts[0])
    ensures AllAdded(y, ts[0], ts[|qs|], qs)
  {
    RunIsChain(y, ts, qs);
    ChainAdds(y, ts, qs);
  }

  // ---------- in place ----------

  class Fleet {
    var files: Tree
    const yaml: Yaml

    constructor (files: Tree, yaml: Yaml)
      ensures this.files == files && this.yaml == yaml
    {
      this.files, this.yaml := files, yaml;
    }

    method CopyDir(id: string, source: Tree, walk: seq<Path>) returns (error: Option<Error>)
      requires forall p | p in walk :: p in source
      modifies this`files
      ensures Outcome(files, error) == CopyFiles(old(files), id, source, walk)
    {
      for i := 0 to |walk|
        invariant CopyFiles(files, id, source, walk[i..]) == CopyFiles(old(files), id, source, walk)
      {
        var p := walk[i];
        assert walk[i..][0] == p && walk[i..][1..] == walk[i + 1..];
        var text := Rewrite(id, p, source[p]);
        if text.None? { return Some(RewriteFails); }
        if WriteBlocked(files, AgentDir(id) + p) { return Some(WriteFails); }
        files := files[AgentDir(id) + p := text.value];
      }
      return None;
    }

    method Add(q: Request) returns (error: Option<Error>)
      requires WellFormedRequest(q)
      modifies this`files
      ensures Outcome(files, error) == AddAgent(yaml, old(files), q)
    {
      error := Check(yaml, files, q);
      if error.Some? { return; }
      var id := AgentId(yaml, q).value;
      var edited := FleetManifest.EditManifest(yaml.reader, yaml.scalar, files[ManifestPath], id);
      error := CopyDir(id, q.source, q.walk);
      if error.Some? { return; }
      if !edited.Edited? { return Some(NoAgentsLine); }
      files := files[ManifestPath := edited.manifest];
    }
  }
}
