/** The main results on `promote` and `demote`: when they are inverse, and that a refused `demote` loses nothing. */
module FleetPromoteInverse {
  import opened Wrappers
  import opened FileTree
  import FieldLine
  import opened FleetManifest
  import opened FleetPromote
  import opened FleetPromoteMoves
  import opened FleetPromoted
  import opened FleetDemote

  lemma WithoutAt(t: Tree, name: string, p: Path)
    ensures At(FileTree.Without(t, [name]), p) == if p != [] && p[0] == name then None else At(t, p)
  {
    if p != [] && p[0] == name { assert p == [name] + p[1..]; }
  }

  /** What is written is read back: a package file with workspaces, and the manifest of a fleet of one. */
  ghost predicate TextsReadBack(texts: Texts) {
    && (forall text | texts.packageForFleet(text).Some? ::
          texts.packageForAgent(texts.packageForFleet(text).value).Some?)
    && (forall id :: texts.packageForAgent(texts.newPackage(id)).Some?)
    && ReadsManifests(texts.reader)
  }

  predicate IsRootName(p: Path) {
    p != [] && p[0] in [Agents, Manifest, Note]
  }

  /** What `CleanUp` leaves. */
  lemma CleanedAt(texts: Texts, t: Tree)
    requires !IsDir(t, [Note])
    ensures var r := CleanUp(texts, t);
      forall p | p != [Package] :: At(r.tree, p) == if IsRootName(p) then None else At(t, p)
    ensures [Package] in t && texts.packageForAgent(t[[Package]]).Some? ==> CleanUp(texts, t).error.None?
  {
    RootNames();
    var t0 := FileTree.Without(t, [Agents]);
    var t1 := FileTree.Without(t0, [Manifest]);
    var t2 := FileTree.Without(t1, [Note]);
    forall q | [Note] < q ensures q !in t1 { assert [Note] < q && q !in t; }
    forall p ensures At(t2, p) == if IsRootName(p) then None else At(t, p) {
      WithoutAt(t, Agents, p);
      WithoutAt(t0, Manifest, p);
      WithoutAt(t1, Note, p);
    }
    assert At(t2, [Package]) == At(t, [Package]);
    assert [Package] in t2 ==> [Package] <= [Package];
  }

  lemma RootNamesGone(t: Tree, id: string, names: seq<string>, q: Path)
    requires Planned(t, names) && !Exists(t, [Agents]) && IsRootName(q)
    ensures RestoredAt(t, id, q) == None
  {
    assert q == [q[0]] + q[1..] && [q[0]] <= q;
    assert q in t ==> Exists(t, [q[0]]);
  }

  lemma RestAt(texts: Texts, t: Tree, id: string, names: seq<string>, q: Path)
    requires q != [Package] && !IsRootName(q) && !(q != [] && q[0] in names)
    ensures PromotedAt(texts, t, id, names, q) == At(t, q)
  {
    UnderAgents(id, q);
    assert AgentPath(id, Capabilities)[0] == Agents;
    assert IsRootName([Manifest]) && IsRootName([Note]);
  }

  lemma NoAgentFile(t: Tree, id: string, names: seq<string>, q: Path)
    requires Planned(t, names) && !(q != [] && q[0] in names)
    ensures AgentFileAt(t, id, q) == At(t, q)
  {
    if q in t && |q| == 1 {
      assert q == [q[0]] && q <= q && Exists(t, [q[0]]);
    }
  }

  lemma RestUnchanged(texts: Texts, t: Tree, p: Tree, id: string, names: seq<string>, q: Path)
    requires IsPromoted(texts, t, p, id, names) && q != [Package] && !IsRootName(q) && !(q != [] && q[0] in names)
    ensures At(p, q) == At(t, q) && !(AgentDir(id) < q) && !([Note] <= q)
    ensures AgentFileAt(t, id, q) == At(t, q)
  {
    UnderAgents(id, q);
    Below(id, Note, q);
    RestAt(texts, t, id, names, q);
    NoAgentFile(t, id, names, q);
    assert At(p, q) == PromotedAt(texts, t, id, names, q);
  }

  lemma BackAtRest(texts: Texts, t: Tree, p: Tree, id: string, names: seq<string>, q: Path)
    requires IsPromoted(texts, t, p, id, names) && q != [Package]
    ensures (if IsRootName(q) then None else BackAt(t, p, id, names, q)) == RestoredAt(t, id, q)
  {
    if IsRootName(q) {
      RootNamesGone(t, id, names, q);
    } else if q != [] && q[0] in names {
      Below(id, Note, q);
    } else {
      RestUnchanged(texts, t, p, id, names, q);
    }
  }

  lemma NoteNotDir(texts: Texts, t: Tree, p: Tree, id: string, names: seq<string>, up: Tree)
    requires IsPromoted(texts, t, p, id, names) && forall q :: At(up, q) == BackAt(t, p, id, names, q)
    ensures !IsDir(up, [Note]) && At(up, [Package]) == FleetPackage(texts, At(t, [Package]), id)
  {
    RootNames();
    forall q | [Note] < q ensures q !in up {
      assert q[0] == Note && |q| > 1;
      assert At(up, q) == BackAt(t, p, id, names, q);
      assert At(p, q) == PromotedAt(texts, t, id, names, q);
      assert q !in t;
    }
    assert At(up, [Package]) == BackAt(t, p, id, names, [Package]);
    assert At(p, [Package]) == PromotedAt(texts, t, id, names, [Package]);
  }

  lemma DemoteIs(texts: Texts, t: Tree, id: Option<string>, children: seq<string>, error: Option<Error>, onlyId: string)
    requires Sole(texts, t, id) == (error, onlyId)
    ensures var r := Demote(texts, t, id, children); var moved := MoveUp(t, onlyId, children);
      r == if error.Some? then Outcome(t, error) else if moved.error.Some? then moved else CleanUp(texts, moved.tree)
  {
  }

  lemma CleanUpPromoted(
    texts: Texts, t: Tree, p: Tree, id: string, names: seq<string>, children: seq<string>)
    requires IsPromoted(texts, t, p, id, names) && TextsReadBack(texts) && Lists(p, AgentDir(id), children)
    ensures var up := MoveUp(p, id, children); up.error.None? && CleanUp(texts, up.tree).error.None?
    ensures forall q | q != [Package] ::
      At(CleanUp(texts, MoveUp(p, id, children).tree).tree, q) == RestoredAt(t, id, q)
  {
    ChildrenAre(texts, t, p, id, names, children);
    MovedBack(texts, t, p, id, names, children);
    var up := MoveUp(p, id, children).tree;
    NoteNotDir(texts, t, p, id, names, up);
    CleanedAt(texts, up);
    forall q | q != [Package] ensures At(CleanUp(texts, up).tree, q) == RestoredAt(t, id, q) {
      BackAtRest(texts, t, p, id, names, q);
    }
    ReadsBack(texts, At(t, [Package]), id);
  }

  /** What `demote` does to a promoted tree. */
  ghost predicate Demoted(texts: Texts, t: Tree, p: Tree, id: string, r: Outcome) {
    && (r.error.None? <==> texts.asText(id) == id)
    && (r.error.Some? ==> r.tree == p && r.error.value in {BadAgentId, NoAgentDir})
    && (r.error.None? ==> forall q | q != [Package] :: At(r.tree, q) == RestoredAt(t, id, q))
  }

  lemma DemotePromoted(
    texts: Texts, t: Tree, p: Tree, id: string, names: seq<string>, children: seq<string>)
    requires IsPromoted(texts, t, p, id, names) && IsAgentId(id) && TextsReadBack(texts)
    requires Lists(p, AgentDir(id), children)
    ensures Demoted(texts, t, p, id, Demote(texts, p, None, children))
  {
    SoleAgent(texts, t, p, id, names);
    var (error, onlyId) := Sole(texts, p, None);
    DemoteIs(texts, p, None, children, error, onlyId);
    CleanUpPromoted(texts, t, p, id, names, children);
  }

  lemma ReadsBack(texts: Texts, existing: Option<string>, id: string)
    requires TextsReadBack(texts) && FleetPackage(texts, existing, id).Some?
    ensures texts.packageForAgent(FleetPackage(texts, existing, id).value).Some?
  {
  }

  // ---------- the inverse ----------

  predicate SameButPackage(a: Tree, b: Tree) {
    forall p | p in a.Keys + b.Keys && p != [Package] :: At(a, p) == At(b, p)
  }

  /** The name and capability lines already have the form that `promote` gives them. */
  predicate Bare(t: Tree, id: string) {
    && ([AgentYaml] in t ==> FieldLine.Match(t[[AgentYaml]], "name:") == Some("name: " + id))
    && ([Capabilities] in t ==> FieldLine.Match(t[[Capabilities]], "agent:") in {None, Some("agent: agent://" + id)})
  }

  lemma BareIff(t: Tree, id: string)
    requires [AgentYaml] in t
    ensures Bare(t, id) <==>
      NewName(t[[AgentYaml]], id) == Some(t[[AgentYaml]])
      && ([Capabilities] in t ==> NewAgent(t[[Capabilities]], id) == t[[Capabilities]])
  {
    FieldLine.UnchangedIff(t[[AgentYaml]], "name:", "name: " + id);
    if [Capabilities] in t { FieldLine.UnchangedIff(t[[Capabilities]], "agent:", "agent: agent://" + id); }
  }

  /** A successful demote leaves neither `agents/` nor `PROMOTED.md`. */
  lemma DemoteLeavesNoFleet(texts: Texts, t: Tree, id: Option<string>, children: seq<string>)
    requires Demote(texts, t, id, children).error.None?
    ensures var r := Demote(texts, t, id, children).tree; !Exists(r, [Agents]) && !Exists(r, [Note])
  {
    RootNames();
    var up := MoveUp(t, Sole(texts, t, id).1, children).tree;
    var t0 := FileTree.Without(up, [Agents]);
    var t1 := FileTree.Without(t0, [Manifest]);
    var r := CleanUp(texts, up).tree;
    forall p | p in r ensures !([Agents] <= p) && !([Note] <= p) {
      Below("", Agents, p);
      Below("", Note, p);
      WithoutAt(up, Agents, p);
      WithoutAt(t0, Manifest, p);
      WithoutAt(t1, Note, p);
    }
  }

  lemma PlannedId(texts: Texts, t: Tree, id: Option<string>)
    ensures Plan(texts, t, id).0.None? ==> IsAgentId(Plan(texts, t, id).1)
  {
  }

  lemma PromoteIs(texts: Texts, t: Tree, id: Option<string>, listing: seq<string>)
    requires Promote(texts, t, id, listing).error.None?
    ensures var (error, agentId) := Plan(texts, t, id);
      error.None? && IsAgentId(agentId) && Promote(texts, t, id, listing) == Apply(texts, t, agentId, Moves(t, listing))
  {
    PlannedId(texts, t, id);
  }

  /** `demote` on the outcome of `promote`. */
  lemma DemoteAfterPromote(texts: Texts, t: Tree, id: Option<string>, listing: seq<string>, children: seq<string>)
    requires WellFormed(t) && Lists(t, [], listing) && TextsReadBack(texts) && !Exists(t, [Agents])
    requires Promote(texts, t, id, listing).error.None?
    requires Lists(Promote(texts, t, id, listing).tree, AgentDir(Plan(texts, t, id).1), children)
    ensures var p := Promote(texts, t, id, listing).tree;
      [AgentYaml] in t && Demoted(texts, t, p, Plan(texts, t, id).1, Demote(texts, p, None, children))
  {
    PromoteIs(texts, t, id, listing);
    var agentId := Plan(texts, t, id).1;
    PlanIsPlanned(texts, t, id, listing);
    ApplyAt(texts, t, agentId, Moves(t, listing));
    DemotePromoted(texts, t, Promote(texts, t, id, listing).tree, agentId, Moves(t, listing), children);
  }

  /** After a successful `promote`, `demote` succeeds and restores every file outside `package.json` exactly when there
      was no `agents/` and no `PROMOTED.md`, the name lines were in bare form, and YAML reads the id as that string.
      An id such as `007` reads as a number: the promoted directory cannot be demoted. */
  lemma RestoresIff(texts: Texts, t: Tree, id: Option<string>, listing: seq<string>, children: seq<string>)
    requires WellFormed(t) && Lists(t, [], listing) && TextsReadBack(texts)
    requires Promote(texts, t, id, listing).error.None?
    requires Lists(Promote(texts, t, id, listing).tree, AgentDir(Plan(texts, t, id).1), children)
    ensures var agentId := Plan(texts, t, id).1;
      var r := Demote(texts, Promote(texts, t, id, listing).tree, None, children);
      r.error.None? && SameButPackage(r.tree, t)
      <==> (!Exists(t, [Agents]) && !Exists(t, [Note]) && Bare(t, agentId) && texts.asText(agentId) == agentId)
  {
    var agentId := Plan(texts, t, id).1;
    var p := Promote(texts, t, id, listing).tree;
    var r := Demote(texts, p, None, children);
    if Exists(t, [Agents]) || Exists(t, [Note]) {
      if r.error.None? && SameButPackage(r.tree, t) {
        DemoteLeavesNoFleet(texts, p, None, children);
        SameExists(r.tree, t);
      }
    } else {
      DemoteAfterPromote(texts, t, id, listing, children);
      if r.error.None? { RestoredIff(t, agentId, r.tree); }
    }
  }

  lemma SameExists(a: Tree, b: Tree)
    requires SameButPackage(a, b)
    ensures Exists(a, [Agents]) <==> Exists(b, [Agents])
    ensures Exists(a, [Note]) <==> Exists(b, [Note])
  {
    RootNames();
    forall p | p != [Package] ensures p in a <==> p in b {
      assert p in a || p in b ==> At(a, p) == At(b, p);
    }
    Below("", Agents, [Package]);
    Below("", Note, [Package]);
  }

  lemma RestoredIff(t: Tree, id: string, r: Tree)
    requires [AgentYaml] in t && !Exists(t, [Note])
    requires forall q | q != [Package] :: At(r, q) == RestoredAt(t, id, q)
    ensures SameButPackage(r, t) <==> Bare(t, id)
  {
    BareIff(t, id);
    RootNames();
    OtherRoot(Package);
    NotPackage();
    if SameButPackage(r, t) {
      assert At(r, [AgentYaml]) == At(t, [AgentYaml]);
      assert At(r, [AgentYaml]) == RestoredAt(t, id, [AgentYaml]);
      assert [Capabilities] in t ==> At(r, [Capabilities]) == At(t, [Capabilities]);
      assert At(r, [Capabilities]) == RestoredAt(t, id, [Capabilities]);
    }
    if Bare(t, id) {
      forall q | q != [Package] ensures At(r, q) == At(t, q) {
        assert At(r, q) == RestoredAt(t, id, q);
        assert q in t ==> !([Note] <= q);
        assert |q| == 1 ==> q == [q[0]];
      }
    }
  }

  lemma NotPackage()
    ensures [AgentYaml] != [Package] && [Capabilities] != [Package]
    ensures !([Note] <= [AgentYaml]) && !([Note] <= [Capabilities])
  {
    FileNames(AgentYaml);
    FileNames(Capabilities);
    NoteName();
    assert PerAgentFiles[0] == AgentYaml && PerAgentFiles[1] == Capabilities;
  }

  // ---------- when demote refuses, for a root that already had agents/ ----------

  lemma UnderDirectory(t: Tree, id: string, name: string)
    requires Exists(t, AgentDir(id) + [name])
    ensures Exists(t, [Agents])
  {
    var q :| q in t && AgentDir(id) + [name] <= q;
    assert q[0] == (AgentDir(id) + [name])[0] == Agents;
    assert [Agents] == [q[0]] && [q[0]] <= q;
  }

  /** `demote` refuses exactly when one of the names it would move up is taken at the root. */
  lemma {:induction false} MoveUpClobbers(t: Tree, id: string, names: seq<string>)
    requires NoDuplicates(names) && forall name | name in names :: Exists(t, AgentDir(id) + [name])
    ensures var r := MoveUp(t, id, names);
      && (r.error.Some? <==> exists name :: name in names && Exists(t, [name]))
      && (r.error.Some? ==> r.error.value.Clobbers?)
    decreases |names|
  {
    if names != [] {
      var name := names[0];
      var rest := names[1..];
      assert names == [name] + rest;
      if !Exists(t, [name]) {
        UnderDirectory(t, id, name);
        var t1 := Moved(t, AgentDir(id) + [name], [name]);
        forall p ensures At(t1, p) == UpAt(t, id, [name], p) { OneUp(t, id, name, p); }
        forall other | other in rest
          ensures Exists(t1, AgentDir(id) + [other]) && (Exists(t1, [other]) <==> Exists(t, [other]))
        {
          StillThere(t, t1, id, name, other);
          RootAlike(t, t1, id, name, other);
        }
        MoveUpClobbers(t1, id, rest);
      }
    }
  }

  lemma RootAlike(t: Tree, t1: Tree, id: string, name: string, other: string)
    requires forall p :: At(t1, p) == UpAt(t, id, [name], p)
    requires other != name && Exists(t, AgentDir(id) + [other]) && Exists(t1, AgentDir(id) + [other])
    ensures Exists(t1, [other]) <==> Exists(t, [other])
  {
    if other == Agents {
      UnderDirectory(t, id, other);
      UnderDirectory(t1, id, other);
    } else {
      forall q | [other] <= q ensures q in t1 <==> q in t {
        assert q[0] == other && At(t1, q) == UpAt(t, id, [name], q);
        UnderAgents(id, q);
      }
    }
  }

  /** An entry of an agent's directory that was there before, that `promote` does not replace, and whose name is taken
      at the root, now or after `promote` has written there. */
  ghost predicate Taken(t: Tree, id: string, name: string) {
    && !Belongs(t, name) && Exists(t, AgentDir(id) + [name])
    && (Exists(t, [name]) || name in [Package, Manifest, Note])
  }

  lemma ChildAlike(texts: Texts, t: Tree, p: Tree, id: string, names: seq<string>, name: string)
    requires Planned(t, names) && (forall q :: At(p, q) == PromotedAt(texts, t, id, names, q)) && name !in names
    ensures Exists(p, AgentDir(id) + [name]) <==> Exists(t, AgentDir(id) + [name])
  {
    forall q | AgentDir(id) + [name] <= q ensures q in p <==> q in t {
      Below(id, name, q);
      UnderAgents(id, q);
      assert At(p, q) == PromotedAt(texts, t, id, names, q);
      assert |q| > 1 && |[Package]| == 1 && |[Manifest]| == 1 && |[Note]| == 1;
    }
  }

  lemma RootOfPromoted(texts: Texts, t: Tree, p: Tree, id: string, names: seq<string>, name: string)
    requires Planned(t, names) && (forall q :: At(p, q) == PromotedAt(texts, t, id, names, q)) && name != Agents
    requires FleetPackage(texts, At(t, [Package]), id).Some?
    ensures Exists(p, [name]) <==> name in [Package, Manifest, Note] || (name !in names && Exists(t, [name]))
  {
    RootNames();
    if name in [Package, Manifest, Note] {
      assert At(p, [name]) == PromotedAt(texts, t, id, names, [name]);
      assert [name] in p && [name] <= [name];
    } else {
      forall q | [name] <= q ensures q in p <==> name !in names && q in t {
        assert q[0] == name && At(p, q) == PromotedAt(texts, t, id, names, q);
        UnderAgents(id, q);
        assert q == [Package] || q == [Manifest] || q == [Note] ==> name in [Package, Manifest, Note];
        assert AgentPath(id, Capabilities)[0] == Agents;
      }
    }
  }

  lemma SoleHolds(texts: Texts, t: Tree, p: Tree, id: string, names: seq<string>)
    requires Planned(t, names) && (forall q :: At(p, q) == PromotedAt(texts, t, id, names, q))
    requires NewName(t[[AgentYaml]], id).Some? && IsAgentId(id) && texts.asText(id) == id
    requires ReadsManifests(texts.reader)
    ensures Sole(texts, p, None) == (None, id)
  {
    RootNames();
    assert At(p, [Manifest]) == PromotedAt(texts, t, id, names, [Manifest]);
    assert [Manifest] <= [Manifest];
    ManifestReads(texts.reader, id);
    var path := AgentPath(id, AgentYaml);
    assert path[2..] == [AgentYaml] && path[2] == AgentYaml && |path| == 3;
    assert At(p, path) == PromotedAt(texts, t, id, names, path);
    assert path in p && AgentDir(id) < path;
    SoleOf(texts, p, id, Entry(id, PathTo(id)));
  }

  lemma TakenIff(texts: Texts, t: Tree, p: Tree, id: string, names: seq<string>, children: seq<string>)
    requires Planned(t, names) && (forall q :: At(p, q) == PromotedAt(texts, t, id, names, q))
    requires FleetPackage(texts, At(t, [Package]), id).Some? && forall name :: name in names <==> Belongs(t, name)
    requires Lists(p, AgentDir(id), children)
    ensures (exists name :: name in children && Exists(p, [name])) <==> exists name :: Taken(t, id, name)
  {
    forall name ensures name in children && Exists(p, [name]) <==> Taken(t, id, name) {
      if name == Agents {
        if Exists(p, AgentDir(id) + [name]) { UnderDirectory(p, id, name); }
        if Exists(t, AgentDir(id) + [name]) { UnderDirectory(t, id, name); }
      } else {
        RootOfPromoted(texts, t, p, id, names, name);
      }
      if name !in names { ChildAlike(texts, t, p, id, names, name); }
    }
  }

  /** After a successful `promote`, `demote` refuses to overwrite a file exactly when the agent's directory had an entry
      before that is not one of the moved ones and whose name is taken at the root. */
  lemma ClobbersIff(texts: Texts, t: Tree, id: Option<string>, listing: seq<string>, children: seq<string>)
    requires WellFormed(t) && Lists(t, [], listing) && Promote(texts, t, id, listing).error.None?
    requires texts.asText(Plan(texts, t, id).1) == Plan(texts, t, id).1 && ReadsManifests(texts.reader)
    requires Lists(Promote(texts, t, id, listing).tree, AgentDir(Plan(texts, t, id).1), children)
    ensures var r := Demote(texts, Promote(texts, t, id, listing).tree, None, children);
      (r.error.Some? && r.error.value.Clobbers?) <==> exists name :: Taken(t, Plan(texts, t, id).1, name)
  {
    PromoteIs(texts, t, id, listing);
    var agentId := Plan(texts, t, id).1;
    var names := Moves(t, listing);
    PlanIsPlanned(texts, t, id, listing);
    MovesAre(t, listing);
    ApplyAt(texts, t, agentId, names);
    DemoteClobbers(texts, t, Promote(texts, t, id, listing).tree, agentId, names, children);
  }

  lemma DemoteClobbers(texts: Texts, t: Tree, p: Tree, id: string, names: seq<string>, children: seq<string>)
    requires Planned(t, names) && (forall q :: At(p, q) == PromotedAt(texts, t, id, names, q))
    requires CanApply(texts, t, id, names) && IsAgentId(id) && texts.asText(id) == id && ReadsManifests(texts.reader)
    requires (forall name :: name in names <==> Belongs(t, name)) && Lists(p, AgentDir(id), children)
    ensures var r := Demote(texts, p, None, children);
      (r.error.Some? && r.error.value.Clobbers?) <==> exists name :: Taken(t, id, name)
  {
    SoleHolds(texts, t, p, id, names);
    DemoteIs(texts, p, None, children, None, id);
    MoveUpClobbers(p, id, children);
    CleanUpErrors(texts, MoveUp(p, id, children).tree);
    TakenIff(texts, t, p, id, names, children);
  }

  // ---------- a refused demote ----------

  /** Every file of `a` is in `b` with its content, at its path or moved out of the agent's directory. */
  predicate Kept(a: Tree, b: Tree, id: string) {
    forall p | p in a :: At(b, p) == Some(a[p]) || (AgentDir(id) < p && At(b, p[2..]) == Some(a[p]))
  }

  lemma {:induction false} MoveUpKeeps(t: Tree, id: string, names: seq<string>)
    requires NoDuplicates(names) && forall name | name in names :: Exists(t, AgentDir(id) + [name])
    ensures Kept(t, MoveUp(t, id, names).tree, id)
    decreases |names|
  {
    if names != [] && !Exists(t, [names[0]]) {
      var name := names[0];
      var from := AgentDir(id) + [name];
      var q :| q in t && from <= q;
      Below(id, name, q);
      assert q[0] == Agents && [Agents] == [q[0]] && [q[0]] <= q;
      var t1 := Moved(t, from, [name]);
      forall p ensures At(t1, p) == UpAt(t, id, [name], p) { OneUp(t, id, name, p); }
      forall other | other in names[1..] ensures Exists(t1, AgentDir(id) + [other]) {
        StillThere(t, t1, id, name, other);
      }
      MoveUpKeeps(t1, id, names[1..]);
      StepKeeps(t, t1, MoveUp(t, id, names).tree, id, name);
    }
  }

  lemma StillThere(t: Tree, t1: Tree, id: string, name: string, other: string)
    requires forall p :: At(t1, p) == UpAt(t, id, [name], p)
    requires other != name && name != Agents && Exists(t, AgentDir(id) + [other])
    ensures Exists(t1, AgentDir(id) + [other])
  {
    var q :| q in t && AgentDir(id) + [other] <= q;
    Below(id, other, q);
    assert q[0] == Agents && At(t1, q) == UpAt(t, id, [name], q);
  }

  lemma StepKeeps(t: Tree, t1: Tree, t2: Tree, id: string, name: string)
    requires forall p :: At(t1, p) == UpAt(t, id, [name], p)
    requires name != Agents && !Exists(t, [name]) && Kept(t1, t2, id)
    ensures Kept(t, t2, id)
  {
    forall p | p in t ensures At(t2, p) == Some(t[p]) || (AgentDir(id) < p && At(t2, p[2..]) == Some(t[p])) {
      assert At(t1, p) == UpAt(t, id, [name], p);
      Below(id, name, p);
      if AgentDir(id) < p && p[2] == name {
        var up := p[2..];
        assert AgentDir(id) + up == p && up[0] == name;
        assert At(t1, up) == UpAt(t, id, [name], up);
        UnderAgents(id, up);
      }
    }
  }

  /** A `demote` that refuses to overwrite a file, possibly after moving others, has lost and changed no file. */
  lemma RefusedDemoteKeeps(texts: Texts, t: Tree, id: Option<string>, children: seq<string>)
    requires Sole(texts, t, id).0.None? ==> Lists(t, AgentDir(Sole(texts, t, id).1), children)
    requires var r := Demote(texts, t, id, children); r.error.Some? && r.error.value.Clobbers?
    ensures Kept(t, Demote(texts, t, id, children).tree, Sole(texts, t, id).1)
  {
    var (error, onlyId) := Sole(texts, t, id);
    DemoteIs(texts, t, id, children, error, onlyId);
    SoleErrors(texts, t, id);
    CleanUpErrors(texts, MoveUp(t, onlyId, children).tree);
    MoveUpKeeps(t, onlyId, children);
  }

  lemma SoleErrors(texts: Texts, t: Tree, id: Option<string>)
    ensures Sole(texts, t, id).0.Some? ==> !Sole(texts, t, id).0.value.Clobbers?
  {
  }

  lemma CleanUpErrors(texts: Texts, t: Tree)
    ensures CleanUp(texts, t).error.Some? ==> !CleanUp(texts, t).error.value.Clobbers?
  {
  }
}
